/** Multi-denomination amounts (`sdk.Coins`).

    A coin set is a finite map from denom to a non-zero amount: zero entries are never kept, so two
    coin sets are equal exactly when they hold the same amount of every denom. Negative amounts occur
    only in the result of `SafeSub`; a *valid* coin set is one whose amounts are all positive. */
module SdkCoins {

  datatype Option<+T> = None | Some(value: T)

  /** Denoms and accounts are names that are only ever compared. */
  type Denom(==, !new)
  type Account(==, !new)

  type Coins = c: map<Denom, int> | forall d :: d in c ==> c[d] != 0

  const NoCoins: Coins := map[]

  /** The amount of denom d in c. */
  function Amt(c: Coins, d: Denom): int {
    if d in c then c[d] else 0
  }

  /** A coin set holding a single denom. */
  function OneCoin(d: Denom, n: int): (r: Coins)
    ensures forall x :: Amt(r, x) == if x == d then n else 0
  {
    if n == 0 then map[] else map[d := n]
  }

  function Add(a: Coins, b: Coins): (r: Coins)
    ensures forall d :: Amt(r, d) == Amt(a, d) + Amt(b, d)
  {
    map d | d in a.Keys + b.Keys && Amt(a, d) + Amt(b, d) != 0 :: Amt(a, d) + Amt(b, d)
  }

  function Sub(a: Coins, b: Coins): (r: Coins)
    ensures forall d :: Amt(r, d) == Amt(a, d) - Amt(b, d)
  {
    map d | d in a.Keys + b.Keys && Amt(a, d) - Amt(b, d) != 0 :: Amt(a, d) - Amt(b, d)
  }

  predicate AnyNegative(c: Coins)
    ensures AnyNegative(c) <==> exists d :: Amt(c, d) < 0
  {
    assert forall d :: d in c ==> Amt(c, d) == c[d];
    assert forall d :: Amt(c, d) < 0 ==> d in c;
    exists d :: d in c && c[d] < 0
  }

  /** Every amount is positive; the empty coin set is valid. */
  ghost predicate Valid(c: Coins) {
    forall d :: d in c ==> c[d] > 0
  }

  /** The balance has all of the coins. */
  predicate CoveredBy(c: Coins, balance: Coins) {
    forall d :: d in c ==> c[d] <= Amt(balance, d)
  }

  /** Coin sets that agree on every denom are the same coin set. */
  lemma SameAmounts(a: Coins, b: Coins)
    requires forall d :: Amt(a, d) == Amt(b, d)
    ensures a == b
  {
    forall d ensures d in a <==> d in b {
      assert Amt(a, d) == Amt(b, d);
    }
    forall d | d in a && d in b ensures a[d] == b[d] {
      assert Amt(a, d) == Amt(b, d);
    }
  }
}
