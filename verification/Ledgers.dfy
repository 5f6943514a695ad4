/** Account balances. */
module Ledgers {
  import opened SdkCoins
  import opened CoinMaps

  type Ledger<!A> = map<A, Coins>

  function Balance<A(==)>(l: Ledger<A>, a: A): Coins {
    Get(l, a)
  }

  /** The balance of account a in denom d. */
  function Bal<A(==)>(l: Ledger<A>, a: A, d: Denom): int {
    Amt(Balance(l, a), d)
  }

  /** Moving coins from one account to another. */
  function Moved<A(==)>(l: Ledger<A>, from: A, to: A, c: Coins): Ledger<A> {
    var taken := l[from := Sub(Balance(l, from), c)];
    taken[to := Add(Balance(taken, to), c)]
  }

  /** A move takes from one account what it gives to the other. */
  lemma MovedBal<A>(l: Ledger<A>, from: A, to: A, c: Coins, a: A, d: Denom)
    ensures Bal(Moved(l, from, to, c), a, d) ==
            Bal(l, a, d) - (if a == from then Amt(c, d) else 0) + if a == to then Amt(c, d) else 0
  {
  }

  /** A move creates nothing and loses nothing. */
  lemma MovedTotal<A>(l: Ledger<A>, from: A, to: A, c: Coins, d: Denom)
    ensures MapTotal(Moved(l, from, to, c), d) == MapTotal(l, d)
  {
    var neg := Sub(NoCoins, c);
    SameAmounts(Sub(Balance(l, from), c), Add(Balance(l, from), neg));
    TotalAdd(l, from, neg, d);
    TotalAdd(l[from := Sub(Balance(l, from), c)], to, c, d);
  }
}
