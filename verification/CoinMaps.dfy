/** Maps from a key to coins, and their totals. */
module CoinMaps {
  import opened SdkCoins
  import opened Sums

  function Get<K>(m: map<K, Coins>, k: K): Coins {
    if k in m then m[k] else NoCoins
  }

  /** The amount of denom d under the keys in s. */
  ghost function KeySum<K>(m: map<K, Coins>, s: set<K>, d: Denom): int {
    SumOver(s, k => Amt(Get(m, k), d))
  }

  /** The amount of denom d in the whole map. */
  ghost function MapTotal<K>(m: map<K, Coins>, d: Denom): int {
    KeySum(m, m.Keys, d)
  }

  ghost predicate AllCoinsValid<K>(m: map<K, Coins>) {
    forall k :: k in m ==> Valid(m[k])
  }

  lemma KeySumRemove<K>(m: map<K, Coins>, s: set<K>, k: K, d: Denom)
    requires k in s
    ensures KeySum(m, s, d) == Amt(Get(m, k), d) + KeySum(m, s - {k}, d)
  {
    SumOverRemove(s, x => Amt(Get(m, x), d), k);
  }

  lemma KeySumSame<K>(m: map<K, Coins>, m': map<K, Coins>, s: set<K>, d: Denom)
    requires forall k :: k in s ==> Amt(Get(m, k), d) == Amt(Get(m', k), d)
    ensures KeySum(m, s, d) == KeySum(m', s, d)
  {
    SumOverSame(s, x => Amt(Get(m, x), d), x => Amt(Get(m', x), d));
  }

  /** Adding coins under one key adds them to the total. */
  lemma TotalAdd<K>(m: map<K, Coins>, k: K, c: Coins, d: Denom)
    ensures MapTotal(m[k := Add(Get(m, k), c)], d) == MapTotal(m, d) + Amt(c, d)
  {
    var m' := m[k := Add(Get(m, k), c)];
    KeySumRemove(m', m'.Keys, k, d);
    KeySumSame(m, m', m'.Keys - {k}, d);
    assert m'.Keys - {k} == m.Keys - {k};
    if k in m {
      KeySumRemove(m, m.Keys, k, d);
    } else {
      assert m.Keys - {k} == m.Keys;
    }
  }

  /** Adding a part and then the rest under a key is adding the whole. */
  lemma AddInParts<K>(m: map<K, Coins>, k: K, part: Coins, whole: Coins)
    ensures var m1 := m[k := Add(Get(m, k), part)];
      m1[k := Add(Get(m1, k), Sub(whole, part))] == m[k := Add(Get(m, k), whole)]
  {
    SameAmounts(Add(Add(Get(m, k), part), Sub(whole, part)), Add(Get(m, k), whole));
  }

  lemma {:induction false} KeySumNonNegative<K>(m: map<K, Coins>, s: set<K>, d: Denom)
    requires AllCoinsValid(m)
    ensures KeySum(m, s, d) >= 0
    decreases s
  {
    if s != {} {
      var k :| k in s;
      KeySumRemove(m, s, k, d);
      KeySumNonNegative(m, s - {k}, d);
    }
  }
}
