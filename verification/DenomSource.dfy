/** The mutable map from denom to the accounts that still have funds of it (`denomSourceMap`).

    Where the program walks a coin set or a map, the loops below take the keys in any order, so what is
    proved holds of every order, the sorted one included. */
module DenomSource {
  import opened SdkCoins
  import opened AccountAmounts
  import opened DenomQueues
  import opened Sums

  type Queues = map<Denom, seq<AccountInt>>

  function Queue(m: Queues, d: Denom): seq<AccountInt> {
    if d in m then m[d] else []
  }

  function WithQueue(m: Queues, d: Denom, q: seq<AccountInt>): Queues {
    if q == [] then m - {d} else m[d := q]
  }

  ghost predicate WellFormed(m: Queues) {
    forall d :: d in m ==> m[d] != [] && Positive(m[d])
  }

  /** The number of entries in all the queues. */
  ghost function Count(m: Queues): int {
    SumOver(m.Keys, d => |Queue(m, d)|)
  }

  /** The queue of denom d made of the entries that have some of it, in order. */
  ghost function QueueOf(es: seq<AccountAmount>, d: Denom): seq<AccountInt> {
    if es == [] then []
    else
      var last := es[|es|-1];
      QueueOf(es[..|es|-1], d) + if d in last.amount then [AccountInt(last.account, last.amount[d])] else []
  }

  /** The number of coins listed. */
  ghost function CoinCount(es: seq<AccountAmount>): nat {
    if es == [] then 0 else CoinCount(es[..|es|-1]) + |es[|es|-1].amount|
  }

  /** What drawing all of the coins leaves in the queue of d. */
  ghost function RestOf(m: Queues, coins: Coins, d: Denom): seq<AccountInt> {
    Take(Queue(m, d), Amt(coins, d)).rest
  }

  /** The pieces of d drawn for the coins. */
  ghost function PiecesOf(m: Queues, coins: Coins, d: Denom): seq<AccountInt> {
    Take(Queue(m, d), Amt(coins, d)).pieces
  }

  /** Every denom has enough funds for the coins. */
  ghost predicate Covers(m: Queues, coins: Coins) {
    forall d :: Amt(coins, d) <= QTotal(Queue(m, d))
  }

  lemma CountNonNegative(m: Queues, s: set<Denom>)
    ensures SumOver(s, d => |Queue(m, d)|) >= 0
  {
    if s != {} {
      var f := d => |Queue(m, d)|;
      var x :| x in s;
      SumOverRemove(s, f, x);
      CountNonNegative(m, s - {x});
    }
  }

  /** Replacing one queue changes the number of entries by the change in that queue. */
  lemma CountWithQueue(m: Queues, d: Denom, q: seq<AccountInt>)
    ensures Count(WithQueue(m, d, q)) == Count(m) - |Queue(m, d)| + |q|
  {
    var m' := WithQueue(m, d, q);
    var f, f' := x => |Queue(m, x)|, x => |Queue(m', x)|;
    SumOverSame(m.Keys - {d}, f, f');
    assert m.Keys - {d} == m'.Keys - {d};
    if d in m {
      SumOverRemove(m.Keys, f, d);
    } else {
      assert m.Keys - {d} == m.Keys;
    }
    if d in m' {
      SumOverRemove(m'.Keys, f', d);
    } else {
      assert m'.Keys - {d} == m'.Keys;
    }
  }

  lemma {:induction false} QueueOfAccount(es: seq<AccountAmount>, a: Account, d: Denom)
    ensures QOf(QueueOf(es, d), a) == Of(es, a, d)
  {
    if es != [] {
      var init, last := es[..|es|-1], es[|es|-1];
      QueueOfAccount(init, a, d);
      if d in last.amount {
        var tail := [AccountInt(last.account, last.amount[d])];
        QOfConcat(QueueOf(init, d), tail, a);
        assert tail[1..] == [];
      } else {
        assert QueueOf(es, d) == QueueOf(init, d);
      }
    }
  }

  lemma {:induction false} QueueOfTotal(es: seq<AccountAmount>, d: Denom)
    requires AllValid(es)
    ensures Positive(QueueOf(es, d))
    ensures QTotal(QueueOf(es, d)) == Total(es, d)
  {
    if es != [] {
      var init, last := es[..|es|-1], es[|es|-1];
      QueueOfTotal(init, d);
      if d in last.amount {
        var tail := [AccountInt(last.account, last.amount[d])];
        QTotalConcat(QueueOf(init, d), tail);
        assert tail[1..] == [];
      } else {
        assert QueueOf(es, d) == QueueOf(init, d);
      }
    }
  }

  lemma CoversNothing(m: Queues)
    requires WellFormed(m)
    ensures Covers(m, NoCoins)
  {
    forall d ensures QTotal(Queue(m, d)) >= 0 {
      TotalPositive(Queue(m, d));
    }
  }

  /** m differs from m0 in no queue but that of d, which may have become empty. */
  ghost predicate SameBut(m0: Queues, m: Queues, d: Denom) {
    m.Keys == m0.Keys && forall x :: x in m && x != d ==> m[x] == m0[x]
  }

  lemma SameButItself(m: Queues, d: Denom)
    ensures SameBut(m, m, d)
    ensures AsAmounts([], d) == []
  {
  }

  lemma SameButUpdate(m0: Queues, m: Queues, d: Denom, q: seq<AccountInt>)
    requires SameBut(m0, m, d) && d in m
    ensures SameBut(m0, m[d := q], d) && d in m[d := q] && Queue(m[d := q], d) == q
  {
  }

  lemma SameButRemoveEmpty(m0: Queues, m: Queues, d: Denom)
    requires WellFormed(m0) && SameBut(m0, m, d) && Positive(Queue(m, d))
    ensures (if |Queue(m, d)| == 0 then m - {d} else m) == WithQueue(m0, d, Queue(m, d))
    ensures WellFormed(WithQueue(m0, d, Queue(m, d)))
  {
  }

  /** The queue of d after the entry's amount of d, if any, has joined it. */
  ghost function Joined(m: Queues, entry: AccountAmount, d: Denom): seq<AccountInt> {
    Queue(m, d) + if d in entry.amount then [AccountInt(entry.account, entry.amount[d])] else []
  }

  /** The entry's coins have joined their queues, but for those of the denoms still to do. */
  ghost predicate JoinedExcept(m0: Queues, m: Queues, entry: AccountAmount, todo: set<Denom>) {
    && WellFormed(m)
    && forall d :: Queue(m, d) == if d in todo then Queue(m0, d) else Joined(m0, entry, d)
  }

  lemma JoinNext(m0: Queues, m: Queues, entry: AccountAmount, todo: set<Denom>, denom: Denom)
    requires Valid(entry.amount) && todo <= entry.amount.Keys && denom in todo
    requires JoinedExcept(m0, m, entry, todo)
    ensures JoinedExcept(m0, m[denom := Joined(m, entry, denom)], entry, todo - {denom})
  {
    var m' := m[denom := Joined(m, entry, denom)];
    assert Joined(m, entry, denom) == Joined(m0, entry, denom);
    forall d ensures Queue(m', d) == if d in todo - {denom} then Queue(m0, d) else Joined(m0, entry, d) {
      assert d != denom ==> Queue(m', d) == Queue(m, d);
    }
    forall d | d in m' ensures m'[d] != [] && Positive(m'[d]) {
      assert d != denom ==> d in m && m'[d] == m[d];
      assert Positive(Queue(m, denom));
    }
  }

  /** One more coin drawn: the queues left are those of drawing all the coins so far. */
  lemma DrawNextQueues(m0: Queues, m: Queues, done: Coins, denom: Denom, n: int)
    requires Amt(done, denom) == 0
    requires forall d :: Queue(m, d) == RestOf(m0, done, d)
    ensures Queue(m, denom) == Queue(m0, denom)
    ensures var m' := WithQueue(m, denom, Take(Queue(m, denom), n).rest);
      forall d :: Queue(m', d) == RestOf(m0, Add(done, OneCoin(denom, n)), d)
  {
    var m' := WithQueue(m, denom, Take(Queue(m, denom), n).rest);
    assert Queue(m, denom) == RestOf(m0, done, denom);
    forall d ensures Queue(m', d) == RestOf(m0, Add(done, OneCoin(denom, n)), d) {
      assert d != denom ==> Queue(m', d) == Queue(m, d) == RestOf(m0, done, d);
    }
  }

  /** One more coin drawn: the pieces so far are those of drawing all the coins so far. */
  lemma DrawNextPieces(m0: Queues, rv: seq<AccountAmount>, done: Coins, denom: Denom, n: int)
    requires Amt(done, denom) == 0
    requires forall a, d :: Of(rv, a, d) == QOf(PiecesOf(m0, done, d), a)
    ensures var rv' := rv + AsAmounts(Take(Queue(m0, denom), n).pieces, denom);
      forall a, d :: Of(rv', a, d) == QOf(PiecesOf(m0, Add(done, OneCoin(denom, n)), d), a)
  {
    var more := AsAmounts(Take(Queue(m0, denom), n).pieces, denom);
    forall a, d
      ensures Of(rv + more, a, d) == QOf(PiecesOf(m0, Add(done, OneCoin(denom, n)), d), a)
    {
      OfConcat(rv, more, a, d);
      AsAmountsOf(Take(Queue(m0, denom), n).pieces, denom, a, d);
      if d == denom {
        assert PiecesOf(m0, done, denom) == [];
      }
    }
  }

  /** The coins of all denoms but those in todo. */
  ghost function Except(coins: Coins, todo: set<Denom>): Coins {
    map d | d in coins && d !in todo :: coins[d]
  }

  lemma ExceptNext(coins: Coins, todo: set<Denom>, denom: Denom)
    requires denom in todo && todo <= coins.Keys
    ensures Amt(Except(coins, todo), denom) == 0
    ensures Add(Except(coins, todo), OneCoin(denom, coins[denom])) == Except(coins, todo - {denom})
  {
    SameAmounts(Add(Except(coins, todo), OneCoin(denom, coins[denom])), Except(coins, todo - {denom}));
  }

  /** The coins done so far have been drawn from m0, leaving m and giving the pieces rv. */
  ghost predicate Drawn(m0: Queues, done: Coins, m: Queues, rv: seq<AccountAmount>) {
    && WellFormed(m)
    && AllValid(rv) && NoneEmpty(rv)
    && Covers(m0, done)
    && (forall d :: Queue(m, d) == RestOf(m0, done, d))
    && (forall a, d :: Of(rv, a, d) == QOf(PiecesOf(m0, done, d), a))
  }

  /** What a draw means for one denom. */
  lemma DrawnAt(m0: Queues, done: Coins, m: Queues, rv: seq<AccountAmount>, d: Denom)
    requires Drawn(m0, done, m, rv)
    ensures Amt(done, d) <= QTotal(Queue(m0, d))
    ensures Queue(m, d) == Take(Queue(m0, d), Amt(done, d)).rest
    ensures forall a :: Of(rv, a, d) == QOf(Take(Queue(m0, d), Amt(done, d)).pieces, a)
  {
    assert forall a :: Of(rv, a, d) == QOf(PiecesOf(m0, done, d), a);
  }

  lemma DrawNext(m0: Queues, done: Coins, m: Queues, rv: seq<AccountAmount>, denom: Denom, n: int)
    requires Drawn(m0, done, m, rv) && Amt(done, denom) == 0
    requires 0 < n <= QTotal(Queue(m0, denom))
    ensures Queue(m, denom) == Queue(m0, denom)
    ensures var t := Take(Queue(m0, denom), n);
      var m', rv' := WithQueue(m, denom, t.rest), rv + AsAmounts(t.pieces, denom);
      && Drawn(m0, Add(done, OneCoin(denom, n)), m', rv')
      && |rv'| + Count(m') <= |rv| + Count(m) + 1
  {
    var t := Take(Queue(m0, denom), n);
    DrawNextQueues(m0, m, done, denom, n);
    DrawNextPieces(m0, rv, done, denom, n);
    CountWithQueue(m, denom, t.rest);
    TakeCount(Queue(m0, denom), n);
    TakeTotals(Queue(m, denom), n);
    AsAmountsValid(t.pieces, denom);
  }

  lemma SimplifyDrawn(m0: Queues, done: Coins, m: Queues, rv: seq<AccountAmount>)
    requires Drawn(m0, done, m, rv)
    ensures Drawn(m0, done, m, Simplified(rv))
    ensures Distinct(Accounts(Simplified(rv))) && |Simplified(rv)| <= |rv|
  {
    forall a, d ensures Of(Simplified(rv), a, d) == Of(rv, a, d) {
      SimplifiedOf(rv, a, d);
    }
    SimplifiedAccounts(rv);
    SimplifiedValid(rv);
    SimplifiedNoneEmpty(rv);
  }

  /** The pieces drawn for the coins total exactly the coins. */
  lemma DrawnTotal(m0: Queues, coins: Coins, m: Queues, rv: seq<AccountAmount>, d: Denom)
    requires WellFormed(m0) && Valid(coins) && Drawn(m0, coins, m, rv)
    ensures Total(rv, d) == Amt(coins, d)
  {
    var pieces := PiecesOf(m0, coins, d);
    forall a ensures Of(rv, a, d) == Of(AsAmounts(pieces, d), a, d) {
      AsAmountsOf(pieces, d, a, d);
    }
    SameOfSameTotal(rv, AsAmounts(pieces, d), d);
    AsAmountsTotal(pieces, d);
    TakeTotals(Queue(m0, d), Amt(coins, d));
  }

  class DenomSourceMap {
    var m: Queues

    /** `newDenomSourceMap`: each denom's queue lists, in order, the entries that have some of it. */
    constructor (entries: seq<AccountAmount>)
      requires AllValid(entries)
      ensures WellFormed(m)
      ensures forall d :: Queue(m, d) == QueueOf(entries, d)
      ensures Count(m) == CoinCount(entries)
    {
      m := map[];
      new;
      for i := 0 to |entries|
        invariant WellFormed(m)
        invariant forall d :: Queue(m, d) == QueueOf(entries[..i], d)
        invariant Count(m) == CoinCount(entries[..i])
      {
        assert entries[..i+1][..i] == entries[..i];
        Join(entries[i]);
      }
      assert entries[..|entries|] == entries;
    }

    /** The inner loop of `newDenomSourceMap`: each coin of the entry joins the queue of its denom. */
    method Join(entry: AccountAmount)
      requires WellFormed(m) && Valid(entry.amount)
      modifies this
      ensures WellFormed(m)
      ensures forall d :: Queue(m, d) == Joined(old(m), entry, d)
      ensures Count(m) == old(Count(m)) + |entry.amount|
    {
      var todo := entry.amount.Keys;
      while todo != {}
        invariant todo <= entry.amount.Keys
        invariant JoinedExcept(old(m), m, entry, todo)
        invariant Count(m) + |todo| == old(Count(m)) + |entry.amount|
      {
        var denom :| denom in todo;
        JoinNext(old(m), m, entry, todo, denom);
        CountWithQueue(m, denom, Joined(m, entry, denom));
        m := m[denom := Queue(m, denom) + [AccountInt(entry.account, entry.amount[denom])]];
        todo := todo - {denom};
      }
    }

    /** `sum`: the total still in the map, denom by denom. */
    method Sum() returns (rv: Coins)
      ensures forall d :: Amt(rv, d) == QTotal(Queue(m, d))
    {
      rv := NoCoins;
      var todo := m.Keys;
      while todo != {}
        invariant todo <= m.Keys
        invariant forall d :: Amt(rv, d) == if d in todo then 0 else QTotal(Queue(m, d))
      {
        var denom :| denom in todo;
        var entries := m[denom];
        ghost var before := rv;
        for i := 0 to |entries|
          invariant forall d :: Amt(rv, d) == Amt(before, d) + if d == denom then QTotal(entries[..i]) else 0
        {
          QTotalConcat(entries[..i], [entries[i]]);
          assert entries[..i+1] == entries[..i] + [entries[i]];
          assert QTotal([entries[i]]) == entries[i].amt + QTotal([entries[i]][1..]);
          rv := Add(rv, OneCoin(denom, entries[i].amt));
        }
        assert entries[..|entries|] == entries;
        todo := todo - {denom};
      }
    }

    /** `useCoin`: draws n of denom d. Fails exactly when n is negative or the queue has less than n. */
    method UseCoin(d: Denom, n: int) returns (r: Option<seq<AccountAmount>>)
      requires WellFormed(m)
      modifies this
      ensures WellFormed(m)
      ensures m == WithQueue(old(m), d, Take(old(Queue(m, d)), n).rest)
      ensures r.Some? <==> 0 <= n <= QTotal(old(Queue(m, d)))
      ensures r.Some? ==> r.value == AsAmounts(Take(old(Queue(m, d)), n).pieces, d)
    {
      hide QTotal, QOf, AsAmounts, WithQueue, SameBut;
      SameButItself(m, d);
      ghost var all := Take(Queue(m, d), n);
      TakeTotals(Queue(m, d), n);
      var rv: seq<AccountAmount> := [];
      ghost var drawn: seq<AccountInt> := [];
      var amtLeft := n;
      while amtLeft > 0 && |Queue(m, d)| > 0
        invariant SameBut(old(m), m, d)
        invariant rv == AsAmounts(drawn, d)
        invariant all == After(drawn, Take(Queue(m, d), amtLeft))
        decreases |Queue(m, d)| + if amtLeft > 0 then 1 else 0
      {
        var first := m[d][0];
        if first.amt <= amtLeft {
          TakeWholeEntry(drawn, m[d], amtLeft);
          AsAmountsSnoc(drawn, first, d);
          SameButUpdate(old(m), m, d, m[d][1..]);
          rv := rv + [AccountAmount(first.account, OneCoin(d, first.amt))];
          drawn := drawn + [first];
          amtLeft := amtLeft - first.amt;
          m := m[d := m[d][1..]];
        } else {
          var smaller := first.(amt := first.amt - amtLeft);
          TakePartOfEntry(drawn, m[d], amtLeft);
          AsAmountsSnoc(drawn, first.(amt := amtLeft), d);
          SameButUpdate(old(m), m, d, [smaller] + m[d][1..]);
          rv := rv + [AccountAmount(first.account, OneCoin(d, amtLeft))];
          drawn := drawn + [first.(amt := amtLeft)];
          m := m[d := [smaller] + m[d][1..]];
          amtLeft := 0;
        }
      }
      assert all == Taken(drawn, Queue(m, d), amtLeft);
      SameButRemoveEmpty(old(m), m, d);
      if |Queue(m, d)| == 0 {
        m := m - {d};
      }
      if amtLeft != 0 {
        return None;
      }
      return Some(rv);
    }

    /** `useCoins`: draws every coin, then combines the pieces of each account. */
    method UseCoins(coins: Coins) returns (r: Option<seq<AccountAmount>>)
      requires WellFormed(m) && Valid(coins)
      modifies this
      ensures WellFormed(m)
      ensures r.Some? <==> old(Covers(m, coins))
      ensures r.Some? ==> Drawn(old(m), coins, m, r.value)
      ensures r.Some? ==> Distinct(Accounts(r.value))
      ensures r.Some? ==> forall d :: Total(r.value, d) == Amt(coins, d)
      ensures r.Some? ==> |r.value| + Count(m) <= old(Count(m)) + |coins|
    {
      CoversNothing(m);
      var rv: seq<AccountAmount> := [];
      var todo := coins.Keys;
      assert Except(coins, todo) == NoCoins;
      while todo != {}
        invariant todo <= coins.Keys
        invariant Drawn(old(m), Except(coins, todo), m, rv)
        invariant |rv| + Count(m) + |todo| <= old(Count(m)) + |coins|
      {
        var denom :| denom in todo;
        ExceptNext(coins, todo, denom);
        DrawNextQueues(old(m), m, Except(coins, todo), denom, coins[denom]);
        if coins[denom] <= QTotal(Queue(old(m), denom)) {
          DrawNext(old(m), Except(coins, todo), m, rv, denom, coins[denom]);
        }
        var splits := UseCoin(denom, coins[denom]);
        if splits.None? {
          assert Amt(coins, denom) > QTotal(Queue(old(m), denom));
          return None;
        }
        rv := rv + splits.value;
        todo := todo - {denom};
      }
      assert Except(coins, todo) == coins;
      SimplifyDrawn(old(m), coins, m, rv);
      forall d ensures Total(Simplified(rv), d) == Amt(coins, d) {
        DrawnTotal(old(m), coins, m, Simplified(rv), d);
      }
      rv := SimplifyAccountAmounts(rv);
      r := Some(rv);
    }
  }
}
