/** First-in-first-out queues of (account, amount) and the reference semantics of drawing from one.

    A queue is pictured as a line of units: an entry of n of account a is n units of a. Drawing n from
    the queue takes the first n units of the line and leaves the others. */
module DenomQueues {
  import opened SdkCoins
  import opened AccountAmounts

  datatype AccountInt = AccountInt(account: Account, amt: int)

  ghost predicate Positive(q: seq<AccountInt>) {
    forall i :: 0 <= i < |q| ==> q[i].amt > 0
  }

  /** The amount in the queue. */
  ghost function QTotal(q: seq<AccountInt>): int {
    if q == [] then 0 else q[0].amt + QTotal(q[1..])
  }

  /** The amount in the queue that belongs to account a. */
  ghost function QOf(q: seq<AccountInt>, a: Account): int {
    if q == [] then 0 else (if q[0].account == a then q[0].amt else 0) + QOf(q[1..], a)
  }

  /** The line of units the queue stands for. */
  ghost function Units(q: seq<AccountInt>): seq<Account>
    requires Positive(q)
  {
    if q == [] then [] else seq(q[0].amt, _ => q[0].account) + Units(q[1..])
  }

  datatype Taken = Taken(pieces: seq<AccountInt>, rest: seq<AccountInt>, short: int)

  /** Drawing n from the queue entry by entry: the pieces drawn, what remains, what could not be drawn. */
  ghost function Take(q: seq<AccountInt>, n: int): Taken {
    if n <= 0 || q == [] then Taken([], q, n)
    else if q[0].amt <= n then
      var t := Take(q[1..], n - q[0].amt);
      Taken([q[0]] + t.pieces, t.rest, t.short)
    else
      Taken([q[0].(amt := n)], [q[0].(amt := q[0].amt - n)] + q[1..], 0)
  }

  /** Pieces already drawn, put in front of a draw that continues them. */
  ghost function After(drawn: seq<AccountInt>, t: Taken): Taken {
    Taken(drawn + t.pieces, t.rest, t.short)
  }

  /** Draining the first entry is one step of a draw. */
  lemma TakeWholeEntry(drawn: seq<AccountInt>, q: seq<AccountInt>, n: int)
    requires n > 0 && q != [] && q[0].amt <= n
    ensures After(drawn, Take(q, n)) == After(drawn + [q[0]], Take(q[1..], n - q[0].amt))
  {
    var t := Take(q[1..], n - q[0].amt);
    assert drawn + ([q[0]] + t.pieces) == drawn + [q[0]] + t.pieces;
  }

  /** Splitting the first entry ends a draw. */
  lemma TakePartOfEntry(drawn: seq<AccountInt>, q: seq<AccountInt>, n: int)
    requires n > 0 && q != [] && n < q[0].amt
    ensures After(drawn, Take(q, n)) ==
            After(drawn + [q[0].(amt := n)], Take([q[0].(amt := q[0].amt - n)] + q[1..], 0))
  {
    assert drawn + [q[0].(amt := n)] == drawn + [q[0].(amt := n)] + [];
  }

  lemma {:induction false} TotalPositive(q: seq<AccountInt>)
    requires Positive(q)
    ensures 0 <= QTotal(q)
    ensures QTotal(q) == 0 <==> q == []
    ensures |Units(q)| == QTotal(q)
  {
    if q != [] {
      TotalPositive(q[1..]);
    }
  }

  lemma {:induction false} QOfConcat(x: seq<AccountInt>, y: seq<AccountInt>, a: Account)
    ensures QOf(x + y, a) == QOf(x, a) + QOf(y, a)
  {
    if x == [] {
      assert x + y == y;
    } else {
      QOfConcat(x[1..], y, a);
      assert (x + y)[1..] == x[1..] + y;
    }
  }

  lemma {:induction false} QTotalConcat(x: seq<AccountInt>, y: seq<AccountInt>)
    ensures QTotal(x + y) == QTotal(x) + QTotal(y)
  {
    if x == [] {
      assert x + y == y;
    } else {
      QTotalConcat(x[1..], y);
      assert (x + y)[1..] == x[1..] + y;
    }
  }

  /** What belongs to an account is the number of its units in the line. */
  lemma {:induction false} UnitsOf(q: seq<AccountInt>, a: Account)
    requires Positive(q)
    ensures multiset(Units(q))[a] == QOf(q, a)
  {
    if q != [] {
      UnitsOf(q[1..], a);
      RepeatCount(q[0].amt, q[0].account, a);
    }
  }

  lemma {:induction false} RepeatCount(n: nat, x: Account, a: Account)
    ensures multiset(seq(n, _ => x))[a] == if a == x then n else 0
  {
    if n > 0 {
      RepeatCount(n - 1, x, a);
      assert seq(n, _ => x) == seq(n - 1, _ => x) + [x];
    }
  }

  /** A draw reassigns nothing: what it takes of an account and what it leaves are what the account had. */
  lemma {:induction false} TakeConserves(q: seq<AccountInt>, n: int, a: Account)
    ensures QOf(Take(q, n).pieces, a) + QOf(Take(q, n).rest, a) == QOf(q, a)
  {
    if n > 0 && q != [] {
      if q[0].amt <= n {
        TakeConserves(q[1..], n - q[0].amt, a);
        var t := Take(q[1..], n - q[0].amt);
        assert ([q[0]] + t.pieces)[1..] == t.pieces;
      } else {
        var rest := [q[0].(amt := q[0].amt - n)] + q[1..];
        assert rest[1..] == q[1..];
        var piece := [q[0].(amt := n)];
        assert piece[1..] == [];
      }
    }
  }

  /** A draw invents and loses nothing, and falls short exactly by what is missing. */
  lemma {:induction false} TakeTotals(q: seq<AccountInt>, n: int)
    requires Positive(q)
    ensures var t := Take(q, n);
      && Positive(t.pieces) && Positive(t.rest)
      && QTotal(t.pieces) + QTotal(t.rest) == QTotal(q)
      && t.short == n - QTotal(t.pieces)
      && (t.short == 0 <==> 0 <= n <= QTotal(q))
  {
    TotalPositive(q);
    if n > 0 && q != [] {
      if q[0].amt <= n {
        TakeTotals(q[1..], n - q[0].amt);
        var t := Take(q[1..], n - q[0].amt);
        assert ([q[0]] + t.pieces)[1..] == t.pieces;
      } else {
        var rest := [q[0].(amt := q[0].amt - n)] + q[1..];
        assert rest[1..] == q[1..];
        var piece := [q[0].(amt := n)];
        assert piece[1..] == [];
      }
    }
  }

  lemma UnitsCons(x: AccountInt, q: seq<AccountInt>)
    requires x.amt > 0 && Positive(q)
    ensures Positive([x] + q) && Units([x] + q) == seq(x.amt, _ => x.account) + Units(q)
  {
    assert ([x] + q)[1..] == q;
  }

  /** An entry that joins the queue stands behind all the others. */
  lemma {:induction false} UnitsSnoc(q: seq<AccountInt>, x: AccountInt)
    requires Positive(q) && x.amt > 0
    ensures Positive(q + [x]) && Units(q + [x]) == Units(q) + seq(x.amt, _ => x.account)
  {
    if q == [] {
      UnitsCons(x, []);
      assert q + [x] == [x] + [];
    } else {
      UnitsSnoc(q[1..], x);
      UnitsCons(q[0], q[1..] + [x]);
      assert q + [x] == [q[0]] + (q[1..] + [x]);
    }
  }

  /** Splitting an entry in two splits its stretch of the line in two. */
  lemma UnitsSplit(x: AccountInt, n: int, q: seq<AccountInt>)
    requires 0 < n < x.amt && Positive(q)
    ensures Positive([x.(amt := n)]) && Units([x.(amt := n)]) == seq(x.amt, _ => x.account)[..n]
    ensures Positive([x.(amt := x.amt - n)] + q)
    ensures Units([x.(amt := x.amt - n)] + q) == seq(x.amt, _ => x.account)[n..] + Units(q)
  {
    UnitsCons(x.(amt := n), []);
    assert [x.(amt := n)] + [] == [x.(amt := n)];
    UnitsCons(x.(amt := x.amt - n), q);
  }

  /** The pieces are the first n units of the line and the rest are all the units behind them. */
  lemma {:induction false} TakeIsPrefix(q: seq<AccountInt>, n: int)
    requires Positive(q) && 0 <= n <= QTotal(q)
    ensures |Units(q)| == QTotal(q)
    ensures Positive(Take(q, n).pieces) && Positive(Take(q, n).rest)
    ensures Units(Take(q, n).pieces) == Units(q)[..n]
    ensures Units(Take(q, n).rest) == Units(q)[n..]
  {
    TotalPositive(q);
    if n > 0 {
      var u := seq(q[0].amt, _ => q[0].account);
      assert Units(q) == u + Units(q[1..]);
      if q[0].amt <= n {
        TakeIsPrefix(q[1..], n - q[0].amt);
        UnitsCons(q[0], Take(q[1..], n - q[0].amt).pieces);
        PrefixOfConcat(u, Units(q[1..]), n);
      } else {
        UnitsSplit(q[0], n, q[1..]);
        PrefixOfFirst(u, Units(q[1..]), n);
      }
    }
  }

  lemma PrefixOfConcat<T>(u: seq<T>, v: seq<T>, n: nat)
    requires |u| <= n <= |u| + |v|
    ensures (u + v)[..n] == u + v[..n - |u|]
    ensures (u + v)[n..] == v[n - |u|..]
  {
  }

  lemma PrefixOfFirst<T>(u: seq<T>, v: seq<T>, n: nat)
    requires n <= |u|
    ensures (u + v)[..n] == u[..n]
    ensures (u + v)[n..] == u[n..] + v
  {
  }

  /** A draw makes at most one more piece than the number of entries it drains. */
  lemma {:induction false} TakeCount(q: seq<AccountInt>, n: int)
    ensures var t := Take(q, n);
      |t.pieces| + |t.rest| <= |q| + if n > 0 then 1 else 0
  {
    if n > 0 && q != [] && q[0].amt <= n {
      TakeCount(q[1..], n - q[0].amt);
    }
  }

  /** The pieces as account amounts of one denom. */
  ghost function AsAmounts(q: seq<AccountInt>, d: Denom): (r: seq<AccountAmount>)
    ensures |r| == |q|
  {
    if q == [] then [] else [AccountAmount(q[0].account, OneCoin(d, q[0].amt))] + AsAmounts(q[1..], d)
  }

  lemma {:induction false} AsAmountsOf(q: seq<AccountInt>, d: Denom, a: Account, x: Denom)
    ensures Of(AsAmounts(q, d), a, x) == if x == d then QOf(q, a) else 0
  {
    if q != [] {
      AsAmountsOf(q[1..], d, a, x);
      var head := [AccountAmount(q[0].account, OneCoin(d, q[0].amt))];
      OfConcat(head, AsAmounts(q[1..], d), a, x);
      assert Of(head, a, x) == Of(head[..0], a, x) + if head[0].account == a then Amt(head[0].amount, x) else 0;
    }
  }

  lemma {:induction false} AsAmountsTotal(q: seq<AccountInt>, d: Denom)
    ensures Total(AsAmounts(q, d), d) == QTotal(q)
  {
    if q != [] {
      AsAmountsTotal(q[1..], d);
      var head := [AccountAmount(q[0].account, OneCoin(d, q[0].amt))];
      TotalConcat(head, AsAmounts(q[1..], d), d);
      assert Total(head, d) == Total(head[..0], d) + Amt(head[0].amount, d);
    }
  }

  lemma {:induction false} AsAmountsValid(q: seq<AccountInt>, d: Denom)
    requires Positive(q)
    ensures AllValid(AsAmounts(q, d)) && NoneEmpty(AsAmounts(q, d))
  {
    if q != [] {
      AsAmountsValid(q[1..], d);
    }
  }

  lemma {:induction false} AsAmountsSnoc(q: seq<AccountInt>, x: AccountInt, d: Denom)
    ensures AsAmounts(q + [x], d) == AsAmounts(q, d) + [AccountAmount(x.account, OneCoin(d, x.amt))]
  {
    if q == [] {
      assert q + [x] == [x] && [x][1..] == [];
    } else {
      AsAmountsSnoc(q[1..], x, d);
      assert (q + [x])[1..] == q[1..] + [x];
    }
  }
}
