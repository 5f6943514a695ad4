/** The table of predetermined unlocked amounts: a fixed amount for one list of addresses, and amounts given in
    hash for another (the end of `getMainnetPredeterminedUnlocked`). */
module UnlockedTable {
  import opened SdkCoins
  import opened HashStrings

  const INT_100K := 100_000_000_000_000

  datatype Entry = Entry(addr: Account, hash: string)

  /** Parsing an integer is left to a parameter: None if the string is not one. */
  type Parser = string -> Option<int>

  /** The amount of an entry in nhash, if it converts and parses. */
  function AmountOf(parse: Parser, e: Entry): Option<int> {
    var nhash := HashToNhash(e.hash);
    if nhash.Converted? then parse(nhash.nhash) else None
  }

  ghost predicate Good(parse: Parser, e: Entry) {
    AmountOf(parse, e).Some? && AmountOf(parse, e).value > 0
  }

  /** No address comes up twice, in either list or in both. */
  ghost predicate NoRepeats(addrs: seq<Account>, custom: seq<Entry>) {
    && (forall i, j :: 0 <= i < j < |addrs| ==> addrs[i] != addrs[j])
    && (forall i, j :: 0 <= i < j < |custom| ==> custom[i].addr != custom[j].addr)
    && (forall i :: 0 <= i < |custom| ==> custom[i].addr !in addrs)
  }

  /** The table is exactly the two lists. */
  ghost predicate Tabulates(table: map<Account, int>, addrs: seq<Account>, custom: seq<Entry>, parse: Parser) {
    && (forall a :: a in table <==> a in addrs || exists i :: 0 <= i < |custom| && custom[i].addr == a)
    && (forall a :: a in addrs ==> a in table && table[a] == INT_100K)
    && (forall i :: 0 <= i < |custom| ==> Some(table[custom[i].addr]) == AmountOf(parse, custom[i]))
  }

  /** Builds the table, or panics (None): it succeeds exactly if no address repeats and every custom amount is a
      positive number, and then holds exactly the listed amounts. */
  method GetPredeterminedUnlocked(addrs: seq<Account>, custom: seq<Entry>, parse: Parser)
    returns (r: Option<map<Account, int>>)
    ensures r.Some? <==> NoRepeats(addrs, custom) && forall i :: 0 <= i < |custom| ==> Good(parse, custom[i])
    ensures r.Some? ==> Tabulates(r.value, addrs, custom, parse)
    ensures r.Some? ==> forall a :: a in addrs ==> a in r.value && r.value[a] == 100_000 * 1_000_000_000
    ensures r.Some? ==> forall a :: a in r.value ==> r.value[a] > 0
  {
    var rv: map<Account, int> := map[];
    var errs := 0;
    for i := 0 to |addrs|
      invariant errs >= 0
      invariant forall a :: a in rv <==> a in addrs[..i]
      invariant forall a :: a in rv ==> rv[a] == INT_100K
      invariant errs == 0 <==> forall j, k :: 0 <= j < k < i ==> addrs[j] != addrs[k]
    {
      if addrs[i] in rv {
        assert exists j :: 0 <= j < i && addrs[j] == addrs[i];
        errs := errs + 1;
      }
      assert addrs[..i+1] == addrs[..i] + [addrs[i]];
      rv := rv[addrs[i] := INT_100K];
    }
    assert addrs[..|addrs|] == addrs;
    r := AddCustom(addrs, custom, parse, rv, errs);
    assert custom[..|custom|] == custom;
    if r.Some? {
      TabulatesPositive(r.value, addrs, custom, parse);
    }
  }

  /** Everything is in order with the first i custom entries. */
  ghost predicate CustomSoFar(addrs: seq<Account>, custom: seq<Entry>, parse: Parser, i: nat)
    requires i <= |custom|
  {
    && NoRepeats(addrs, custom[..i])
    && forall j :: 0 <= j < i ==> Good(parse, custom[j])
  }

  /** The keys of the table are the addresses so far. */
  ghost predicate Keys(table: map<Account, int>, addrs: seq<Account>, custom: seq<Entry>, i: nat)
    requires i <= |custom|
  {
    forall a :: a in table <==> a in addrs || exists j :: 0 <= j < i && custom[j].addr == a
  }

  lemma KeysNext(table: map<Account, int>, addrs: seq<Account>, custom: seq<Entry>, i: nat, n: int)
    requires i < |custom| && Keys(table, addrs, custom, i)
    ensures Keys(table[custom[i].addr := n], addrs, custom, i + 1)
  {
  }

  lemma NoRepeatsNext(addrs: seq<Account>, before: seq<Entry>, e: Entry)
    ensures NoRepeats(addrs, before + [e]) <==>
            NoRepeats(addrs, before) && e.addr !in addrs && forall j :: 0 <= j < |before| ==> before[j].addr != e.addr
  {
    var after := before + [e];
    assert forall j :: 0 <= j < |before| ==> after[j] == before[j];
    assert after[|before|] == e;
  }

  lemma SoFarNext(table: map<Account, int>, addrs: seq<Account>, custom: seq<Entry>, parse: Parser, i: nat)
    requires i < |custom| && Keys(table, addrs, custom, i)
    ensures CustomSoFar(addrs, custom, parse, i + 1) <==>
            CustomSoFar(addrs, custom, parse, i) && custom[i].addr !in table && Good(parse, custom[i])
  {
    hide NoRepeats, Good;
    assert custom[..i+1] == custom[..i] + [custom[i]];
    NoRepeatsNext(addrs, custom[..i], custom[i]);
  }

  lemma TabulatesNext(table: map<Account, int>, addrs: seq<Account>, custom: seq<Entry>, parse: Parser, i: nat, n: int)
    requires i < |custom| && Tabulates(table, addrs, custom[..i], parse)
    requires custom[i].addr !in table && AmountOf(parse, custom[i]) == Some(n)
    ensures Tabulates(table[custom[i].addr := n], addrs, custom[..i+1], parse)
  {
    var before, after := custom[..i], custom[..i+1];
    var table' := table[custom[i].addr := n];
    assert after == before + [custom[i]];
    forall j | 0 <= j < |after| ensures Some(table'[after[j].addr]) == AmountOf(parse, after[j]) {
      if j < i {
        assert after[j] == before[j] && before[j].addr in table;
      }
    }
    forall a ensures a in table' <==> a in addrs || exists j :: 0 <= j < |after| && after[j].addr == a {
      if a == custom[i].addr {
        assert after[i].addr == a;
      } else if exists j :: 0 <= j < |after| && after[j].addr == a {
        var j :| 0 <= j < |after| && after[j].addr == a;
        assert before[j].addr == a;
      } else if exists j :: 0 <= j < |before| && before[j].addr == a {
        var j :| 0 <= j < |before| && before[j].addr == a;
        assert after[j].addr == a;
      }
    }
  }

  /** An entry that does not convert spoils the table. */
  lemma SpoiltBy(addrs: seq<Account>, custom: seq<Entry>, parse: Parser, i: nat)
    requires i < |custom| && HashToNhash(custom[i].hash).TooManyDigits?
    ensures !CustomSoFar(addrs, custom, parse, |custom|)
  {
    assert !Good(parse, custom[i]);
  }

  lemma TabulatesPositive(table: map<Account, int>, addrs: seq<Account>, custom: seq<Entry>, parse: Parser)
    requires Tabulates(table, addrs, custom, parse) && forall i :: 0 <= i < |custom| ==> Good(parse, custom[i])
    ensures forall a :: a in table ==> table[a] > 0
  {
    forall a | a in table ensures table[a] > 0 {
      if a !in addrs {
        var i :| 0 <= i < |custom| && custom[i].addr == a;
        assert Good(parse, custom[i]);
      }
    }
  }

  /** The second loop. */
  method AddCustom(addrs: seq<Account>, custom: seq<Entry>, parse: Parser, table: map<Account, int>, errors: nat)
    returns (r: Option<map<Account, int>>)
    requires Tabulates(table, addrs, [], parse)
    requires errors == 0 <==> NoRepeats(addrs, [])
    ensures r.Some? <==> CustomSoFar(addrs, custom, parse, |custom|)
    ensures r.Some? ==> Tabulates(r.value, addrs, custom, parse)
  {
    var rv, errs := table, errors;
    for i := 0 to |custom|
      invariant errs >= 0
      invariant Keys(rv, addrs, custom, i)
      invariant errs == 0 <==> CustomSoFar(addrs, custom, parse, i)
      invariant errs == 0 ==> Tabulates(rv, addrs, custom[..i], parse)
    {
      hide Keys, CustomSoFar, Tabulates, HashToNhash;
      var entry := custom[i];
      SoFarNext(rv, addrs, custom, parse, i);
      var known := entry.addr in rv;
      var nhash := HashToNhash(entry.hash);
      if nhash.TooManyDigits? {
        SpoiltBy(addrs, custom, parse, i);
        return None;
      }
      var amount := parse(nhash.nhash);
      var value := if amount.Some? then amount.value else 0;
      KeysNext(rv, addrs, custom, i, value);
      if errs == 0 && !known && value > 0 {
        TabulatesNext(rv, addrs, custom, parse, i, value);
      }
      rv := rv[entry.addr := value];
      if known {
        errs := errs + 1;
      }
      if amount.None? || amount.value <= 0 {
        errs := errs + 1;
      }
    }
    assert custom[..|custom|] == custom;
    r := if errs > 0 then None else Some(rv);
  }
}
