/** Finding the accounts to convert, converting them one by one, and the totals kept meanwhile
    (`getAcctsToConvertToVesting`, `acctConverter`). */
module VestingConversion {
  import opened SdkCoins
  import opened Vesting

  // ---------- which accounts are considered ----------

  /** What is looked up about an account. The lookup of the delegated amount gives an amount even if it fails. */
  datatype Candidate = Candidate(addr: Account, balance: nat, delegated: nat, lookupFailed: bool,
                                 isBase: bool, isIbc: bool, isContract: bool)

  /** The amounts of a candidate: all but a forty-eighth vests. */
  ghost function CandidateAmounts(c: Candidate): Amounts {
    var a := Amounts(c.balance, c.delegated, 0, 0, 0, 0, 0);
    if c.lookupFailed then a
    else
      var total := c.balance + c.delegated;
      WithToVest(a.(total := total), VestingPart(total))
  }

  /** Only base accounts with something to vest that are no part of IBC and no contract are converted. */
  ghost predicate Convertible(c: Candidate) {
    !c.lookupFailed && c.isBase && CandidateAmounts(c).toVest > 0 && !c.isIbc && !c.isContract
  }

  /** Said without the split: with at least two nhash in all there is something to vest. */
  lemma ConvertibleMeans(c: Candidate)
    ensures Convertible(c) <==>
            !c.lookupFailed && c.isBase && c.balance + c.delegated >= 2 && !c.isIbc && !c.isContract
  {
  }

  ghost function Convertibles(cs: seq<Candidate>): (r: seq<bool>)
    ensures |r| == |cs| && forall i :: 0 <= i < |r| ==> r[i] == Convertible(cs[i])
  {
    seq(|cs|, i requires 0 <= i < |cs| => Convertible(cs[i]))
  }

  /** The accounts stand for the candidates, one for one. */
  ghost predicate StandFor(accts: seq<AcctInfo>, cs: seq<Candidate>)
    reads accts
  {
    |accts| == |cs| && forall i :: 0 <= i < |cs| ==> accts[i].addr == cs[i].addr && accts[i].amounts == CandidateAmounts(cs[i])
  }

  /** The amounts of an account whose delegations are known add up, and it keeps the ceiling of a forty-eighth. */
  lemma CandidateAddsUp(c: Candidate)
    requires !c.lookupFailed
    ensures AddsUp(CandidateAmounts(c))
    ensures var a := CandidateAmounts(c); 48 * (a.toKeep - 1) < a.total <= 48 * a.toKeep || a.total == a.toKeep == 0
  {
    var total := c.balance + c.delegated;
    KeptIsCeiling(total);
    SplitAddsUp(Amounts(c.balance, c.delegated, total, 0, 0, 0, 0), VestingPart(total));
  }

  /** No account info is listed twice, in one list or in both. */
  ghost predicate Separate(xs: seq<AcctInfo>, ys: seq<AcctInfo>) {
    var all := multiset(xs) + multiset(ys);
    forall a :: a in all ==> all[a] == 1
  }

  lemma NoneListed()
    ensures Separate([], [])
  {
  }

  lemma SeparateNext(xs: seq<AcctInfo>, ys: seq<AcctInfo>, a: AcctInfo)
    requires Separate(xs, ys) && a !in xs && a !in ys
    ensures Separate(xs + [a], ys) && Separate(xs, ys + [a])
  {
    var all := multiset(xs) + multiset(ys);
    assert a !in multiset(xs) && a !in multiset(ys);
    assert multiset(xs + [a]) + multiset(ys) == all + multiset{a};
    assert multiset(xs) + multiset(ys + [a]) == all + multiset{a};
  }

  /** The walk of `getAcctsToConvertToVesting`: every account goes to one of the two lists, in order. */
  method GetAcctsToConvert(cs: seq<Candidate>) returns (toConvert: seq<AcctInfo>, toIgnore: seq<AcctInfo>)
    ensures StandFor(toConvert, Picked(cs, Convertibles(cs), true))
    ensures StandFor(toIgnore, Picked(cs, Convertibles(cs), false))
    ensures forall a :: a in toConvert || a in toIgnore ==> fresh(a)
    ensures Separate(toConvert, toIgnore)
  {
    hide Picked, CandidateAmounts, Separate, Convertible;
    toConvert, toIgnore := [], [];
    NoneListed();
    ghost var yes := Convertibles(cs);
    PickedNothing(cs, yes);
    for i := 0 to |cs|
      invariant StandFor(toConvert, Picked(cs[..i], yes[..i], true))
      invariant StandFor(toIgnore, Picked(cs[..i], yes[..i], false))
      invariant forall a :: a in toConvert || a in toIgnore ==> fresh(a)
      invariant Separate(toConvert, toIgnore)
    {
      PickedNext(cs, yes, i, true);
      PickedNext(cs, yes, i, false);
      var acct, convertible := Consider(cs[i]);
      SeparateNext(toConvert, toIgnore, acct);
      if convertible {
        toConvert := toConvert + [acct];
      } else {
        toIgnore := toIgnore + [acct];
      }
    }
    assert cs[..|cs|] == cs && yes[..|yes|] == yes;
  }

  /** The body of the walk. */
  method Consider(c: Candidate) returns (acct: AcctInfo, convertible: bool)
    ensures fresh(acct) && acct.addr == c.addr && acct.amounts == CandidateAmounts(c)
    ensures convertible <==> Convertible(c)
  {
    acct := new AcctInfo(c.addr);
    acct.amounts := acct.amounts.(balance := c.balance);
    acct.amounts := acct.amounts.(delegated := c.delegated);
    if c.lookupFailed {
      return acct, false;
    }
    acct.amounts := acct.amounts.(total := acct.amounts.balance + acct.amounts.delegated);
    acct.UpdateWithToVest(VestingPart(acct.amounts.total));
    return acct, c.isBase && acct.amounts.toVest > 0 && !c.isIbc && !c.isContract;
  }

  // ---------- the books ----------

  datatype Totals = Totals(balances: int, vesting: int, delegated: int, delVest: int, delFree: int)

  const ZERO := Totals(0, 0, 0, 0, 0)

  function Plus(t: Totals, u: Totals): Totals {
    Totals(t.balances + u.balances, t.vesting + u.vesting, t.delegated + u.delegated,
           t.delVest + u.delVest, t.delFree + u.delFree)
  }

  /** What a converted account adds to the totals. */
  function ConvertedTotals(a: Amounts): Totals {
    Totals(a.balance, a.toVest, a.delegated, a.delVest, a.delFree)
  }

  /** What an account that is not converted adds: nothing of it vests, all it has delegated is free. */
  function SkippedTotals(a: Amounts): Totals {
    Totals(a.balance, 0, a.delegated, 0, a.delegated)
  }

  ghost function SumConverted(s: seq<Amounts>): Totals {
    if s == [] then ZERO else Plus(SumConverted(s[..|s|-1]), ConvertedTotals(s[|s|-1]))
  }

  ghost function SumSkipped(s: seq<Amounts>): Totals {
    if s == [] then ZERO else Plus(SumSkipped(s[..|s|-1]), SkippedTotals(s[|s|-1]))
  }

  ghost function SumBalances(s: seq<Amounts>): int {
    if s == [] then 0 else SumBalances(s[..|s|-1]) + s[|s|-1].balance
  }

  ghost function SumDelegated(s: seq<Amounts>): int {
    if s == [] then 0 else SumDelegated(s[..|s|-1]) + s[|s|-1].delegated
  }

  /** The totals that the three lists come to. */
  ghost function Books(ignored: seq<Amounts>, converted: seq<Amounts>, skipped: seq<Amounts>): Totals {
    Plus(Plus(SumSkipped(ignored), SumConverted(converted)), SumSkipped(skipped))
  }

  lemma {:induction false} SkippedSums(s: seq<Amounts>)
    ensures var t := SumSkipped(s);
      t == Totals(SumBalances(s), 0, SumDelegated(s), 0, SumDelegated(s))
  {
    if s != [] {
      SkippedSums(s[..|s|-1]);
    }
  }

  lemma {:induction false} ConvertedSums(s: seq<Amounts>)
    requires forall i :: 0 <= i < |s| ==> AddsUp(s[i])
    ensures var t := SumConverted(s);
      && t.balances == SumBalances(s) && t.delegated == SumDelegated(s)
      && t.delVest + t.delFree == t.delegated
      && 0 <= t.delVest <= t.vesting
      && t.vesting - t.delVest <= t.balances
  {
    if s != [] {
      ConvertedSums(s[..|s|-1]);
    }
  }

  /** Over any run: balances and delegated amounts are those of all the accounts, the delegated amount is split in
      vesting and free, and no more is delegated vesting than is vesting. */
  lemma BooksBalance(ignored: seq<Amounts>, converted: seq<Amounts>, skipped: seq<Amounts>)
    requires forall i :: 0 <= i < |converted| ==> AddsUp(converted[i])
    ensures var t := Books(ignored, converted, skipped);
      && t.balances == SumBalances(ignored) + SumBalances(converted) + SumBalances(skipped)
      && t.delegated == SumDelegated(ignored) + SumDelegated(converted) + SumDelegated(skipped)
      && t.delVest + t.delFree == t.delegated
      && 0 <= t.delVest <= t.vesting
      && t.vesting - t.delVest <= SumBalances(converted)
  {
    SkippedSums(ignored);
    SkippedSums(skipped);
    ConvertedSums(converted);
  }

  // ---------- the converter ----------

  /** An account as stored: a base account, or a continuous vesting account. */
  datatype Stored = BaseAccount | VestingAccount(original: int, delegatedVesting: int, delegatedFree: int, start: int, end: int)

  /** The state of the exchange: its commitments, orders and payments. */
  type Exchange(==, !new)

  datatype Store = Store(accounts: map<Account, Stored>, exchange: Exchange)

  /** What the conversion of an account meets: the exchange after the account's holds are cancelled (None if that
      fails), the hash still locked, and whether the vesting account can be created. */
  datatype Outcome = Outcome(afterCancel: Option<Exchange>, lockedHash: int, creatable: bool)

  ghost predicate Succeeds(o: Outcome) {
    o.afterCancel.Some? && o.lockedHash <= 0 && o.creatable
  }

  function AtLeastZero(n: int): int {
    if n > 0 then n else 0
  }

  function NewAccount(a: Amounts, start: int, end: int): Stored {
    VestingAccount(a.toVest, AtLeastZero(a.delVest), AtLeastZero(a.delFree), start, end)
  }

  /** The amounts are those of the accounts. */
  ghost predicate AmountsOf(accts: seq<AcctInfo>, amts: seq<Amounts>)
    reads accts
  {
    |amts| == |accts| && forall i :: 0 <= i < |accts| ==> accts[i].amounts == amts[i]
  }

  lemma SnocSums(s: seq<Amounts>, a: Amounts)
    ensures SumConverted(s + [a]) == Plus(SumConverted(s), ConvertedTotals(a))
    ensures SumSkipped(s + [a]) == Plus(SumSkipped(s), SkippedTotals(a))
  {
    assert (s + [a])[..|s|] == s;
  }

  lemma BooksNext(ignored: seq<Amounts>, converted: seq<Amounts>, skipped: seq<Amounts>, a: Amounts)
    ensures Books(ignored, converted + [a], skipped) == Plus(Books(ignored, converted, skipped), ConvertedTotals(a))
    ensures Books(ignored, converted, skipped + [a]) == Plus(Books(ignored, converted, skipped), SkippedTotals(a))
  {
    hide SumConverted, SumSkipped, Plus;
    SnocSums(converted, a);
    SnocSums(skipped, a);
    PlusMoves(SumSkipped(ignored), SumConverted(converted), SumSkipped(skipped), ConvertedTotals(a));
    PlusMoves(SumSkipped(ignored), SumConverted(converted), SumSkipped(skipped), SkippedTotals(a));
  }

  lemma PlusMoves(x: Totals, y: Totals, z: Totals, a: Totals)
    ensures Plus(Plus(x, Plus(y, a)), z) == Plus(Plus(Plus(x, y), z), a)
    ensures Plus(Plus(x, y), Plus(z, a)) == Plus(Plus(Plus(x, y), z), a)
  {
  }

  /** The stored accounts after these have been converted. */
  ghost function StoredAfter(accounts: map<Account, Stored>, addrs: seq<Account>, amts: seq<Amounts>, start: int, end: int)
    : map<Account, Stored>
    requires |amts| == |addrs|
  {
    if addrs == [] then accounts
    else
      var n := |addrs| - 1;
      StoredAfter(accounts, addrs[..n], amts[..n], start, end)[addrs[n] := NewAccount(amts[n], start, end)]
  }

  /** Accounts that were not converted are stored as before. */
  lemma {:induction false} OthersStoredAsBefore(accounts: map<Account, Stored>, addrs: seq<Account>, amts: seq<Amounts>,
                                                start: int, end: int, a: Account)
    requires |amts| == |addrs| && a !in addrs
    ensures var after := StoredAfter(accounts, addrs, amts, start, end);
      (a in after <==> a in accounts) && (a in accounts ==> after[a] == accounts[a])
  {
    if addrs != [] {
      OthersStoredAsBefore(accounts, addrs[..|addrs|-1], amts[..|addrs|-1], start, end, a);
    }
  }

  /** An account that was converted, and not again later, is stored as its own vesting account. */
  lemma {:induction false} ConvertedIsStored(accounts: map<Account, Stored>, addrs: seq<Account>, amts: seq<Amounts>,
                                             start: int, end: int, i: nat)
    requires |amts| == |addrs| && i < |addrs| && forall j :: i < j < |addrs| ==> addrs[j] != addrs[i]
    ensures var after := StoredAfter(accounts, addrs, amts, start, end);
      addrs[i] in after && after[addrs[i]] == NewAccount(amts[i], start, end)
  {
    var n := |addrs| - 1;
    if i < n {
      ConvertedIsStored(accounts, addrs[..n], amts[..n], start, end, i);
    }
  }

  lemma NoneStored(accounts: map<Account, Stored>, start: int, end: int)
    ensures StoredAfter(accounts, [], [], start, end) == accounts
  {
  }

  lemma StoredNext(accounts: map<Account, Stored>, accts: seq<AcctInfo>, amts: seq<Amounts>, start: int, end: int,
                   acct: AcctInfo, a: Amounts)
    requires |amts| == |accts|
    ensures StoredAfter(accounts, Addrs(accts + [acct]), amts + [a], start, end) ==
            StoredAfter(accounts, Addrs(accts), amts, start, end)[acct.addr := NewAccount(a, start, end)]
  {
    assert Addrs(accts + [acct])[..|accts|] == Addrs(accts);
    assert (amts + [a])[..|amts|] == amts;
  }

  lemma NoAccounts()
    ensures SumSkipped([]) == ZERO && SumConverted([]) == ZERO
  {
  }

  lemma BooksStart(ignored: seq<Amounts>)
    ensures Books(ignored, [], []) == SumSkipped(ignored)
    ensures SumSkipped(ignored[..0]) == ZERO && SumSkipped([]) == ZERO
  {
    hide SumSkipped, SumConverted;
    NoAccounts();
    assert ignored[..0] == [];
    assert Plus(Plus(SumSkipped(ignored), ZERO), ZERO) == SumSkipped(ignored);
  }

  class AcctConverter {
    var ignored: seq<AcctInfo>
    var converted: seq<AcctInfo>
    var skipped: seq<AcctInfo>
    var accountsAttempted: int
    var accountsConverted: int
    var totals: Totals
    var store: Store
    ghost var ignoredAmts: seq<Amounts>
    ghost var convertedAmts: seq<Amounts>
    ghost var skippedAmts: seq<Amounts>

    /** The books are those of the three lists, and every attempt is in one of the last two. */
    ghost predicate Valid()
      reads this, ignored, converted, skipped
    {
      && AmountsOf(ignored, ignoredAmts) && AmountsOf(converted, convertedAmts) && AmountsOf(skipped, skippedAmts)
      && totals == Books(ignoredAmts, convertedAmts, skippedAmts)
      && accountsConverted == |converted|
      && accountsAttempted == |converted| + |skipped|
    }

    constructor Empty(store: Store)
      ensures Valid() && ignored == [] && converted == [] && skipped == [] && this.store == store
    {
      hide Books, SumSkipped, SumConverted;
      BooksStart([]);
      ignored, converted, skipped, this.store := [], [], [], store;
      accountsAttempted, accountsConverted, totals := 0, 0, ZERO;
      ignoredAmts, convertedAmts, skippedAmts := [], [], [];
    }

    /** `newAcctConverter`: the ignored accounts are counted as skipped ones, then set apart. */
    static method New(ignored: seq<AcctInfo>, store: Store) returns (rv: AcctConverter)
      ensures fresh(rv) && rv.Valid() && rv.ignored == ignored && rv.ignoredAmts == AllAmounts(ignored)
      ensures rv.converted == [] && rv.skipped == [] && rv.store == store
    {
      hide Books, SumSkipped, AllAmounts;
      rv := new AcctConverter.Empty(store);
      ghost var amts := AllAmounts(ignored);
      BooksStart([]);
      BooksStart(amts);
      rv.RecordIgnored(ignored, amts);
      rv.ignored, rv.ignoredAmts := ignored, amts;
      rv.skipped, rv.skippedAmts := [], [];
    }

    /** The loop of `newAcctConverter`. */
    method RecordIgnored(accts: seq<AcctInfo>, ghost amts: seq<Amounts>)
      requires totals == ZERO && AmountsOf(accts, amts)
      modifies this`skipped, this`totals, this`skippedAmts
      ensures totals == SumSkipped(amts)
    {
      hide SumSkipped, Plus, SkippedTotals;
      BooksStart(amts);
      for i := 0 to |accts|
        invariant totals == SumSkipped(amts[..i])
      {
        assert amts[..i+1] == amts[..i] + [accts[i].amounts];
        SnocSums(amts[..i], accts[i].amounts);
        RecordSkipped(accts[i]);
      }
      assert amts[..|accts|] == amts;
    }

    /** `recordConverted`. */
    method RecordConverted(acct: AcctInfo)
      modifies this`converted, this`accountsConverted, this`totals, this`convertedAmts
      ensures converted == old(converted) + [acct] && convertedAmts == old(convertedAmts) + [acct.amounts]
      ensures accountsConverted == old(accountsConverted) + 1
      ensures totals == Plus(old(totals), ConvertedTotals(acct.amounts))
    {
      converted := converted + [acct];
      accountsConverted := accountsConverted + 1;
      totals := totals.(balances := totals.balances + acct.amounts.balance);
      totals := totals.(vesting := totals.vesting + acct.amounts.toVest);
      totals := totals.(delegated := totals.delegated + acct.amounts.delegated);
      totals := totals.(delVest := totals.delVest + acct.amounts.delVest);
      totals := totals.(delFree := totals.delFree + acct.amounts.delFree);
      convertedAmts := convertedAmts + [acct.amounts];
    }

    /** `recordSkipped`. */
    method RecordSkipped(acct: AcctInfo)
      modifies this`skipped, this`totals, this`skippedAmts
      ensures skipped == old(skipped) + [acct] && skippedAmts == old(skippedAmts) + [acct.amounts]
      ensures totals == Plus(old(totals), SkippedTotals(acct.amounts))
    {
      skipped := skipped + [acct];
      totals := totals.(balances := totals.balances + acct.amounts.balance);
      totals := totals.(delegated := totals.delegated + acct.amounts.delegated);
      totals := totals.(delFree := totals.delFree + acct.amounts.delegated);
      skippedAmts := skippedAmts + [acct.amounts];
    }

    /** `convert`: all or nothing. If anything fails, the stored accounts are as they were and the account is skipped;
        otherwise it is stored as a vesting account, along with the effects of cancelling its holds. */
    method Convert(acct: AcctInfo, o: Outcome, startTime: int, endTime: int) returns (r: Option<Failure>)
      requires Valid()
      modifies this, acct`converted, acct`skippedFor
      ensures Valid() && ignored == old(ignored) && ignoredAmts == old(ignoredAmts)
      ensures r.None? <==> Succeeds(o)
      ensures r.None? ==>
                && store == Store(old(store).accounts[acct.addr := NewAccount(acct.amounts, startTime, endTime)],
                                  o.afterCancel.value)
                && converted == old(converted) + [acct] && convertedAmts == old(convertedAmts) + [acct.amounts]
                && skipped == old(skipped) && skippedAmts == old(skippedAmts)
                && acct.converted && acct.skippedFor == old(acct.skippedFor)
      ensures r.Some? ==>
                && store == old(store)
                && skipped == old(skipped) + [acct] && skippedAmts == old(skippedAmts) + [acct.amounts]
                && converted == old(converted) && convertedAmts == old(convertedAmts)
                && acct.skippedFor == Some(Vesting.Failed(r.value)) && acct.converted == old(acct.converted)
    {
      hide Books, Plus, ConvertedTotals, SkippedTotals, NewAccount;
      BooksNext(ignoredAmts, convertedAmts, skippedAmts, acct.amounts);
      accountsAttempted := accountsAttempted + 1;
      r := TryConvert(acct, o, startTime, endTime);
      if r.Some? {
        acct.skippedFor := Some(Vesting.Failed(r.value));
        RecordSkipped(acct);
      } else {
        RecordConverted(acct);
      }
    }

    /** The attempt itself, on a copy of the state that is written back at the end. */
    method TryConvert(acct: AcctInfo, o: Outcome, startTime: int, endTime: int) returns (r: Option<Failure>)
      modifies this`store, acct`converted
      ensures r.None? <==> Succeeds(o)
      ensures store == if r.Some? then old(store)
                       else Store(old(store).accounts[acct.addr := NewAccount(acct.amounts, startTime, endTime)],
                                  o.afterCancel.value)
      ensures r.None? ==>
                && acct.addr in store.accounts
                && var v := store.accounts[acct.addr];
                   && v.VestingAccount? && v.original == acct.amounts.toVest && v.start == startTime && v.end == endTime
                   && (acct.amounts.delVest >= 0 ==> v.delegatedVesting == acct.amounts.delVest)
                   && (acct.amounts.delFree >= 0 ==> v.delegatedFree == acct.amounts.delFree)
      ensures acct.converted == (old(acct.converted) || r.None?)
    {
      if o.afterCancel.None? {
        return Some(HoldsNotCancelled);
      }
      var cache := store.(exchange := o.afterCancel.value);
      if o.lockedHash > 0 {
        return Some(HashOnHold);
      }
      if !o.creatable {
        return Some(NotCreated);
      }
      var newAcct := VestingAccount(acct.amounts.toVest, 0, 0, startTime, endTime);
      if acct.amounts.delVest > 0 {
        newAcct := newAcct.(delegatedVesting := acct.amounts.delVest);
      }
      if acct.amounts.delFree > 0 {
        newAcct := newAcct.(delegatedFree := acct.amounts.delFree);
      }
      cache := cache.(accounts := cache.accounts[acct.addr := newAcct]);
      store := cache;
      acct.converted := true;
      return None;
    }
  }

  ghost function SuccessesOf(os: seq<Outcome>): (r: seq<bool>)
    ensures |r| == |os| && forall i :: 0 <= i < |r| ==> r[i] == Succeeds(os[i])
  {
    seq(|os|, i requires 0 <= i < |os| => Succeeds(os[i]))
  }

  /** The exchange after these attempts: what the last successful one left, as a failed one leaves nothing. */
  ghost function ExchangeAfter(exchange: Exchange, os: seq<Outcome>): Exchange {
    if os == [] then exchange
    else if Succeeds(os[|os|-1]) then os[|os|-1].afterCancel.value
    else ExchangeAfter(exchange, os[..|os|-1])
  }

  /** The loop of `convertAcctsToVesting`: every account is attempted once, and ends up converted or skipped, in order.
      The totals at the end are those of all the accounts, ignored ones included. */
  method ConvertAll(toConvert: seq<AcctInfo>, toIgnore: seq<AcctInfo>, store: Store, os: seq<Outcome>,
                    startTime: int, endTime: int) returns (converter: AcctConverter)
    requires |os| == |toConvert|
    modifies (set a | a in toConvert)`converted, (set a | a in toConvert)`skippedFor
    ensures fresh(converter) && converter.Valid()
    ensures converter.ignored == toIgnore
    ensures converter.converted == Picked(toConvert, SuccessesOf(os), true)
    ensures converter.skipped == Picked(toConvert, SuccessesOf(os), false)
    ensures converter.totals ==
            Books(AllAmounts(toIgnore), Picked(AllAmounts(toConvert), SuccessesOf(os), true),
                  Picked(AllAmounts(toConvert), SuccessesOf(os), false))
    ensures converter.store.accounts ==
            StoredAfter(store.accounts, Addrs(converter.converted), converter.convertedAmts, startTime, endTime)
    ensures converter.convertedAmts == Picked(AllAmounts(toConvert), SuccessesOf(os), true)
    ensures converter.store.exchange == ExchangeAfter(store.exchange, os)
  {
    hide Picked, Books, StoredAfter, NewAccount;
    ghost var yes, amts := SuccessesOf(os), AllAmounts(toConvert);
    converter := AcctConverter.New(toIgnore, store);
    PickedNothing(toConvert, yes);
    PickedNothing(amts, yes);
    NoneStored(store.accounts, startTime, endTime);
    assert Addrs(converter.converted) == [];
    for i := 0 to |toConvert|
      invariant fresh(converter) && converter.Valid() && converter.ignored == toIgnore
      invariant AmountsOf(toConvert, amts)
      invariant converter.converted == Picked(toConvert[..i], yes[..i], true)
      invariant converter.skipped == Picked(toConvert[..i], yes[..i], false)
      invariant converter.convertedAmts == Picked(amts[..i], yes[..i], true)
      invariant converter.skippedAmts == Picked(amts[..i], yes[..i], false)
      invariant converter.store.accounts ==
                StoredAfter(store.accounts, Addrs(converter.converted), converter.convertedAmts, startTime, endTime)
      invariant converter.store.exchange == ExchangeAfter(store.exchange, os[..i])
    {
      assert os[..i+1][..i] == os[..i];
      StoredNext(store.accounts, converter.converted, converter.convertedAmts, startTime, endTime,
                 toConvert[i], toConvert[i].amounts);
      PickedNext(toConvert, yes, i, true);
      PickedNext(toConvert, yes, i, false);
      PickedNext(amts, yes, i, true);
      PickedNext(amts, yes, i, false);
      var failure := converter.Convert(toConvert[i], os[i], startTime, endTime);
    }
    assert toConvert[..|toConvert|] == toConvert && yes[..|yes|] == yes && amts[..|amts|] == amts && os[..|os|] == os;
    assert AllAmounts(toConvert) == amts && AllAmounts(toIgnore) == converter.ignoredAmts;
  }

  lemma {:induction false} PickedSums(amts: seq<Amounts>, keep: seq<bool>)
    requires |keep| == |amts|
    ensures SumBalances(Picked(amts, keep, true)) + SumBalances(Picked(amts, keep, false)) == SumBalances(amts)
    ensures SumDelegated(Picked(amts, keep, true)) + SumDelegated(Picked(amts, keep, false)) == SumDelegated(amts)
  {
    if amts != [] {
      var n := |amts| - 1;
      var kept, dropped := Picked(amts[..n], keep[..n], true), Picked(amts[..n], keep[..n], false);
      PickedSums(amts[..n], keep[..n]);
      SnocPlainSums(kept, amts[n]);
      SnocPlainSums(dropped, amts[n]);
      if keep[n] {
        assert Picked(amts, keep, true) == kept + [amts[n]] && Picked(amts, keep, false) == dropped;
      } else {
        assert Picked(amts, keep, true) == kept && Picked(amts, keep, false) == dropped + [amts[n]];
      }
    }
  }

  lemma SnocPlainSums(s: seq<Amounts>, a: Amounts)
    ensures SumBalances(s + [a]) == SumBalances(s) + a.balance
    ensures SumDelegated(s + [a]) == SumDelegated(s) + a.delegated
  {
    assert (s + [a])[..|s|] == s;
  }

  lemma {:induction false} PickedAddUp(amts: seq<Amounts>, keep: seq<bool>, b: bool)
    requires |keep| == |amts| && forall i :: 0 <= i < |amts| ==> AddsUp(amts[i])
    ensures forall i :: 0 <= i < |Picked(amts, keep, b)| ==> AddsUp(Picked(amts, keep, b)[i])
  {
    if amts != [] {
      PickedAddUp(amts[..|amts|-1], keep[..|amts|-1], b);
    }
  }

  /** Whatever conversions succeed, the final totals are those of all the accounts, and they are consistent. */
  lemma RunBooksBalance(ignored: seq<Amounts>, amts: seq<Amounts>, succeeded: seq<bool>)
    requires |succeeded| == |amts| && forall i :: 0 <= i < |amts| ==> AddsUp(amts[i])
    ensures var t := Books(ignored, Picked(amts, succeeded, true), Picked(amts, succeeded, false));
      && t.balances == SumBalances(ignored) + SumBalances(amts)
      && t.delegated == SumDelegated(ignored) + SumDelegated(amts)
      && t.delVest + t.delFree == t.delegated
      && 0 <= t.delVest <= t.vesting
      && t.vesting - t.delVest <= SumBalances(Picked(amts, succeeded, true))
  {
    hide Books, Picked;
    PickedSums(amts, succeeded);
    PickedAddUp(amts, succeeded, true);
    BooksBalance(ignored, Picked(amts, succeeded, true), Picked(amts, succeeded, false));
  }
}
