/** The whole conversion: the walk, any filters, and the attempts (`convertAcctsToVesting`). The lists of account infos are
    described by what is in them, so that the result of a run is a function of the accounts there were. */
module VestingRun {
  import opened SdkCoins
  import opened Vesting
  import opened VestingConversion

  // ---------- picking ----------

  /** What was there with that decision is picked. */
  lemma {:induction false} PickedAt<T>(xs: seq<T>, keep: seq<bool>, j: nat) returns (k: nat)
    requires |keep| == |xs| && j < |xs| && keep[j]
    ensures k < |Picked(xs, keep, true)| && Picked(xs, keep, true)[k] == xs[j]
  {
    var n := |xs| - 1;
    if j < n {
      k := PickedAt(xs[..n], keep[..n], j);
    } else {
      k := |Picked(xs[..n], keep[..n], true)|;
    }
  }

  /** Picking by the same decisions from two lists picks at the same places. */
  lemma {:induction false} PickedTogether<S, T>(xs: seq<S>, ys: seq<T>, keep: seq<bool>, b: bool, k: nat) returns (j: nat)
    requires |keep| == |xs| == |ys| && k < |Picked(xs, keep, b)|
    ensures |Picked(ys, keep, b)| == |Picked(xs, keep, b)|
    ensures j < |xs| && Picked(xs, keep, b)[k] == xs[j] && Picked(ys, keep, b)[k] == ys[j]
  {
    PickedSameLength(xs, ys, keep, b);
    var n := |xs| - 1;
    PickedSameLength(xs[..n], ys[..n], keep[..n], b);
    if k < |Picked(xs[..n], keep[..n], b)| {
      j := PickedTogether(xs[..n], ys[..n], keep[..n], b, k);
    } else {
      j := n;
    }
  }

  lemma {:induction false} PickedSameLength<S, T>(xs: seq<S>, ys: seq<T>, keep: seq<bool>, b: bool)
    requires |keep| == |xs| == |ys|
    ensures |Picked(ys, keep, b)| == |Picked(xs, keep, b)|
  {
    if xs != [] {
      var n := |xs| - 1;
      PickedSameLength(xs[..n], ys[..n], keep[..n], b);
    }
  }

  // ---------- what the lists hold ----------

  datatype Item = Item(addr: Account, amounts: Amounts)

  ghost function Items(accts: seq<AcctInfo>): (r: seq<Item>)
    reads accts
    ensures |r| == |accts| && forall i :: 0 <= i < |r| ==> r[i] == Item(accts[i].addr, accts[i].amounts)
  {
    seq(|accts|, i requires 0 <= i < |accts| reads accts => Item(accts[i].addr, accts[i].amounts))
  }

  ghost function AddrsOf(items: seq<Item>): (r: seq<Account>)
    ensures |r| == |items| && forall i :: 0 <= i < |r| ==> r[i] == items[i].addr
  {
    seq(|items|, i requires 0 <= i < |items| => items[i].addr)
  }

  ghost function AmountsIn(items: seq<Item>): (r: seq<Amounts>)
    ensures |r| == |items| && forall i :: 0 <= i < |r| ==> r[i] == items[i].amounts
  {
    seq(|items|, i requires 0 <= i < |items| => items[i].amounts)
  }

  ghost function ItemOf(c: Candidate): Item {
    Item(c.addr, CandidateAmounts(c))
  }

  ghost function ItemsOf(cs: seq<Candidate>): (r: seq<Item>)
    ensures |r| == |cs| && forall i :: 0 <= i < |r| ==> r[i] == ItemOf(cs[i])
  {
    seq(|cs|, i requires 0 <= i < |cs| => ItemOf(cs[i]))
  }

  /** Picking and then looking is looking and then picking. */
  lemma ItemsPicked(accts: seq<AcctInfo>, keep: seq<bool>, b: bool)
    requires |keep| == |accts|
    ensures Items(Picked(accts, keep, b)) == Picked(Items(accts), keep, b)
  {
    PickedSameLength(accts, Items(accts), keep, b);
    forall k | 0 <= k < |Picked(accts, keep, b)| ensures Items(Picked(accts, keep, b))[k] == Picked(Items(accts), keep, b)[k] {
      var j := PickedTogether(accts, Items(accts), keep, b, k);
    }
  }

  lemma AmountsPicked(items: seq<Item>, keep: seq<bool>, b: bool)
    requires |keep| == |items|
    ensures AmountsIn(Picked(items, keep, b)) == Picked(AmountsIn(items), keep, b)
    ensures AddrsOf(Picked(items, keep, b)) == Picked(AddrsOf(items), keep, b)
  {
    PickedSameLength(items, AmountsIn(items), keep, b);
    PickedSameLength(items, AddrsOf(items), keep, b);
    forall k | 0 <= k < |Picked(items, keep, b)|
      ensures AmountsIn(Picked(items, keep, b))[k] == Picked(AmountsIn(items), keep, b)[k]
      ensures AddrsOf(Picked(items, keep, b))[k] == Picked(AddrsOf(items), keep, b)[k]
    {
      var j := PickedTogether(items, AmountsIn(items), keep, b, k);
      var j' := PickedTogether(items, AddrsOf(items), keep, b, k);
    }
  }

  lemma CandidatesPicked(cs: seq<Candidate>, keep: seq<bool>, b: bool)
    requires |keep| == |cs|
    ensures ItemsOf(Picked(cs, keep, b)) == Picked(ItemsOf(cs), keep, b)
  {
    hide CandidateAmounts;
    PickedSameLength(cs, ItemsOf(cs), keep, b);
    forall k | 0 <= k < |Picked(cs, keep, b)| ensures ItemsOf(Picked(cs, keep, b))[k] == Picked(ItemsOf(cs), keep, b)[k] {
      var j := PickedTogether(cs, ItemsOf(cs), keep, b, k);
    }
  }

  // ---------- filters ----------

  datatype Filter = Testnet(listed: seq<Account>) | Mainnet(mins: map<Account, int>)

  datatype Lists = Lists(toConvert: seq<Item>, toIgnore: seq<Item>)

  ghost predicate MinsValid(fs: seq<Filter>) {
    forall i, a :: 0 <= i < |fs| && fs[i].Mainnet? && a in fs[i].mins ==> fs[i].mins[a] >= 0
  }

  ghost function Decisions(f: Filter, items: seq<Item>): (r: seq<bool>)
    ensures |r| == |items|
  {
    match f
    case Testnet(listed) => TestnetDecisions(listed, AddrsOf(items))
    case Mainnet(mins) => MainnetDecisions(mins, AddrsOf(items), AmountsIn(items))
  }

  /** A filter may split an account's amounts again. */
  ghost function Adjusted(f: Filter, x: Item): Item {
    match f
    case Testnet(_) => x
    case Mainnet(mins) => x.(amounts := MainnetAmounts(mins, x.addr, x.amounts))
  }

  ghost function AllAdjusted(f: Filter, items: seq<Item>): (r: seq<Item>)
    ensures |r| == |items| && forall i :: 0 <= i < |r| ==> r[i] == Adjusted(f, items[i])
  {
    seq(|items|, i requires 0 <= i < |items| => Adjusted(f, items[i]))
  }

  /** What the filter keeps, or does not keep, in order and with the amounts it gives. */
  ghost function SideOf(f: Filter, items: seq<Item>, b: bool): seq<Item> {
    Picked(AllAdjusted(f, items), Decisions(f, items), b)
  }

  /** One filter: what it keeps, in order, and what it moves behind those ignored before, in order. */
  ghost function FilteredBy(f: Filter, l: Lists): Lists {
    Lists(SideOf(f, l.toConvert, true), l.toIgnore + SideOf(f, l.toConvert, false))
  }

  /** All the filters, one after the other. */
  ghost function Filtered(fs: seq<Filter>, l: Lists): Lists {
    if fs == [] then l else FilteredBy(fs[|fs|-1], Filtered(fs[..|fs|-1], l))
  }

  /** What the walk finds. */
  ghost function Walked(cs: seq<Candidate>): Lists {
    Lists(ItemsOf(Picked(cs, Convertibles(cs), true)), ItemsOf(Picked(cs, Convertibles(cs), false)))
  }

  /** What is to be converted and what is ignored. */
  ghost function Selection(cs: seq<Candidate>, fs: seq<Filter>): Lists {
    Filtered(fs, Walked(cs))
  }

  // ---------- walk and filters lose no account ----------

  lemma {:induction false} SumsConcat(x: seq<Amounts>, y: seq<Amounts>)
    ensures SumBalances(x + y) == SumBalances(x) + SumBalances(y)
    ensures SumDelegated(x + y) == SumDelegated(x) + SumDelegated(y)
  {
    if y == [] {
      assert x + y == x;
    } else {
      SumsConcat(x, y[..|y|-1]);
      assert (x + y)[..|x + y|-1] == x + y[..|y|-1];
    }
  }

  /** The same accounts with another split hold and delegate the same. */
  lemma {:induction false} SameHoldings(x: seq<Amounts>, y: seq<Amounts>)
    requires |x| == |y| && forall i :: 0 <= i < |x| ==> x[i].balance == y[i].balance && x[i].delegated == y[i].delegated
    ensures SumBalances(x) == SumBalances(y) && SumDelegated(x) == SumDelegated(y)
  {
    if x != [] {
      SameHoldings(x[..|x|-1], y[..|y|-1]);
    }
  }

  ghost function ListedAddrs(l: Lists): multiset<Account> {
    multiset(AddrsOf(l.toConvert)) + multiset(AddrsOf(l.toIgnore))
  }

  ghost function ListedBalances(l: Lists): int {
    SumBalances(AmountsIn(l.toConvert)) + SumBalances(AmountsIn(l.toIgnore))
  }

  ghost function ListedDelegated(l: Lists): int {
    SumDelegated(AmountsIn(l.toConvert)) + SumDelegated(AmountsIn(l.toIgnore))
  }

  /** Both lists have the same addresses, each as often, and the same holdings in all. */
  ghost predicate SameAccounts(l: Lists, m: Lists) {
    && ListedAddrs(l) == ListedAddrs(m)
    && ListedBalances(l) == ListedBalances(m)
    && ListedDelegated(l) == ListedDelegated(m)
  }

  lemma NothingIgnored(items: seq<Item>)
    ensures ListedAddrs(Lists(items, [])) == multiset(AddrsOf(items))
    ensures ListedBalances(Lists(items, [])) == SumBalances(AmountsIn(items))
    ensures ListedDelegated(Lists(items, [])) == SumDelegated(AmountsIn(items))
  {
    assert AddrsOf([]) == [] && AmountsIn([]) == [];
  }

  lemma PickedLists(items: seq<Item>, keep: seq<bool>)
    requires |keep| == |items|
    ensures var l := Lists(Picked(items, keep, true), Picked(items, keep, false));
      && ListedAddrs(l) == multiset(AddrsOf(items))
      && ListedBalances(l) == SumBalances(AmountsIn(items))
      && ListedDelegated(l) == SumDelegated(AmountsIn(items))
  {
    hide Picked;
    AmountsPicked(items, keep, true);
    AmountsPicked(items, keep, false);
    PickedSums(AmountsIn(items), keep);
    PickedPartition(AddrsOf(items), keep);
  }

  lemma AdjustedHoldings(f: Filter, items: seq<Item>)
    ensures AddrsOf(AllAdjusted(f, items)) == AddrsOf(items)
    ensures SumBalances(AmountsIn(AllAdjusted(f, items))) == SumBalances(AmountsIn(items))
    ensures SumDelegated(AmountsIn(AllAdjusted(f, items))) == SumDelegated(AmountsIn(items))
  {
    SameHoldings(AmountsIn(AllAdjusted(f, items)), AmountsIn(items));
  }

  lemma BehindOthers(x: seq<Item>, y: seq<Item>)
    ensures multiset(AddrsOf(x + y)) == multiset(AddrsOf(x)) + multiset(AddrsOf(y))
    ensures SumBalances(AmountsIn(x + y)) == SumBalances(AmountsIn(x)) + SumBalances(AmountsIn(y))
    ensures SumDelegated(AmountsIn(x + y)) == SumDelegated(AmountsIn(x)) + SumDelegated(AmountsIn(y))
  {
    assert AddrsOf(x + y) == AddrsOf(x) + AddrsOf(y) && AmountsIn(x + y) == AmountsIn(x) + AmountsIn(y);
    SumsConcat(AmountsIn(x), AmountsIn(y));
  }

  lemma FilterKeepsAccounts(f: Filter, l: Lists)
    ensures SameAccounts(FilteredBy(f, l), l)
  {
    hide Picked, SumBalances, SumDelegated, AllAdjusted, Decisions, Adjusted;
    PickedLists(AllAdjusted(f, l.toConvert), Decisions(f, l.toConvert));
    AdjustedHoldings(f, l.toConvert);
    BehindOthers(l.toIgnore, SideOf(f, l.toConvert, false));
  }

  lemma {:induction false} FiltersKeepAccounts(fs: seq<Filter>, l: Lists)
    ensures SameAccounts(Filtered(fs, l), l)
  {
    if fs != [] {
      FiltersKeepAccounts(fs[..|fs|-1], l);
      FilterKeepsAccounts(fs[|fs|-1], Filtered(fs[..|fs|-1], l));
    }
  }

  /** Walk and filters lose no account and count none twice: every address is in exactly one list, as often as it was
      found, and balances and delegated amounts add up to those of all the accounts. */
  lemma SelectionKeepsAccounts(cs: seq<Candidate>, fs: seq<Filter>)
    ensures SameAccounts(Selection(cs, fs), Lists(ItemsOf(cs), []))
  {
    hide SumBalances, SumDelegated, Picked, Filtered;
    FiltersKeepAccounts(fs, Walked(cs));
    CandidatesPicked(cs, Convertibles(cs), true);
    CandidatesPicked(cs, Convertibles(cs), false);
    PickedLists(ItemsOf(cs), Convertibles(cs));
    NothingIgnored(ItemsOf(cs));
  }

  // ---------- what is selected ----------

  /** Amounts to convert with: they add up, and there is something to vest. */
  ghost predicate Ready(items: seq<Item>) {
    forall k :: 0 <= k < |items| ==> AddsUp(items[k].amounts) && items[k].amounts.toVest > 0
  }

  lemma FilterKeepsReady(f: Filter, items: seq<Item>)
    requires Ready(items) && MinsValid([f])
    ensures Ready(SideOf(f, items, true))
  {
    hide Picked, MainnetAmounts, AddsUp, MainnetKeeps;
    var kept := SideOf(f, items, true);
    forall k | 0 <= k < |kept| ensures AddsUp(kept[k].amounts) && kept[k].amounts.toVest > 0 {
      var j := PickedFrom(AllAdjusted(f, items), Decisions(f, items), true, k);
      assert kept[k] == Adjusted(f, items[j]);
      if f.Mainnet? {
        assert [f][0] == f;
        KeptIsReady(f.mins, items[j]);
      }
    }
  }

  lemma KeptIsReady(mins: map<Account, int>, x: Item)
    requires AddsUp(x.amounts) && x.amounts.toVest > 0 && MainnetKeeps(mins, x.addr, x.amounts)
    requires x.addr in mins ==> mins[x.addr] >= 0
    ensures AddsUp(MainnetAmounts(mins, x.addr, x.amounts)) && MainnetAmounts(mins, x.addr, x.amounts).toVest > 0
  {
    if x.addr in mins {
      MainnetKeepsMinimum(mins, x.addr, x.amounts);
    }
  }

  lemma WalkedIsReady(cs: seq<Candidate>)
    ensures Ready(Walked(cs).toConvert)
  {
    hide Picked, CandidateAmounts, AddsUp;
    var cands := Picked(cs, Convertibles(cs), true);
    forall k | 0 <= k < |cands| ensures AddsUp(ItemOf(cands[k]).amounts) && ItemOf(cands[k]).amounts.toVest > 0 {
      var j := PickedFrom(cs, Convertibles(cs), true, k);
      CandidateAddsUp(cs[j]);
    }
  }

  lemma {:induction false} FiltersKeepReady(fs: seq<Filter>, l: Lists)
    requires Ready(l.toConvert) && MinsValid(fs)
    ensures Ready(Filtered(fs, l).toConvert)
  {
    if fs != [] {
      var n := |fs| - 1;
      FiltersKeepReady(fs[..n], l);
      assert MinsValid([fs[n]]) by {
        forall i, a | 0 <= i < 1 && [fs[n]][i].Mainnet? && a in [fs[n]][i].mins ensures [fs[n]][i].mins[a] >= 0 {
          assert fs[n].mins[a] >= 0;
        }
      }
      FilterKeepsReady(fs[n], Filtered(fs[..n], l).toConvert);
    }
  }

  /** Every account to be converted has amounts that add up and something to vest. */
  lemma SelectionIsReady(cs: seq<Candidate>, fs: seq<Filter>)
    requires MinsValid(fs)
    ensures Ready(Selection(cs, fs).toConvert)
  {
    WalkedIsReady(cs);
    FiltersKeepReady(fs, Walked(cs));
  }

  /** With the mainnet filter: the convertible accounts that it keeps, with the amounts it gives them. */
  ghost predicate MainnetSelects(c: Candidate, mins: map<Account, int>, x: Item) {
    && Convertible(c) && MainnetKeeps(mins, c.addr, CandidateAmounts(c))
    && x == Item(c.addr, MainnetAmounts(mins, c.addr, CandidateAmounts(c)))
  }

  /** With the mainnet filter, an account is to be converted exactly if it is convertible and has no minimum or enough
      beyond it. */
  lemma MainnetSelection(cs: seq<Candidate>, mins: map<Account, int>, x: Item)
    ensures x in Selection(cs, [Mainnet(mins)]).toConvert <==> exists i :: 0 <= i < |cs| && MainnetSelects(cs[i], mins, x)
  {
    hide Picked, CandidateAmounts, MainnetAmounts, MainnetKeeps, Convertible;
    var f, cands := Mainnet(mins), Picked(cs, Convertibles(cs), true);
    var items := ItemsOf(cands);
    OneFilter(f, Walked(cs));
    var kept := SideOf(f, items, true);
    if x in kept {
      var k :| 0 <= k < |kept| && kept[k] == x;
      var j := PickedFrom(AllAdjusted(f, items), Decisions(f, items), true, k);
      var i := PickedFrom(cs, Convertibles(cs), true, j);
      assert MainnetSelects(cs[i], mins, x);
    }
    if exists i :: 0 <= i < |cs| && MainnetSelects(cs[i], mins, x) {
      var i :| 0 <= i < |cs| && MainnetSelects(cs[i], mins, x);
      var j := PickedAt(cs, Convertibles(cs), i);
      var k := PickedAt(AllAdjusted(f, items), Decisions(f, items), j);
    }
  }

  lemma OneFilter(f: Filter, l: Lists)
    ensures Filtered([f], l) == FilteredBy(f, l)
  {
    assert [f][..0] == [];
  }

  /** An account with a minimum that is selected keeps at least that unlocked and vests at least 5,000,000. */
  lemma SelectedKeepsMinimum(cs: seq<Candidate>, mins: map<Account, int>, x: Item)
    requires x in Selection(cs, [Mainnet(mins)]).toConvert && x.addr in mins && mins[x.addr] >= 0
    ensures x.amounts.toKeep >= mins[x.addr] && x.amounts.toVest >= TO_VEST_MIN
  {
    MainnetSelection(cs, mins, x);
    var i :| 0 <= i < |cs| && MainnetSelects(cs[i], mins, x);
    CandidateAddsUp(cs[i]);
    MainnetKeepsMinimum(mins, x.addr, CandidateAmounts(cs[i]));
  }

  ghost predicate DistinctAddrs(cs: seq<Candidate>) {
    forall i, j :: 0 <= i < j < |cs| ==> cs[i].addr != cs[j].addr
  }

  /** With the testnet filter, an account is to be converted exactly if it is convertible and listed. */
  lemma TestnetSelection(cs: seq<Candidate>, listed: seq<Account>, x: Item)
    requires DistinctAddrs(cs)
    ensures x in Selection(cs, [Testnet(listed)]).toConvert <==>
            exists i :: 0 <= i < |cs| && Convertible(cs[i]) && x == ItemOf(cs[i]) && x.addr in listed
  {
    hide Picked, CandidateAmounts, Convertible;
    var f, cands := Testnet(listed), Picked(cs, Convertibles(cs), true);
    var items := ItemsOf(cands);
    OneFilter(f, Walked(cs));
    var kept := SideOf(f, items, true);
    if x in kept {
      var k :| 0 <= k < |kept| && kept[k] == x;
      var j := PickedFrom(AllAdjusted(f, items), Decisions(f, items), true, k);
      var i := PickedFrom(cs, Convertibles(cs), true, j);
      assert Convertible(cs[i]) && x == ItemOf(cs[i]) && x.addr in listed;
    }
    if exists i :: 0 <= i < |cs| && Convertible(cs[i]) && x == ItemOf(cs[i]) && x.addr in listed {
      var i :| 0 <= i < |cs| && Convertible(cs[i]) && x == ItemOf(cs[i]) && x.addr in listed;
      var j := PickedAt(cs, Convertibles(cs), i);
      CandidatesDistinct(cs, j);
      var k := PickedAt(AllAdjusted(f, items), Decisions(f, items), j);
    }
  }

  /** Among the convertible accounts, too, an address comes up once. */
  lemma CandidatesDistinct(cs: seq<Candidate>, j: nat)
    requires DistinctAddrs(cs) && j < |Picked(cs, Convertibles(cs), true)|
    ensures var addrs := AddrsOf(ItemsOf(Picked(cs, Convertibles(cs), true))); addrs[j] !in addrs[..j]
  {
    hide CandidateAmounts;
    AddrsDistinct(cs);
    var keep := Convertibles(cs);
    CandidatesPicked(cs, keep, true);
    CandidatesPicked(cs, keep, false);
    PickedLists(ItemsOf(cs), keep);
    NothingIgnored(ItemsOf(cs));
    var addrs := AddrsOf(ItemsOf(Picked(cs, keep, true)));
    assert multiset(addrs) <= ListedAddrs(Lists(ItemsOf(cs), []));
    OnceIsDistinct(addrs);
  }

  lemma AddrsDistinct(cs: seq<Candidate>)
    requires DistinctAddrs(cs)
    ensures forall a :: ListedAddrs(Lists(ItemsOf(cs), []))[a] <= 1
  {
    hide CandidateAmounts;
    assert AddrsOf([]) == [];
    DistinctIsOnce(AddrsOf(ItemsOf(cs)));
  }

  /** If no element is there twice, none repeats an earlier one. */
  lemma OnceIsDistinct<T(!new)>(s: seq<T>)
    requires forall x :: multiset(s)[x] <= 1
    ensures forall i, j :: 0 <= i < j < |s| ==> s[i] != s[j]
  {
    forall i, j | 0 <= i < j < |s| ensures s[i] != s[j] {
      assert s == s[..j] + [s[j]] + s[j+1..];
      assert s[i] in multiset(s[..j]) by { assert s[..j][i] == s[i]; }
      assert multiset(s)[s[j]] >= multiset(s[..j])[s[j]] + 1;
    }
  }

  // ---------- how the accounts are stored in the end ----------

  ghost function Attempts(items: seq<Item>, outcome: Account -> Outcome): (r: seq<Outcome>)
    ensures |r| == |items| && forall i :: 0 <= i < |r| ==> r[i] == outcome(items[i].addr)
  {
    seq(|items|, i requires 0 <= i < |items| => outcome(items[i].addr))
  }

  /** The items whose conversion succeeds, or fails, in order. */
  ghost function Attempted(items: seq<Item>, outcome: Account -> Outcome, b: bool): seq<Item> {
    Picked(items, SuccessesOf(Attempts(items, outcome)), b)
  }

  ghost function StoredBy(before: map<Account, Stored>, converted: seq<Item>, start: int, end: int): map<Account, Stored> {
    StoredAfter(before, AddrsOf(converted), AmountsIn(converted), start, end)
  }

  /** An account that was selected, and whose conversion succeeds, is stored as the vesting account for its amounts; any
      other is stored as before. */
  ghost predicate StoredRight(before: map<Account, Stored>, after: map<Account, Stored>, selected: seq<Item>,
                              outcome: Account -> Outcome, start: int, end: int, a: Account) {
    && (forall k :: 0 <= k < |selected| && selected[k].addr == a && Succeeds(outcome(a)) ==>
                      a in after && after[a] == NewAccount(selected[k].amounts, start, end))
    && (a !in AddrsOf(selected) || !Succeeds(outcome(a)) ==>
          (a in after <==> a in before) && (a in before ==> after[a] == before[a]))
  }

  lemma StoredExactly(before: map<Account, Stored>, selected: seq<Item>, outcome: Account -> Outcome,
                      start: int, end: int, a: Account)
    requires forall i, j :: 0 <= i < j < |selected| ==> selected[i].addr != selected[j].addr
    ensures StoredRight(before, StoredBy(before, Attempted(selected, outcome, true), start, end), selected, outcome,
                        start, end, a)
  {
    hide Picked, NewAccount, StoredAfter, Succeeds;
    var keep := SuccessesOf(Attempts(selected, outcome));
    var won := Attempted(selected, outcome, true);
    forall k | 0 <= k < |selected| && selected[k].addr == a && Succeeds(outcome(a))
      ensures var after := StoredBy(before, won, start, end);
        a in after && after[a] == NewAccount(selected[k].amounts, start, end)
    {
      var i := PickedAt(selected, keep, k);
      forall j | i < j < |won| ensures won[j].addr != a {
        LaterDiffers(selected, keep, i, j);
      }
      ConvertedIsStored(before, AddrsOf(won), AmountsIn(won), start, end, i);
    }
    if a !in AddrsOf(selected) || !Succeeds(outcome(a)) {
      forall i | 0 <= i < |won| ensures AddrsOf(won)[i] != a {
        var k := PickedFrom(selected, keep, true, i);
        assert AddrsOf(selected)[k] == won[i].addr;
      }
      OthersStoredAsBefore(before, AddrsOf(won), AmountsIn(won), start, end, a);
    }
  }

  lemma LaterDiffers(items: seq<Item>, keep: seq<bool>, i: nat, j: nat)
    requires |keep| == |items| && i < j < |Picked(items, keep, true)|
    requires forall x, y :: 0 <= x < y < |items| ==> items[x].addr != items[y].addr
    ensures Picked(items, keep, true)[i].addr != Picked(items, keep, true)[j].addr
  {
    hide Picked;
    var addrs, kept := AddrsOf(items), AddrsOf(Picked(items, keep, true));
    AmountsPicked(items, keep, true);
    PickedPartition(addrs, keep);
    DistinctIsOnce(addrs);
    assert multiset(kept) <= multiset(addrs);
    OnceIsDistinct(kept);
    assert kept[i] != kept[j];
  }

  lemma {:induction false} DistinctIsOnce<T(!new)>(s: seq<T>)
    requires forall i, j :: 0 <= i < j < |s| ==> s[i] != s[j]
    ensures forall x :: multiset(s)[x] <= 1
  {
    if s != [] {
      var n := |s| - 1;
      DistinctIsOnce(s[..n]);
      assert s == s[..n] + [s[n]];
      assert s[n] !in s[..n];
    }
  }

  /** If the accounts found have distinct addresses, so have those selected. */
  lemma SelectedDistinct(cs: seq<Candidate>, fs: seq<Filter>)
    requires DistinctAddrs(cs)
    ensures var sel := Selection(cs, fs).toConvert; forall i, j :: 0 <= i < j < |sel| ==> sel[i].addr != sel[j].addr
  {
    hide Selection;
    var sel := Selection(cs, fs).toConvert;
    SelectionKeepsAccounts(cs, fs);
    AddrsDistinct(cs);
    assert multiset(AddrsOf(sel)) <= ListedAddrs(Selection(cs, fs));
    OnceIsDistinct(AddrsOf(sel));
    forall i, j | 0 <= i < j < |sel| ensures sel[i].addr != sel[j].addr {
      assert AddrsOf(sel)[i] != AddrsOf(sel)[j];
    }
  }

  // ---------- the same, said of the accounts found ----------

  /** An account to convert: a base account whose delegations are known, that is no IBC account and no contract, with at
      least two nhash; that is listed (testnet); or, if it has a minimum to leave unlocked, of whose funds beyond it at
      least 5,000,000 nhash vest (mainnet). */
  ghost predicate Chosen(f: Filter, c: Candidate) {
    var total := c.balance + c.delegated;
    && !c.lookupFailed && c.isBase && !c.isIbc && !c.isContract && total >= 2
    && match f
       case Testnet(listed) => c.addr in listed
       case Mainnet(mins) => c.addr in mins ==> 47 * (total - mins[c.addr]) >= 48 * 5_000_000
  }

  /** What is left unlocked before the rest is split. */
  ghost function Minimum(f: Filter, c: Candidate): int {
    if f.Mainnet? && c.addr in f.mins then f.mins[c.addr] else 0
  }

  /** A vesting account for everything beyond the minimum but a forty-eighth of it, rounded up; the delegated amount is taken
      to be vesting as far as it goes. */
  ghost predicate VestsAs(v: Stored, c: Candidate, minimum: int, start: int, end: int) {
    && v.VestingAccount? && v.start == start && v.end == end
    && (var vestable := c.balance + c.delegated - minimum;
        48 * (vestable - v.original - 1) < vestable <= 48 * (vestable - v.original))
    && v.delegatedVesting + v.delegatedFree == c.delegated
    && v.delegatedVesting == if c.delegated < v.original then c.delegated else v.original
  }

  /** The account is stored as its vesting account if it is chosen and nothing goes wrong, and as before otherwise. */
  ghost predicate ConvertedRight(f: Filter, c: Candidate, before: map<Account, Stored>, after: map<Account, Stored>,
                                 o: Outcome, start: int, end: int) {
    if Chosen(f, c) && o.afterCancel.Some? && o.lockedHash <= 0 && o.creatable then
      c.addr in after && VestsAs(after[c.addr], c, Minimum(f, c), start, end)
    else SameAt(before, after, c.addr)
  }

  ghost predicate SameAt(before: map<Account, Stored>, after: map<Account, Stored>, a: Account) {
    (a in after <==> a in before) && (a in before ==> after[a] == before[a])
  }

  /** What the filter makes of a candidate's amounts. */
  ghost function ChosenItem(f: Filter, c: Candidate): Item {
    Adjusted(f, ItemOf(c))
  }

  lemma MainnetChoice(mins: map<Account, int>, c: Candidate)
    ensures Convertible(c) && MainnetKeeps(mins, c.addr, CandidateAmounts(c)) <==> Chosen(Mainnet(mins), c)
  {
    ConvertibleMeans(c);
    if !c.lookupFailed && c.addr in mins {
      EnoughToVest(c.balance + c.delegated - mins[c.addr]);
      assert CandidateAmounts(c).total == c.balance + c.delegated;
    }
  }

  lemma EnoughToVest(beyond: int)
    ensures beyond > 0 && VestingPart(beyond) >= TO_VEST_MIN <==> 47 * beyond >= 48 * 5_000_000
  {
    if beyond > 0 {
      assert VestingPart(beyond) == beyond * 47 / 48;
    }
  }

  /** Exactly the chosen accounts are selected. */
  lemma SelectionIsChoice(cs: seq<Candidate>, f: Filter, x: Item)
    requires DistinctAddrs(cs)
    ensures x in Selection(cs, [f]).toConvert <==> exists i :: 0 <= i < |cs| && Chosen(f, cs[i]) && x == ChosenItem(f, cs[i])
  {
    hide CandidateAmounts, MainnetAmounts, MainnetKeeps, Convertible, Selection, Chosen;
    match f {
      case Testnet(listed) =>
        TestnetSelection(cs, listed, x);
        forall i | 0 <= i < |cs| ensures Convertible(cs[i]) && cs[i].addr in listed <==> Chosen(f, cs[i]) {
          TestnetChoice(listed, cs[i]);
        }
      case Mainnet(mins) =>
        MainnetSelection(cs, mins, x);
        forall i | 0 <= i < |cs|
          ensures MainnetSelects(cs[i], mins, x) <==> Chosen(f, cs[i]) && x == ChosenItem(f, cs[i])
        {
          MainnetChoice(mins, cs[i]);
        }
    }
  }

  lemma TestnetChoice(listed: seq<Account>, c: Candidate)
    ensures Convertible(c) && c.addr in listed <==> Chosen(Testnet(listed), c)
  {
    ConvertibleMeans(c);
  }

  lemma ChosenVests(f: Filter, c: Candidate, start: int, end: int)
    requires Chosen(f, c)
    ensures VestsAs(NewAccount(ChosenItem(f, c).amounts, start, end), c, Minimum(f, c), start, end)
  {
    hide NewAccount, WithToVest, VestingPart;
    var total := c.balance + c.delegated;
    if f.Mainnet? && c.addr in f.mins {
      EnoughToVest(total - f.mins[c.addr]);
      assert CandidateAmounts(c).total == total && CandidateAmounts(c).delegated == c.delegated by { AmountsKeepHoldings(c); }
      PartVests(CandidateAmounts(c), c, f.mins[c.addr], start, end);
    } else {
      PartVests(Amounts(c.balance, c.delegated, total, 0, 0, 0, 0), c, 0, start, end);
    }
  }

  lemma AmountsKeepHoldings(c: Candidate)
    requires !c.lookupFailed
    ensures CandidateAmounts(c).total == c.balance + c.delegated && CandidateAmounts(c).delegated == c.delegated
  {
  }

  lemma PartVests(a: Amounts, c: Candidate, minimum: int, start: int, end: int)
    requires a.delegated == c.delegated && c.balance + c.delegated > minimum
    ensures VestsAs(NewAccount(WithToVest(a, VestingPart(c.balance + c.delegated - minimum)), start, end),
                    c, minimum, start, end)
  {
    hide NewAccount, WithToVest, VestingPart;
    var vestable := c.balance + c.delegated - minimum;
    KeptIsCeiling(vestable);
    SplitOf(a, VestingPart(vestable), start, end);
  }

  lemma SplitOf(a: Amounts, toVest: int, start: int, end: int)
    requires toVest >= 0 && a.delegated >= 0
    ensures var v := NewAccount(WithToVest(a, toVest), start, end);
      && v.VestingAccount? && v.start == start && v.end == end
      && v.original == toVest && v.delegatedVesting + v.delegatedFree == a.delegated
      && v.delegatedVesting == if a.delegated < toVest then a.delegated else toVest
  {
  }

  lemma SelectedIsChosen(cs: seq<Candidate>, f: Filter, i: nat)
    requires DistinctAddrs(cs) && i < |cs| && cs[i].addr in AddrsOf(Selection(cs, [f]).toConvert)
    ensures Chosen(f, cs[i])
  {
    hide Chosen, Selection, CandidateAmounts, Adjusted;
    var sel := Selection(cs, [f]).toConvert;
    var k :| 0 <= k < |sel| && AddrsOf(sel)[k] == cs[i].addr;
    SelectionIsChoice(cs, f, sel[k]);
    var j :| 0 <= j < |cs| && Chosen(f, cs[j]) && sel[k] == ChosenItem(f, cs[j]);
    ChosenAddr(f, cs[j]);
    assert j == i;
  }

  /** With one filter, every account found is stored as it should be. */
  lemma FoundStoredRight(cs: seq<Candidate>, f: Filter, before: map<Account, Stored>, after: map<Account, Stored>,
                         outcome: Account -> Outcome, start: int, end: int, i: nat)
    requires DistinctAddrs(cs) && i < |cs|
    requires StoredRight(before, after, Selection(cs, [f]).toConvert, outcome, start, end, cs[i].addr)
    ensures ConvertedRight(f, cs[i], before, after, outcome(cs[i].addr), start, end)
  {
    hide Chosen, Selection, CandidateAmounts, Adjusted, NewAccount, VestsAs;
    var c, sel := cs[i], Selection(cs, [f]).toConvert;
    if c.addr in AddrsOf(sel) {
      SelectedIsChosen(cs, f, i);
    }
    if Chosen(f, c) {
      SelectionIsChoice(cs, f, ChosenItem(f, c));
      ChosenAddr(f, c);
      var k :| 0 <= k < |sel| && sel[k] == ChosenItem(f, c);
      ChosenVests(f, c, start, end);
      assert AddrsOf(sel)[k] == c.addr;
    }
  }

  lemma ChosenAddr(f: Filter, c: Candidate)
    ensures ChosenItem(f, c).addr == c.addr
  {
  }

  /** Accounts that were not found are stored as before. */
  lemma OthersStoredRight(cs: seq<Candidate>, fs: seq<Filter>, before: map<Account, Stored>, after: map<Account, Stored>,
                          outcome: Account -> Outcome, start: int, end: int, a: Account)
    requires StoredRight(before, after, Selection(cs, fs).toConvert, outcome, start, end, a)
    requires forall i :: 0 <= i < |cs| ==> cs[i].addr != a
    ensures SameAt(before, after, a)
  {
    hide Selection;
    SelectedWasFound(cs, fs, a);
  }

  lemma SelectedWasFound(cs: seq<Candidate>, fs: seq<Filter>, a: Account)
    ensures a in AddrsOf(Selection(cs, fs).toConvert) ==> exists i :: 0 <= i < |cs| && cs[i].addr == a
  {
    hide Selection, CandidateAmounts;
    var l := Selection(cs, fs);
    SelectionKeepsAccounts(cs, fs);
    NothingIgnored(ItemsOf(cs));
    if a in AddrsOf(l.toConvert) {
      assert a in multiset(AddrsOf(l.toConvert));
      assert a in ListedAddrs(l);
      var i :| 0 <= i < |cs| && AddrsOf(ItemsOf(cs))[i] == a;
    }
  }

  lemma AllFoundStoredRight(cs: seq<Candidate>, fs: seq<Filter>, before: map<Account, Stored>, after: map<Account, Stored>,
                            outcome: Account -> Outcome, start: int, end: int)
    requires DistinctAddrs(cs)
    requires forall a :: StoredRight(before, after, Selection(cs, fs).toConvert, outcome, start, end, a)
    ensures |fs| == 1 ==>
              forall i :: 0 <= i < |cs| ==>
                            ConvertedRight(fs[0], cs[i], before, after, outcome(cs[i].addr), start, end)
    ensures forall a :: (forall i :: 0 <= i < |cs| ==> cs[i].addr != a) ==> SameAt(before, after, a)
  {
    hide Selection, StoredRight, ConvertedRight, SameAt;
    if |fs| == 1 {
      assert fs == [fs[0]];
      forall i | 0 <= i < |cs| ensures ConvertedRight(fs[0], cs[i], before, after, outcome(cs[i].addr), start, end) {
        FoundStoredRight(cs, fs[0], before, after, outcome, start, end, i);
      }
    }
    forall a | forall i :: 0 <= i < |cs| ==> cs[i].addr != a ensures SameAt(before, after, a) {
      OthersStoredRight(cs, fs, before, after, outcome, start, end, a);
    }
  }

  // ---------- the books against the store ----------

  /** The sum of what was vesting originally in these stored accounts. */
  ghost function SumOriginal(m: map<Account, Stored>, addrs: seq<Account>): int {
    if addrs == [] then 0
    else
      var a := addrs[|addrs|-1];
      SumOriginal(m, addrs[..|addrs|-1]) + if a in m && m[a].VestingAccount? then m[a].original else 0
  }

  ghost function SumDelegatedVesting(m: map<Account, Stored>, addrs: seq<Account>): int {
    if addrs == [] then 0
    else
      var a := addrs[|addrs|-1];
      SumDelegatedVesting(m, addrs[..|addrs|-1]) + if a in m && m[a].VestingAccount? then m[a].delegatedVesting else 0
  }

  ghost predicate StoredAs(m: map<Account, Stored>, items: seq<Item>, start: int, end: int) {
    forall i :: 0 <= i < |items| ==>
                  items[i].addr in m && m[items[i].addr] == NewAccount(items[i].amounts, start, end)
  }

  lemma {:induction false} StoredSums(m: map<Account, Stored>, items: seq<Item>, start: int, end: int)
    requires StoredAs(m, items, start, end)
    requires forall i :: 0 <= i < |items| ==> AddsUp(items[i].amounts)
    ensures SumOriginal(m, AddrsOf(items)) == SumConverted(AmountsIn(items)).vesting
    ensures SumDelegatedVesting(m, AddrsOf(items)) == SumConverted(AmountsIn(items)).delVest
  {
    if items != [] {
      var n := |items| - 1;
      StoredSums(m, items[..n], start, end);
      assert AddrsOf(items)[..n] == AddrsOf(items[..n]) && AmountsIn(items)[..n] == AmountsIn(items[..n]);
      assert AddsUp(items[n].amounts);
    }
  }

  /** What the books say vests, and is delegated vesting, is what the converted accounts have stored. */
  lemma BooksMatchStore(selected: seq<Item>, ignored: seq<Item>, before: map<Account, Stored>, outcome: Account -> Outcome,
                        start: int, end: int)
    requires Ready(selected)
    requires forall i, j :: 0 <= i < j < |selected| ==> selected[i].addr != selected[j].addr
    ensures var won := Attempted(selected, outcome, true);
      var after := StoredBy(before, won, start, end);
      var t := Books(AmountsIn(ignored), AmountsIn(won), AmountsIn(Attempted(selected, outcome, false)));
      && t.vesting == SumOriginal(after, AddrsOf(won))
      && t.delVest == SumDelegatedVesting(after, AddrsOf(won))
  {
    hide Picked, NewAccount, StoredAfter, Succeeds, AddsUp, SumConverted, SumSkipped, SumOriginal, SumDelegatedVesting;
    var keep := SuccessesOf(Attempts(selected, outcome));
    var won := Attempted(selected, outcome, true);
    var after := StoredBy(before, won, start, end);
    forall i | 0 <= i < |won|
      ensures won[i].addr in after && after[won[i].addr] == NewAccount(won[i].amounts, start, end)
      ensures AddsUp(won[i].amounts)
    {
      var k := PickedFrom(selected, keep, true, i);
      StoredExactly(before, selected, outcome, start, end, won[i].addr);
    }
    StoredSums(after, won, start, end);
    SkippedSums(AmountsIn(ignored));
    SkippedSums(AmountsIn(Attempted(selected, outcome, false)));
  }

  // ---------- the program ----------

  /** One filter on the lists. */
  method ApplyFilter(f: Filter, toConvert: seq<AcctInfo>, toIgnore: seq<AcctInfo>)
    returns (toConvertNew: seq<AcctInfo>, toIgnoreNew: seq<AcctInfo>)
    requires Separate(toConvert, toIgnore)
    modifies (set a | a in toConvert)`amounts, (set a | a in toConvert)`skippedFor
    ensures Separate(toConvertNew, toIgnoreNew)
    ensures multiset(toConvertNew) + multiset(toIgnoreNew) == multiset(toConvert) + multiset(toIgnore)
    ensures Lists(Items(toConvertNew), Items(toIgnoreNew)) == FilteredBy(f, old(Lists(Items(toConvert), Items(toIgnore))))
  {
    hide Picked, MainnetAmounts, MainnetKeeps;
    ghost var items, ignored := Items(toConvert), Items(toIgnore);
    ghost var keep := Decisions(f, items);
    assert AddrsOf(items) == Addrs(toConvert) && AmountsIn(items) == AllAmounts(toConvert);
    match f {
      case Testnet(listed) =>
        toConvertNew, toIgnoreNew := TestnetAcctFilter(listed, toConvert, toIgnore);
      case Mainnet(mins) =>
        toConvertNew, toIgnoreNew := MainnetAcctFilter(mins, toConvert, toIgnore);
    }
    assert Items(toConvert) == AllAdjusted(f, items);
    OthersUntouched(toConvert, toIgnore);
    assert Items(toIgnore) == ignored;
    ItemsPicked(toConvert, keep, true);
    ItemsPicked(toConvert, keep, false);
    PickedPartition(toConvert, keep);
    assert Items(toIgnoreNew) == Items(toIgnore) + Items(Picked(toConvert, keep, false));
    assert multiset(toConvertNew) + multiset(toIgnoreNew) == multiset(toConvert) + multiset(toIgnore);
  }

  lemma OthersUntouched(xs: seq<AcctInfo>, ys: seq<AcctInfo>)
    requires Separate(xs, ys)
    ensures forall a :: a in ys ==> a !in xs
  {
    forall a | a in ys ensures a !in xs {
      assert a in multiset(ys) && (multiset(xs) + multiset(ys))[a] == 1;
      assert a in xs ==> a in multiset(xs);
    }
  }

  /** The walk and the filters of `convertAcctsToVesting`: exactly the selection. */
  method SelectAccts(cs: seq<Candidate>, fs: seq<Filter>) returns (toConvert: seq<AcctInfo>, toIgnore: seq<AcctInfo>)
    ensures Lists(Items(toConvert), Items(toIgnore)) == Selection(cs, fs)
    ensures forall a :: a in toConvert || a in toIgnore ==> fresh(a)
    ensures Separate(toConvert, toIgnore)
  {
    hide Picked, CandidateAmounts, FilteredBy;
    toConvert, toIgnore := GetAcctsToConvert(cs);
    assert Items(toConvert) == Walked(cs).toConvert && Items(toIgnore) == Walked(cs).toIgnore;
    forall a | a in multiset(toConvert) + multiset(toIgnore) ensures fresh(a) {
      assert a in toConvert || a in toIgnore;
    }
    for i := 0 to |fs|
      invariant Lists(Items(toConvert), Items(toIgnore)) == Filtered(fs[..i], Walked(cs))
      invariant forall a :: a in multiset(toConvert) + multiset(toIgnore) ==> fresh(a)
      invariant Separate(toConvert, toIgnore)
    {
      assert fs[..i+1][..i] == fs[..i];
      assert forall a :: a in toConvert ==> a in multiset(toConvert) + multiset(toIgnore);
      toConvert, toIgnore := ApplyFilter(fs[i], toConvert, toIgnore);
    }
    assert fs[..|fs|] == fs;
    assert forall a :: a in toConvert || a in toIgnore ==> a in multiset(toConvert) + multiset(toIgnore);
  }

  /** `convertAcctsToVesting` with any filters, from the walk to the final books. What was ignored, converted and skipped is
      exactly the selection, sorted by the outcomes, and so are the stored accounts. If no minimum is negative, the totals are
      those of every account there is, each counted once; the delegated amount splits into vesting and free; and no more is
      delegated vesting than is vesting. */
  method ConvertAcctsToVesting(cs: seq<Candidate>, fs: seq<Filter>, store: Store, outcome: Account -> Outcome,
                               startTime: int, endTime: int) returns (converter: AcctConverter)
    ensures fresh(converter) && converter.Valid()
    ensures Items(converter.ignored) == Selection(cs, fs).toIgnore
    ensures Items(converter.converted) == Attempted(Selection(cs, fs).toConvert, outcome, true)
    ensures Items(converter.skipped) == Attempted(Selection(cs, fs).toConvert, outcome, false)
    ensures converter.store.accounts ==
            StoredBy(store.accounts, Attempted(Selection(cs, fs).toConvert, outcome, true), startTime, endTime)
    ensures converter.store.exchange == ExchangeAfter(store.exchange, Attempts(Selection(cs, fs).toConvert, outcome))
    ensures DistinctAddrs(cs) ==>
              forall a :: StoredRight(store.accounts, converter.store.accounts, Selection(cs, fs).toConvert, outcome,
                                      startTime, endTime, a)
    ensures DistinctAddrs(cs) && |fs| == 1 ==>
              forall i :: 0 <= i < |cs| ==>
                            ConvertedRight(fs[0], cs[i], store.accounts, converter.store.accounts, outcome(cs[i].addr),
                                           startTime, endTime)
    ensures DistinctAddrs(cs) ==>
              forall a :: (forall i :: 0 <= i < |cs| ==> cs[i].addr != a) ==>
                            SameAt(store.accounts, converter.store.accounts, a)
    ensures MinsValid(fs) ==> Balanced(converter.totals, ItemsOf(cs))
    ensures MinsValid(fs) && DistinctAddrs(cs) ==>
              && converter.totals.vesting == SumOriginal(converter.store.accounts, Addrs(converter.converted))
              && converter.totals.delVest == SumDelegatedVesting(converter.store.accounts, Addrs(converter.converted))
  {
    hide Picked, Books, StoredAfter, SumBalances, SumDelegated, AddsUp, Selection, StoredRight, ExchangeAfter, Balanced,
         ConvertedRight, SameAt, SumOriginal, SumDelegatedVesting, Ready;
    var toConvert, toIgnore := SelectAccts(cs, fs);
    ghost var items, ignored := Items(toConvert), Items(toIgnore);
    var os := seq(|toConvert|, i requires 0 <= i < |toConvert| => outcome(toConvert[i].addr));
    assert os == Attempts(items, outcome);
    ghost var keep := SuccessesOf(os);
    converter := ConvertAll(toConvert, toIgnore, store, os, startTime, endTime);
    assert Items(toConvert) == items && Items(toIgnore) == ignored;
    assert AllAmounts(toConvert) == AmountsIn(items) && AllAmounts(toIgnore) == AmountsIn(ignored);
    ItemsPicked(toConvert, keep, true);
    ItemsPicked(toConvert, keep, false);
    AmountsPicked(items, keep, true);
    assert Addrs(converter.converted) == AddrsOf(Items(converter.converted));
    if DistinctAddrs(cs) {
      SelectedDistinct(cs, fs);
      forall a ensures StoredRight(store.accounts, converter.store.accounts, items, outcome, startTime, endTime, a) {
        StoredExactly(store.accounts, items, outcome, startTime, endTime, a);
      }
      AllFoundStoredRight(cs, fs, store.accounts, converter.store.accounts, outcome, startTime, endTime);
      if MinsValid(fs) {
        SelectionIsReady(cs, fs);
        AmountsPicked(items, keep, false);
        BooksMatchStore(items, ignored, store.accounts, outcome, startTime, endTime);
      }
    }
    if MinsValid(fs) {
      FinalBooks(cs, fs, keep);
    }
  }

  /** The totals are those of the accounts, and consistent. */
  ghost predicate Balanced(t: Totals, items: seq<Item>) {
    && t.balances == SumBalances(AmountsIn(items))
    && t.delegated == SumDelegated(AmountsIn(items))
    && t.delVest + t.delFree == t.delegated
    && 0 <= t.delVest <= t.vesting
  }

  lemma FinalBooks(cs: seq<Candidate>, fs: seq<Filter>, succeeded: seq<bool>)
    requires MinsValid(fs) && |succeeded| == |Selection(cs, fs).toConvert|
    ensures var l := Selection(cs, fs);
      var amts := AmountsIn(l.toConvert);
      Balanced(Books(AmountsIn(l.toIgnore), Picked(amts, succeeded, true), Picked(amts, succeeded, false)), ItemsOf(cs))
  {
    hide Picked, Books, Selection, CandidateAmounts;
    var l := Selection(cs, fs);
    SelectionIsReady(cs, fs);
    SelectionKeepsAccounts(cs, fs);
    RunBooksBalance(AmountsIn(l.toIgnore), AmountsIn(l.toConvert), succeeded);
    assert AmountsIn([]) == [];
  }
}
