/** Converting accounts to vesting accounts: how much of an account vests, which accounts are converted, and the
    books kept over the conversion (`acctInfo`, the account filters, `acctConverter`). */
module Vesting {
  import opened SdkCoins

  const MONTHS_TO_START := 1
  const MONTHS_TO_END := 48
  const TO_VEST_MIN := 5_000_000

  // ---------- the split of one account ----------

  /** The amounts of an account: what it holds, what it has delegated, and how that is split. */
  datatype Amounts = Amounts(balance: int, delegated: int, total: int, toVest: int, toKeep: int, delVest: int, delFree: int)

  /** Division that truncates toward zero, as `QuoRaw` does. */
  function Quo(a: int, b: int): int
    requires b > 0
  {
    if a >= 0 then a / b else -(-a / b)
  }

  /** What vests of an amount: all but the months before the start. */
  function VestingPart(amount: int): int {
    Quo(amount * (MONTHS_TO_END - MONTHS_TO_START), MONTHS_TO_END)
  }

  /** The delegated amount is taken to be vesting first. */
  function WithDelegation(a: Amounts): Amounts {
    if a.delegated > a.toVest then a.(delVest := a.toVest, delFree := a.delegated - a.toVest)
    else a.(delVest := a.delegated, delFree := 0)
  }

  function WithToVest(a: Amounts, toVest: int): Amounts {
    WithDelegation(a.(toVest := toVest, toKeep := a.total - toVest))
  }

  function WithToKeep(a: Amounts, toKeep: int): Amounts {
    WithDelegation(a.(toKeep := toKeep, toVest := a.total - toKeep))
  }

  /** A split that adds up: nothing is created or lost, and what vests beyond the delegated amount is in the balance. */
  ghost predicate AddsUp(a: Amounts) {
    && 0 <= a.balance && 0 <= a.delegated && a.total == a.balance + a.delegated
    && 0 <= a.toVest && 0 <= a.toKeep && a.toVest + a.toKeep == a.total
    && 0 <= a.delVest <= a.toVest && 0 <= a.delFree && a.delVest + a.delFree == a.delegated
    && a.toVest - a.delVest <= a.balance
  }

  /** Any amount to vest within the total gives a split that adds up. */
  lemma SplitAddsUp(a: Amounts, toVest: int)
    requires 0 <= a.balance && 0 <= a.delegated && a.total == a.balance + a.delegated
    requires 0 <= toVest <= a.total
    ensures AddsUp(WithToVest(a, toVest))
  {
  }

  /** Giving the amount to keep is giving the complementary amount to vest. */
  lemma KeepOrVest(a: Amounts, toKeep: int)
    ensures WithToKeep(a, toKeep) == WithToVest(a, a.total - toKeep)
  {
  }

  /** What is kept of a non-negative amount is a forty-eighth of it, rounded up. */
  lemma KeptIsCeiling(amount: int)
    requires amount >= 0
    ensures 0 <= VestingPart(amount) <= amount
    ensures var kept := amount - VestingPart(amount);
      48 * (kept - 1) < amount <= 48 * kept || amount == kept == 0
  {
  }

  datatype Reason = NotListed | BelowMinimum | TooLittleToVest | Failed(failure: Failure)
  datatype Failure = HoldsNotCancelled | HashOnHold | NotCreated

  class AcctInfo {
    const addr: Account
    var amounts: Amounts
    var converted: bool
    /** Why the account is not converted (`reason`). */
    var skippedFor: Option<Reason>

    /** `newAcctInfo`. */
    constructor (addr: Account)
      ensures this.addr == addr && amounts == Amounts(0, 0, 0, 0, 0, 0, 0)
      ensures !converted && skippedFor.None?
    {
      this.addr := addr;
      amounts := Amounts(0, 0, 0, 0, 0, 0, 0);
      converted, skippedFor := false, None;
    }

    /** `UpdateWithToVest`. */
    method UpdateWithToVest(toVest: int)
      modifies this`amounts
      ensures amounts == WithToVest(old(amounts), toVest)
    {
      amounts := amounts.(toVest := toVest);
      amounts := amounts.(toKeep := amounts.total - toVest);
      SetDelVestFree();
    }

    /** `UpdateWithToKeep`. */
    method UpdateWithToKeep(toKeep: int)
      modifies this`amounts
      ensures amounts == WithToKeep(old(amounts), toKeep)
      ensures amounts == WithToVest(old(amounts), old(amounts).total - toKeep)
    {
      amounts := amounts.(toKeep := toKeep);
      amounts := amounts.(toVest := amounts.total - toKeep);
      SetDelVestFree();
    }

    /** `SetDelVestFree`. */
    method SetDelVestFree()
      modifies this`amounts
      ensures amounts == WithDelegation(old(amounts))
    {
      if amounts.delegated > amounts.toVest {
        amounts := amounts.(delVest := amounts.toVest);
        amounts := amounts.(delFree := amounts.delegated - amounts.toVest);
      } else {
        amounts := amounts.(delVest := amounts.delegated);
        amounts := amounts.(delFree := 0);
      }
    }
  }

  // ---------- partitions ----------

  /** The elements of xs whose decision is b, in order. */
  ghost function Picked<T>(xs: seq<T>, keep: seq<bool>, b: bool): seq<T>
    requires |keep| == |xs|
  {
    if xs == [] then []
    else
      var n := |xs| - 1;
      Picked(xs[..n], keep[..n], b) + if keep[n] == b then [xs[n]] else []
  }

  lemma PickedNothing<T>(xs: seq<T>, keep: seq<bool>)
    requires |keep| == |xs|
    ensures Picked(xs[..0], keep[..0], true) == [] == Picked(xs[..0], keep[..0], false)
  {
  }

  lemma PickedNext<T>(xs: seq<T>, keep: seq<bool>, i: nat, b: bool)
    requires i < |xs| == |keep|
    ensures Picked(xs[..i+1], keep[..i+1], b) == Picked(xs[..i], keep[..i], b) + if keep[i] == b then [xs[i]] else []
  {
    assert xs[..i+1][..i] == xs[..i] && keep[..i+1][..i] == keep[..i];
  }

  /** Every element is in exactly one of the two lists. */
  lemma {:induction false} PickedPartition<T>(xs: seq<T>, keep: seq<bool>)
    requires |keep| == |xs|
    ensures multiset(Picked(xs, keep, true)) + multiset(Picked(xs, keep, false)) == multiset(xs)
  {
    if xs != [] {
      var n := |xs| - 1;
      var kept, dropped := Picked(xs[..n], keep[..n], true), Picked(xs[..n], keep[..n], false);
      PickedPartition(xs[..n], keep[..n]);
      assert multiset(xs) == multiset(xs[..n]) + multiset{xs[n]} by {
        assert xs == xs[..n] + [xs[n]];
      }
      if keep[n] {
        assert Picked(xs, keep, true) == kept + [xs[n]] && Picked(xs, keep, false) == dropped;
      } else {
        assert Picked(xs, keep, true) == kept && Picked(xs, keep, false) == dropped + [xs[n]];
      }
    }
  }

  /** What is picked was there, with that decision. */
  lemma {:induction false} PickedFrom<T>(xs: seq<T>, keep: seq<bool>, b: bool, k: nat) returns (j: nat)
    requires |keep| == |xs| && k < |Picked(xs, keep, b)|
    ensures j < |xs| && keep[j] == b && Picked(xs, keep, b)[k] == xs[j]
  {
    var n := |xs| - 1;
    if k < |Picked(xs[..n], keep[..n], b)| {
      j := PickedFrom(xs[..n], keep[..n], b, k);
    } else {
      j := n;
    }
  }

  /** What is picked comes in the order in which it was there. */
  lemma {:induction false} PickedInOrder<T>(xs: seq<T>, keep: seq<bool>, b: bool, i: nat, j: nat) returns (p: nat, q: nat)
    requires |keep| == |xs| && i < j < |Picked(xs, keep, b)|
    ensures p < q < |xs| && keep[p] == b && keep[q] == b
    ensures Picked(xs, keep, b)[i] == xs[p] && Picked(xs, keep, b)[j] == xs[q]
  {
    var n := |xs| - 1;
    if j < |Picked(xs[..n], keep[..n], b)| {
      p, q := PickedInOrder(xs[..n], keep[..n], b, i, j);
    } else {
      p := PickedFrom(xs[..n], keep[..n], b, i);
      q := n;
    }
  }

  // ---------- the testnet filter ----------

  ghost function Addrs(accts: seq<AcctInfo>): (r: seq<Account>)
    ensures |r| == |accts| && forall i :: 0 <= i < |r| ==> r[i] == accts[i].addr
  {
    seq(|accts|, i requires 0 <= i < |accts| => accts[i].addr)
  }

  /** An address is kept if it is listed, the first time it comes up. */
  ghost function TestnetDecisions(listed: seq<Account>, addrs: seq<Account>): (r: seq<bool>)
    ensures |r| == |addrs|
    ensures forall i :: 0 <= i < |addrs| ==> (r[i] <==> addrs[i] in listed && addrs[i] !in addrs[..i])
  {
    seq(|addrs|, i requires 0 <= i < |addrs| => addrs[i] in listed && addrs[i] !in addrs[..i])
  }

  /** At most one entry is kept for each address, and only listed addresses are. */
  lemma {:induction false} TestnetKeepsOnce(listed: seq<Account>, accts: seq<AcctInfo>, i: nat)
    requires i <= |accts|
    ensures var kept := Picked(accts[..i], TestnetDecisions(listed, Addrs(accts))[..i], true);
      && (forall j :: 0 <= j < |kept| ==> kept[j].addr in listed && kept[j].addr in Addrs(accts)[..i])
      && (forall j, k :: 0 <= j < k < |kept| ==> kept[j].addr != kept[k].addr)
  {
    if i > 0 {
      TestnetKeepsOnce(listed, accts, i - 1);
      PickedNext(accts, TestnetDecisions(listed, Addrs(accts)), i - 1, true);
      assert Addrs(accts)[..i] == Addrs(accts)[..i-1] + [accts[i-1].addr];
    }
  }

  /** `testnetAcctFilter`: keeps the listed addresses, once each, and moves the others behind those ignored before. */
  method TestnetAcctFilter(addrs: seq<Account>, toConvertOrig: seq<AcctInfo>, toIgnoreOrig: seq<AcctInfo>)
    returns (toConvertNew: seq<AcctInfo>, toIgnoreNew: seq<AcctInfo>)
    modifies (set a | a in toConvertOrig)`skippedFor
    ensures var keep := TestnetDecisions(addrs, Addrs(toConvertOrig));
      && toConvertNew == Picked(toConvertOrig, keep, true)
      && toIgnoreNew == toIgnoreOrig + Picked(toConvertOrig, keep, false)
  {
    hide Picked;
    toIgnoreNew := toIgnoreOrig;
    toConvertNew := [];
    var keepAddr: map<Account, bool> := map a | a in addrs :: true;
    ghost var keep := TestnetDecisions(addrs, Addrs(toConvertOrig));
    PickedNothing(toConvertOrig, keep);
    for i := 0 to |toConvertOrig|
      invariant toConvertNew == Picked(toConvertOrig[..i], keep[..i], true)
      invariant toIgnoreNew == toIgnoreOrig + Picked(toConvertOrig[..i], keep[..i], false)
      invariant forall a :: (a in keepAddr && keepAddr[a]) <==> a in addrs && a !in Addrs(toConvertOrig)[..i]
    {
      var acct := toConvertOrig[i];
      PickedNext(toConvertOrig, keep, i, true);
      PickedNext(toConvertOrig, keep, i, false);
      assert Addrs(toConvertOrig)[..i+1] == Addrs(toConvertOrig)[..i] + [acct.addr];
      if !(acct.addr in keepAddr && keepAddr[acct.addr]) {
        acct.skippedFor := Some(NotListed);
        toIgnoreNew := toIgnoreNew + [acct];
      } else {
        toConvertNew := toConvertNew + [acct];
        keepAddr := keepAddr[acct.addr := false];
      }
    }
    assert toConvertOrig[..|toConvertOrig|] == toConvertOrig && keep[..|keep|] == keep;
  }

  // ---------- the mainnet filter ----------

  /** The amounts of an account after the filter: with a minimum to leave unlocked, only the rest is split. */
  ghost function MainnetAmounts(mins: map<Account, int>, addr: Account, a: Amounts): Amounts {
    if addr in mins && a.total > mins[addr] then WithToVest(a, VestingPart(a.total - mins[addr])) else a
  }

  ghost predicate MainnetKeeps(mins: map<Account, int>, addr: Account, a: Amounts) {
    addr in mins ==> a.total > mins[addr] && VestingPart(a.total - mins[addr]) >= TO_VEST_MIN
  }

  ghost function MainnetDecisions(mins: map<Account, int>, addrs: seq<Account>, was: seq<Amounts>): (r: seq<bool>)
    requires |was| == |addrs|
    ensures |r| == |addrs| && forall i :: 0 <= i < |r| ==> r[i] == MainnetKeeps(mins, addrs[i], was[i])
  {
    seq(|addrs|, i requires 0 <= i < |addrs| => MainnetKeeps(mins, addrs[i], was[i]))
  }

  /** An account that is kept and has a minimum keeps at least that minimum unlocked and vests at least 5,000,000;
      its split still adds up. */
  lemma MainnetKeepsMinimum(mins: map<Account, int>, addr: Account, a: Amounts)
    requires AddsUp(a) && MainnetKeeps(mins, addr, a)
    requires addr in mins && mins[addr] >= 0
    ensures var b := MainnetAmounts(mins, addr, a);
      AddsUp(b) && b.toKeep >= mins[addr] && b.toVest >= TO_VEST_MIN && b.total == a.total
  {
    KeptIsCeiling(a.total - mins[addr]);
    SplitAddsUp(a, VestingPart(a.total - mins[addr]));
  }

  /** The amounts of the accounts. */
  ghost function AllAmounts(accts: seq<AcctInfo>): (r: seq<Amounts>)
    reads accts
    ensures |r| == |accts| && forall i :: 0 <= i < |r| ==> r[i] == accts[i].amounts
  {
    seq(|accts|, i requires 0 <= i < |accts| reads accts => accts[i].amounts)
  }

  /** `mainnetAcctFilter`: leaves accounts without a minimum alone, splits the others again above their minimum,
      and moves those with too little to vest behind those ignored before. */
  method MainnetAcctFilter(minUnlockedAmts: map<Account, int>, toConvertOrig: seq<AcctInfo>, toIgnoreOrig: seq<AcctInfo>)
    returns (toConvertNew: seq<AcctInfo>, toIgnoreNew: seq<AcctInfo>)
    modifies (set a | a in toConvertOrig)`amounts, (set a | a in toConvertOrig)`skippedFor
    ensures var keep := MainnetDecisions(minUnlockedAmts, Addrs(toConvertOrig), old(AllAmounts(toConvertOrig)));
      && toConvertNew == Picked(toConvertOrig, keep, true)
      && toIgnoreNew == toIgnoreOrig + Picked(toConvertOrig, keep, false)
    ensures forall i :: 0 <= i < |toConvertOrig| ==>
              toConvertOrig[i].amounts ==
              MainnetAmounts(minUnlockedAmts, toConvertOrig[i].addr, old(toConvertOrig[i].amounts))
  {
    hide Picked, MainnetAmounts, MainnetKeeps, AllAmounts;
    toIgnoreNew := toIgnoreOrig;
    toConvertNew := [];
    ghost var was := AllAmounts(toConvertOrig);
    ghost var keep := MainnetDecisions(minUnlockedAmts, Addrs(toConvertOrig), was);
    PickedNothing(toConvertOrig, keep);
    for i := 0 to |toConvertOrig|
      invariant toConvertNew == Picked(toConvertOrig[..i], keep[..i], true)
      invariant toIgnoreNew == toIgnoreOrig + Picked(toConvertOrig[..i], keep[..i], false)
      invariant forall k :: 0 <= k < |toConvertOrig| ==>
                  toConvertOrig[k].amounts ==
                  if toConvertOrig[k] in toConvertOrig[..i]
                  then MainnetAmounts(minUnlockedAmts, toConvertOrig[k].addr, was[k]) else was[k]
    {
      var acct := toConvertOrig[i];
      PickedNext(toConvertOrig, keep, i, true);
      PickedNext(toConvertOrig, keep, i, false);
      assert toConvertOrig[..i+1] == toConvertOrig[..i] + [acct];
      var ignored := MainnetStep(minUnlockedAmts, acct, was[i]);
      if ignored {
        toIgnoreNew := toIgnoreNew + [acct];
      } else {
        toConvertNew := toConvertNew + [acct];
      }
    }
    assert toConvertOrig[..|toConvertOrig|] == toConvertOrig && keep[..|keep|] == keep;
  }

  /** The loop body of `mainnetAcctFilter`. Filtering an account twice is filtering it once. */
  method MainnetStep(minUnlockedAmts: map<Account, int>, acct: AcctInfo, ghost was: Amounts) returns (ignored: bool)
    requires acct.amounts == was || acct.amounts == MainnetAmounts(minUnlockedAmts, acct.addr, was)
    modifies acct`amounts, acct`skippedFor
    ensures acct.amounts == MainnetAmounts(minUnlockedAmts, acct.addr, was)
    ensures ignored <==> !MainnetKeeps(minUnlockedAmts, acct.addr, was)
  {
    hide VestingPart;
    if acct.addr !in minUnlockedAmts {
      return false;
    }
    var minUnlockedAmt := minUnlockedAmts[acct.addr];
    if acct.amounts.total <= minUnlockedAmt {
      acct.skippedFor := Some(BelowMinimum);
      return true;
    }
    acct.UpdateWithToVest(VestingPart(acct.amounts.total - minUnlockedAmt));
    if TO_VEST_MIN > acct.amounts.toVest {
      acct.skippedFor := Some(TooLittleToVest);
      return true;
    }
    return false;
  }
}
