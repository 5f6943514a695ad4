/** The additional fees that messages cost, and how they are split between the fee module and recipients
    (`SplitCoinByBips`, `MsgFeesDistribution`, `CalculateAdditionalFeesToBePaid`). */
module MsgFees {
  import opened SdkCoins
  import opened CoinMaps
  import opened FeeMeter

  const MAX_BIPS := 10_000
  const MAX_INT64 := 0x7FFF_FFFF_FFFF_FFFF

  /** The recipient's and the module's part of n. The percentage has four decimals, so the fixed-point
      product is exact before it is truncated. None stands for an error return (too many bips) and for
      the panics of an amount that does not fit in an int64 or has a negative part. */
  function SplitCoinByBips(n: int, bips: nat): (r: Option<(int, int)>)
    ensures r.Some? <==> bips == MAX_BIPS || (bips < MAX_BIPS && 0 <= n <= MAX_INT64)
    ensures r.Some? ==> r.value.0 + r.value.1 == n
    ensures r.Some? && n >= 0 ==>
              && 0 <= r.value.0 <= n
              && r.value.0 * MAX_BIPS <= n * bips < (r.value.0 + 1) * MAX_BIPS
  {
    if bips > MAX_BIPS then None
    else if bips == MAX_BIPS then Some((n, 0))
    else if n < 0 || n > MAX_INT64 then None
    else
      var share := n * bips / MAX_BIPS;
      ShareWithin(n, bips);
      Some((share, n - share))
  }

  lemma ShareWithin(n: int, bips: nat)
    requires bips <= MAX_BIPS && n >= 0
    ensures 0 <= n * bips <= n * MAX_BIPS
  {
    assert n * (MAX_BIPS - bips) >= 0;
  }

  /** A fee due for a message. */
  datatype FeeDue = FeeDue(denom: Denom, amount: int, bips: nat, recipient: string)

  /** A message, with the fee it assesses itself if it is of the custom-fee type. Its bips are None if they
      do not parse to a number of at most 10,000. */
  datatype Msg = Msg(typeURL: string, assess: Option<Assessment>)
  datatype Assessment = Assessment(denom: Denom, amount: int, bips: Option<nat>, recipient: string)

  /** The fee schedule, the denom of dollar mils, and the parameters of its conversion to the fee denom. */
  datatype Schedule = Schedule(fees: map<string, FeeDue>, usdDenom: Denom, conversionDenom: Denom, nhashPerUsdMil: nat)

  /** `ConvertDenomToHash`. */
  function ConvertDenomToHash(s: Schedule, denom: Denom, amount: int): Option<(Denom, int)> {
    if denom == s.usdDenom then Some((s.conversionDenom, amount * s.nhashPerUsdMil))
    else if denom == s.conversionDenom then Some((denom, amount))
    else None
  }

  /** The fees due for one message, None if its own assessment cannot be converted. */
  function DueFor(s: Schedule, msg: Msg): Option<seq<FeeDue>> {
    var scheduled := if msg.typeURL in s.fees then [s.fees[msg.typeURL]] else [];
    if msg.assess.None? then Some(scheduled)
    else
      var a := msg.assess.value;
      var coin := ConvertDenomToHash(s, a.denom, a.amount);
      if coin.None? || a.bips.None? then None
      else Some(scheduled + [FeeDue(coin.value.0, coin.value.1, a.bips.value, a.recipient)])
  }

  /** A due that can be distributed. */
  predicate Payable(due: FeeDue) {
    due.amount <= 0 || due.recipient == "" || SplitCoinByBips(due.amount, due.bips).Some?
  }

  /** The amount of denom d that the dues come to; only positive dues count. */
  ghost function DueTotal(dues: seq<FeeDue>, d: Denom): int {
    if dues == [] then 0
    else
      var last := dues[|dues|-1];
      DueTotal(dues[..|dues|-1], d) + if last.denom == d && last.amount > 0 then last.amount else 0
  }

  /** All the dues of the messages, in order; None if some message's assessment is no good. */
  ghost function DuesOf(s: Schedule, msgs: seq<Msg>): Option<seq<FeeDue>> {
    if msgs == [] then Some([])
    else
      var before, last := DuesOf(s, msgs[..|msgs|-1]), DueFor(s, msgs[|msgs|-1]);
      if before.None? || last.None? then None else Some(before.value + last.value)
  }

  /** The fields of a `MsgFeesDistribution`. */
  datatype Parts = Parts(total: Coins, moduleFees: Coins, recipients: map<string, Coins>)

  const NOTHING := Parts(NoCoins, NoCoins, map[])

  /** The total is what goes to the module plus what goes to the recipients, in every denom. */
  ghost predicate Sound(p: Parts) {
    && Valid(p.moduleFees) && AllCoinsValid(p.recipients)
    && "" !in p.recipients
    && SharesAll(p)
  }

  ghost predicate SharesAll(p: Parts) {
    forall d :: Amt(p.total, d) == Amt(p.moduleFees, d) + MapTotal(p.recipients, d)
  }

  /** The parts after one more due: all to the module, or split with the recipient. */
  ghost function Increased(p: Parts, due: FeeDue): Parts
    requires Payable(due)
  {
    if due.amount <= 0 then p
    else
      var total := Add(p.total, OneCoin(due.denom, due.amount));
      if due.recipient == "" then
        Parts(total, Add(p.moduleFees, OneCoin(due.denom, due.amount)), p.recipients)
      else
        var split := SplitCoinByBips(due.amount, due.bips).value;
        Parts(total, Add(p.moduleFees, OneCoin(due.denom, split.1)),
              p.recipients[due.recipient := Add(Get(p.recipients, due.recipient), OneCoin(due.denom, split.0))])
  }

  lemma AddedShares(p: Parts, total: Coins, payout: Coins, recipient: string, c: Coins)
    requires SharesAll(p)
    requires forall d :: Amt(total, d) == Amt(p.total, d) + Amt(payout, d) + Amt(c, d)
    ensures SharesAll(Parts(total, Add(p.moduleFees, payout),
                            p.recipients[recipient := Add(Get(p.recipients, recipient), c)]))
  {
    var recipients := p.recipients[recipient := Add(Get(p.recipients, recipient), c)];
    forall d ensures Amt(total, d) == Amt(Add(p.moduleFees, payout), d) + MapTotal(recipients, d) {
      TotalAdd(p.recipients, recipient, c, d);
    }
  }

  lemma AddedSound(p: Parts, total: Coins, payout: Coins, recipient: string, c: Coins)
    requires Sound(p) && Valid(payout) && Valid(c) && recipient != ""
    requires forall d :: Amt(total, d) == Amt(p.total, d) + Amt(payout, d) + Amt(c, d)
    ensures Sound(Parts(total, Add(p.moduleFees, payout),
                        p.recipients[recipient := Add(Get(p.recipients, recipient), c)]))
  {
    AddedShares(p, total, payout, recipient, c);
    AddValid(Get(p.recipients, recipient), c);
    AddValid(p.moduleFees, payout);
  }

  lemma IncreasedSound(p: Parts, due: FeeDue)
    requires Sound(p) && Payable(due)
    ensures Sound(Increased(p, due))
  {
    if due.amount > 0 && due.recipient != "" {
      var split := SplitCoinByBips(due.amount, due.bips).value;
      AddedSound(p, Add(p.total, OneCoin(due.denom, due.amount)), OneCoin(due.denom, split.1),
                 due.recipient, OneCoin(due.denom, split.0));
    } else if due.amount > 0 {
      AddValid(p.moduleFees, OneCoin(due.denom, due.amount));
    }
  }

  ghost predicate AllPayable(dues: seq<FeeDue>) {
    forall i :: 0 <= i < |dues| ==> Payable(dues[i])
  }

  lemma PayableNext(dues: seq<FeeDue>, due: FeeDue)
    requires AllPayable(dues) && Payable(due)
    ensures AllPayable(dues + [due])
    ensures Collected(dues + [due]) == Increased(Collected(dues), due)
  {
    assert (dues + [due])[..|dues|] == dues;
  }

  lemma SpoiledBy(before: seq<FeeDue>, dues: seq<FeeDue>, j: nat)
    requires j < |dues| && !Payable(dues[j])
    ensures !AllPayable(before + dues)
  {
    assert (before + dues)[|before| + j] == dues[j];
  }

  /** The parts after all of the dues. */
  ghost function Collected(dues: seq<FeeDue>): Parts
    requires AllPayable(dues)
  {
    if dues == [] then NOTHING else Increased(Collected(dues[..|dues|-1]), dues[|dues|-1])
  }

  /** However many dues there are, they add up to the total, and module and recipients share all of it. */
  lemma {:induction false} CollectedSound(dues: seq<FeeDue>)
    requires AllPayable(dues)
    ensures Sound(Collected(dues))
    ensures forall d :: Amt(Collected(dues).total, d) == DueTotal(dues, d)
  {
    if dues == [] {
      assert NOTHING.recipients.Keys == {};
    } else {
      CollectedSound(dues[..|dues|-1]);
      IncreasedSound(Collected(dues[..|dues|-1]), dues[|dues|-1]);
    }
  }

  /** What the dues give recipient r of denom d: of every positive due that names it, the bips' part rounded down. */
  ghost function ShareTotal(dues: seq<FeeDue>, r: string, d: Denom): int {
    if dues == [] then 0
    else
      var last := dues[|dues|-1];
      ShareTotal(dues[..|dues|-1], r, d) +
      if last.recipient == r && last.denom == d && last.amount > 0 then last.amount * last.bips / MAX_BIPS else 0
  }

  /** A recipient collects the sum of its shares. */
  lemma {:induction false} CollectedShares(dues: seq<FeeDue>, r: string, d: Denom)
    requires AllPayable(dues) && r != ""
    ensures Amt(Get(Collected(dues).recipients, r), d) == ShareTotal(dues, r, d)
  {
    if dues != [] {
      var init, last := dues[..|dues|-1], dues[|dues|-1];
      CollectedShares(init, r, d);
      if last.amount > 0 && last.recipient == r {
        ShareRoundedDown(last.amount, last.bips);
      }
    }
  }

  /** Only recipients that a due names collect anything. */
  lemma {:induction false} CollectedNamed(dues: seq<FeeDue>, r: string)
    requires AllPayable(dues) && r in Collected(dues).recipients
    ensures exists i :: 0 <= i < |dues| && dues[i].recipient == r
  {
    var init, last := dues[..|dues|-1], dues[|dues|-1];
    if last.recipient != r {
      CollectedNamed(init, r);
      var i :| 0 <= i < |init| && init[i].recipient == r;
      assert dues[i] == init[i];
    }
  }

  lemma ShareRoundedDown(n: int, bips: nat)
    requires n >= 0 && SplitCoinByBips(n, bips).Some?
    ensures SplitCoinByBips(n, bips).value.0 == n * bips / MAX_BIPS
  {
  }

  lemma {:induction false} DuesPrefix(s: Schedule, msgs: seq<Msg>, i: nat)
    requires i <= |msgs| && DuesOf(s, msgs).Some?
    ensures DuesOf(s, msgs[..i]).Some? && DuesOf(s, msgs[..i]).value <= DuesOf(s, msgs).value
  {
    if i == |msgs| {
      assert msgs[..i] == msgs;
    } else {
      DuesPrefix(s, msgs[..|msgs|-1], i);
      assert msgs[..|msgs|-1][..i] == msgs[..i];
    }
  }

  /** A message whose dues are no good, or cannot all be split, spoils the whole calculation. */
  lemma SpoiledByPrefix(s: Schedule, msgs: seq<Msg>, i: nat)
    requires i <= |msgs|
    requires DuesOf(s, msgs[..i]).None? || !AllPayable(DuesOf(s, msgs[..i]).value)
    ensures DuesOf(s, msgs).None? || !AllPayable(DuesOf(s, msgs).value)
  {
    if DuesOf(s, msgs).Some? {
      DuesPrefix(s, msgs, i);
      var part := DuesOf(s, msgs[..i]).value;
      var j :| 0 <= j < |part| && !Payable(part[j]);
      assert DuesOf(s, msgs).value[j] == part[j];
    }
  }

  lemma {:induction false} DueTotalConcat(x: seq<FeeDue>, y: seq<FeeDue>, d: Denom)
    ensures DueTotal(x + y, d) == DueTotal(x, d) + DueTotal(y, d)
  {
    if y == [] {
      assert x + y == x;
    } else {
      DueTotalConcat(x, y[..|y|-1], d);
      assert (x + y)[..|x + y|-1] == x + y[..|y|-1];
    }
  }

  lemma PayableConcat(x: seq<FeeDue>, y: seq<FeeDue>)
    ensures AllPayable(x + y) <==> AllPayable(x) && AllPayable(y)
  {
    if AllPayable(x + y) {
      assert forall i :: 0 <= i < |x| ==> x[i] == (x + y)[i];
      assert forall i :: 0 <= i < |y| ==> y[i] == (x + y)[|x| + i];
    }
  }

  lemma {:induction false} ShareTotalConcat(x: seq<FeeDue>, y: seq<FeeDue>, r: string, d: Denom)
    ensures ShareTotal(x + y, r, d) == ShareTotal(x, r, d) + ShareTotal(y, r, d)
  {
    if y == [] {
      assert x + y == x;
    } else {
      ShareTotalConcat(x, y[..|y|-1], r, d);
      assert (x + y)[..|x + y|-1] == x + y[..|y|-1];
    }
  }

  // ---------- what messages cost, from the schedule and the messages alone ----------

  /** An amount that can go in part to the recipient. */
  predicate CanSplit(amount: int, bips: nat, recipient: string) {
    amount <= 0 || recipient == "" || bips == 10_000 || (bips < 10_000 && amount <= MAX_INT64)
  }

  /** What an assessment comes to in the conversion denom: dollar mils are multiplied by their price. */
  function Assessed(s: Schedule, a: Assessment): int {
    if a.denom == s.usdDenom then a.amount * s.nhashPerUsdMil else a.amount
  }

  /** The fees of a message can be calculated: what is scheduled for its type can be split; and what it assesses itself is
      in dollar mils or in the conversion denom, with proper bips, and can be split. */
  predicate Calculable(s: Schedule, msg: Msg) {
    && (msg.typeURL in s.fees ==>
          var due := s.fees[msg.typeURL]; CanSplit(due.amount, due.bips, due.recipient))
    && (msg.assess.Some? ==>
          var a := msg.assess.value;
          && (a.denom == s.usdDenom || a.denom == s.conversionDenom)
          && a.bips.Some? && CanSplit(Assessed(s, a), a.bips.value, a.recipient))
  }

  /** What a message costs in denom d: the fee scheduled for its type, and what it assesses itself. */
  function CostOf(s: Schedule, msg: Msg, d: Denom): int {
    (if msg.typeURL in s.fees && s.fees[msg.typeURL].denom == d && s.fees[msg.typeURL].amount > 0
     then s.fees[msg.typeURL].amount else 0)
    + if msg.assess.Some? && d == s.conversionDenom && Assessed(s, msg.assess.value) > 0
      then Assessed(s, msg.assess.value) else 0
  }

  /** What a message gives recipient r in denom d: of each fee that names it, its bips' part rounded down. */
  function ShareIn(s: Schedule, msg: Msg, r: string, d: Denom): int {
    (if msg.typeURL in s.fees && s.fees[msg.typeURL].recipient == r && s.fees[msg.typeURL].denom == d &&
        s.fees[msg.typeURL].amount > 0
     then s.fees[msg.typeURL].amount * s.fees[msg.typeURL].bips / 10_000 else 0)
    + if msg.assess.Some? && msg.assess.value.bips.Some? && msg.assess.value.recipient == r && d == s.conversionDenom &&
         Assessed(s, msg.assess.value) > 0
      then Assessed(s, msg.assess.value) * msg.assess.value.bips.value / 10_000 else 0
  }

  ghost function CostOfAll(s: Schedule, msgs: seq<Msg>, d: Denom): int {
    if msgs == [] then 0 else CostOfAll(s, msgs[..|msgs|-1], d) + CostOf(s, msgs[|msgs|-1], d)
  }

  ghost function SharesInAll(s: Schedule, msgs: seq<Msg>, r: string, d: Denom): int {
    if msgs == [] then 0 else SharesInAll(s, msgs[..|msgs|-1], r, d) + ShareIn(s, msgs[|msgs|-1], r, d)
  }

  ghost predicate AllCalculable(s: Schedule, msgs: seq<Msg>) {
    forall i :: 0 <= i < |msgs| ==> Calculable(s, msgs[i])
  }

  lemma OnePayable(due: FeeDue)
    ensures AllPayable([due]) <==> CanSplit(due.amount, due.bips, due.recipient)
  {
    assert AllPayable([due]) <==> Payable([due][0]);
  }

  lemma DueForMeans(s: Schedule, msg: Msg)
    ensures DueFor(s, msg).Some? && AllPayable(DueFor(s, msg).value) <==> Calculable(s, msg)
  {
    var scheduled: seq<FeeDue> := if msg.typeURL in s.fees then [s.fees[msg.typeURL]] else [];
    if DueFor(s, msg).Some? && msg.assess.Some? {
      var a := msg.assess.value;
      var own := FeeDue(s.conversionDenom, Assessed(s, a), a.bips.value, a.recipient);
      assert DueFor(s, msg).value == scheduled + [own];
      PayableConcat(scheduled, [own]);
      OnePayable(own);
    }
    if msg.typeURL in s.fees {
      OnePayable(s.fees[msg.typeURL]);
    }
  }

  lemma OneDue(due: FeeDue, r: string, d: Denom)
    ensures DueTotal([due], d) == if due.denom == d && due.amount > 0 then due.amount else 0
    ensures ShareTotal([due], r, d) ==
            if due.recipient == r && due.denom == d && due.amount > 0 then due.amount * due.bips / MAX_BIPS else 0
  {
    assert [due][..0] == [];
  }

  lemma DueForCosts(s: Schedule, msg: Msg, r: string, d: Denom)
    requires DueFor(s, msg).Some?
    ensures DueTotal(DueFor(s, msg).value, d) == CostOf(s, msg, d)
    ensures ShareTotal(DueFor(s, msg).value, r, d) == ShareIn(s, msg, r, d)
  {
    var scheduled: seq<FeeDue> := if msg.typeURL in s.fees then [s.fees[msg.typeURL]] else [];
    if msg.typeURL in s.fees {
      OneDue(s.fees[msg.typeURL], r, d);
    }
    if msg.assess.Some? {
      var a := msg.assess.value;
      var own := FeeDue(s.conversionDenom, Assessed(s, a), a.bips.value, a.recipient);
      assert DueFor(s, msg).value == scheduled + [own];
      DueTotalConcat(scheduled, [own], d);
      ShareTotalConcat(scheduled, [own], r, d);
      OneDue(own, r, d);
    }
  }

  /** The dues of the messages can be calculated exactly if those of every message can. */
  lemma {:induction false} DuesMean(s: Schedule, msgs: seq<Msg>)
    ensures DuesOf(s, msgs).Some? && AllPayable(DuesOf(s, msgs).value) <==> AllCalculable(s, msgs)
  {
    hide Calculable, DueFor;
    if msgs != [] {
      var init, last := msgs[..|msgs|-1], msgs[|msgs|-1];
      DuesMean(s, init);
      DueForMeans(s, last);
      if DuesOf(s, msgs).Some? {
        PayableConcat(DuesOf(s, init).value, DueFor(s, last).value);
      }
      assert AllCalculable(s, msgs) <==> AllCalculable(s, init) && Calculable(s, last);
    }
  }

  /** The dues come to what the messages cost and to what they give each recipient. */
  lemma {:induction false} DuesCost(s: Schedule, msgs: seq<Msg>, r: string, d: Denom)
    requires DuesOf(s, msgs).Some?
    ensures DueTotal(DuesOf(s, msgs).value, d) == CostOfAll(s, msgs, d)
    ensures ShareTotal(DuesOf(s, msgs).value, r, d) == SharesInAll(s, msgs, r, d)
  {
    hide CostOf, ShareIn, DueFor;
    if msgs != [] {
      var init, last := msgs[..|msgs|-1], msgs[|msgs|-1];
      DuesCost(s, init, r, d);
      DueForCosts(s, last, r, d);
      DueTotalConcat(DuesOf(s, init).value, DueFor(s, last).value, d);
      ShareTotalConcat(DuesOf(s, init).value, DueFor(s, last).value, r, d);
    }
  }

  /** What is collected for the messages, from the schedule and the messages alone. */
  lemma CollectedCosts(s: Schedule, msgs: seq<Msg>)
    requires DuesOf(s, msgs).Some? && AllPayable(DuesOf(s, msgs).value)
    ensures forall d :: Amt(Collected(DuesOf(s, msgs).value).total, d) == CostOfAll(s, msgs, d)
    ensures forall r, d :: r != "" ==>
                             Amt(Get(Collected(DuesOf(s, msgs).value).recipients, r), d) == SharesInAll(s, msgs, r, d)
  {
    hide Collected, AllPayable, DueTotal, ShareTotal, CostOfAll, SharesInAll, DuesOf;
    var dues := DuesOf(s, msgs).value;
    CollectedSound(dues);
    forall d ensures DueTotal(dues, d) == CostOfAll(s, msgs, d) {
      DuesCost(s, msgs, "", d);
    }
    forall r, d | r != "" ensures Amt(Get(Collected(dues).recipients, r), d) == SharesInAll(s, msgs, r, d) {
      CollectedShares(dues, r, d);
      DuesCost(s, msgs, r, d);
    }
  }

  /** `MsgFeesDistribution`. */
  class Distribution {
    var total: Coins
    var moduleFees: Coins
    var recipients: map<string, Coins>

    ghost function Value(): Parts
      reads this
    {
      Parts(total, moduleFees, recipients)
    }

    constructor ()
      ensures Value() == NOTHING
    {
      total, moduleFees, recipients := NoCoins, NoCoins, map[];
    }

    /** `Increase`. When a split is refused, the total has already grown. */
    method Increase(due: FeeDue) returns (ok: bool)
      modifies this
      ensures ok <==> Payable(due)
      ensures ok ==> Value() == Increased(old(Value()), due)
      ensures !ok ==> Value() == old(Value()).(total := Add(old(total), OneCoin(due.denom, due.amount)))
    {
      if due.amount <= 0 {
        return true;
      }
      var coin := OneCoin(due.denom, due.amount);
      total := Add(total, coin);
      if |due.recipient| == 0 {
        moduleFees := Add(moduleFees, coin);
        return true;
      }
      var split := SplitCoinByBips(due.amount, due.bips);
      if split.None? {
        return false;
      }
      var recipientCoin, feePayoutCoin := OneCoin(due.denom, split.value.0), OneCoin(due.denom, split.value.1);
      recipients := recipients[due.recipient := Add(Get(recipients, due.recipient), recipientCoin)];
      if feePayoutCoin != NoCoins {
        moduleFees := Add(moduleFees, feePayoutCoin);
      } else {
        SameAmounts(Add(moduleFees, NoCoins), moduleFees);
      }
      return true;
    }

    /** The fees of one message, one after the other. */
    method IncreaseAll(ghost before: seq<FeeDue>, dues: seq<FeeDue>) returns (ok: bool)
      requires AllPayable(before) && Value() == Collected(before)
      modifies this
      ensures ok <==> AllPayable(before + dues)
      ensures ok ==> Value() == Collected(before + dues)
    {
      hide Collected, Increased, AllPayable, Payable;
      assert before + dues[..0] == before;
      for j := 0 to |dues|
        invariant AllPayable(before + dues[..j])
        invariant Value() == Collected(before + dues[..j])
      {
        var paid := Increase(dues[j]);
        if !paid {
          SpoiledBy(before, dues, j);
          return false;
        }
        PayableNext(before + dues[..j], dues[j]);
        assert before + dues[..j+1] == before + dues[..j] + [dues[j]];
      }
      assert dues[..|dues|] == dues;
      ok := true;
    }
  }

  /** `CalculateAdditionalFeesToBePaid`: what the messages cost, already split. Fails exactly when an
      assessment is no good or a due cannot be split. */
  method CalculateAdditionalFees(s: Schedule, msgs: seq<Msg>) returns (ok: bool, dist: Distribution)
    ensures fresh(dist)
    ensures ok <==> DuesOf(s, msgs).Some? && AllPayable(DuesOf(s, msgs).value)
    ensures ok ==> dist.Value() == Collected(DuesOf(s, msgs).value)
    ensures ok <==> AllCalculable(s, msgs)
    ensures ok ==> forall d :: Amt(dist.total, d) == CostOfAll(s, msgs, d)
    ensures ok ==> forall r, d :: r != "" ==> Amt(Get(dist.recipients, r), d) == SharesInAll(s, msgs, r, d)
    ensures ok ==> Sound(dist.Value())
  {
    hide Calculable, CostOfAll, SharesInAll, AllCalculable;
    DuesMean(s, msgs);
    if DuesOf(s, msgs).Some? && AllPayable(DuesOf(s, msgs).value) {
      CollectedCosts(s, msgs);
      CollectedSound(DuesOf(s, msgs).value);
    }
    dist := new Distribution();
    for i := 0 to |msgs|
      invariant fresh(dist)
      invariant DuesOf(s, msgs[..i]).Some? && AllPayable(DuesOf(s, msgs[..i]).value)
      invariant dist.Value() == Collected(DuesOf(s, msgs[..i]).value)
    {
      assert msgs[..i+1][..i] == msgs[..i];
      var dues := DueFor(s, msgs[i]);
      if dues.None? {
        SpoiledByPrefix(s, msgs, i + 1);
        return false, dist;
      }
      ok := dist.IncreaseAll(DuesOf(s, msgs[..i]).value, dues.value);
      if !ok {
        SpoiledByPrefix(s, msgs, i + 1);
        return;
      }
    }
    assert msgs[..|msgs|] == msgs;
    ok := true;
  }
}
