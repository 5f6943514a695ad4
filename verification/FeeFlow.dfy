/** How a transaction pays its fees: the base fee before its messages run, a check at each message that
    costs something, and a final sweep of the rest of the fee that also pays the recipients
    (`checkDeductBaseFee`, `consumeMsgFees`, `Invoke`, `DeductFeesDistributions`). */
module FeeFlow {
  import opened SdkCoins
  import opened CoinMaps
  import opened Ledgers
  import opened FeeKeys
  import opened FeeMeter
  import opened MsgFees
  import opened FeePayout

  datatype Tx = Tx(fee: Coins, gas: nat, payer: string, granter: Option<string>, msgs: seq<Msg>)

  /** `CalculateBaseFee`: the floor price for all of the gas. */
  function BaseFee(env: Env, tx: Tx): (r: Coins)
    ensures forall d :: Amt(r, d) == if d == env.floorDenom then env.floorPrice * tx.gas else 0
  {
    OneCoin(env.floorDenom, env.floorPrice * tx.gas)
  }

  predicate UsesGrant(tx: Tx) {
    tx.granter.Some? && tx.granter.value != tx.payer
  }

  /** The account that pays. */
  function PayerOf(tx: Tx): string {
    if UsesGrant(tx) then tx.granter.value else tx.payer
  }

  /** The permission of a granter to a grantee to use its funds for fees. */
  datatype Grant = Grant(granter: string, grantee: string)

  /** What grants have been used for, after the transaction has used one, if it does, for the fee. */
  function WithGrantUsed(used: map<Grant, Coins>, tx: Tx, fee: Coins): map<Grant, Coins> {
    if UsesGrant(tx) then
      var grant := Grant(tx.granter.value, tx.payer);
      used[grant := Add(Get(used, grant), fee)]
    else used
  }

  /** `EnsureSufficientFloorAndMsgFees`: the fee covers the base fee and the additional fees in every denom. */
  function EnsureSufficientFloorAndMsgFees(fee: Coins, floorDenom: Denom, floorPrice: nat, gas: nat,
                                           additional: Coins): (ok: bool)
    requires Valid(fee)
    ensures ok <==> forall d :: Amt(OneCoin(floorDenom, floorPrice * gas), d) + Amt(additional, d) <= Amt(fee, d)
  {
    var baseFee := if floorPrice != 0 then OneCoin(floorDenom, floorPrice * gas) else NoCoins;
    var reqTotal := Add(baseFee, additional);
    assert forall d :: Amt(baseFee, d) == Amt(OneCoin(floorDenom, floorPrice * gas), d);
    var left := Sub(fee, reqTotal);
    assert reqTotal == NoCoins ==> forall d :: Amt(reqTotal, d) == 0;
    assert forall d :: Amt(left, d) < 0 <==> Amt(reqTotal, d) > Amt(fee, d);
    assert forall d :: Amt(fee, d) >= 0;
    reqTotal == NoCoins || !AnyNegative(left)
  }

  // ---------- charging a message ----------

  /** The fee covers the base fee and everything charged. */
  ghost predicate Covered(env: Env, tx: Tx, h: seq<Charge>) {
    forall d :: Amt(BaseFee(env, tx), d) + Charged(h, d) <= Amt(tx.fee, d)
  }

  /** Since h0, exactly these fees have been charged for the module and for the recipients. */
  ghost predicate ChargedSince(h0: seq<Charge>, h: seq<Charge>, moduleFees: Coins, recipients: Fees) {
    && (forall d :: Charged(h, d) == Charged(h0, d) + Amt(moduleFees, d) + MapTotal(recipients, d))
    && (forall r, d :: ChargedFor(h, r, d) ==
                       ChargedFor(h0, r, d) + if r == "" then Amt(moduleFees, d) else Amt(Get(recipients, r), d))
  }

  /** Since h0, all charges were for the message type, to the module or to these recipients. */
  ghost predicate ChargedAs(h0: seq<Charge>, h: seq<Charge>, msgType: string, recipients: set<string>) {
    && h0 <= h
    && forall i :: |h0| <= i < |h| ==>
                     h[i].msgType == msgType && (h[i].recipient == "" || h[i].recipient in recipients)
  }

  lemma ChargedSinceModule(h0: seq<Charge>, coins: Coins, msgType: string)
    ensures ChargedSince(h0, h0 + [Charge(coins, msgType, "")], coins, map[])
  {
    var h := h0 + [Charge(coins, msgType, "")];
    assert h[..|h0|] == h0;
    var none: Fees := map[];
    forall d ensures MapTotal(none, d) == 0 {
      assert none.Keys == {};
    }
  }

  lemma ChargedSinceNothing(h0: seq<Charge>)
    ensures ChargedSince(h0, h0, NoCoins, map[])
  {
    var none: Fees := map[];
    forall d ensures MapTotal(none, d) == 0 {
      assert none.Keys == {};
    }
    assert forall r, d :: Amt(Get(none, r), d) == 0;
  }

  lemma ChargedSinceNext(h0: seq<Charge>, h: seq<Charge>, moduleFees: Coins, done: Fees,
                         recipient: string, coins: Coins, msgType: string)
    requires ChargedSince(h0, h, moduleFees, done) && recipient != "" && recipient !in done
    ensures ChargedSince(h0, h + [Charge(coins, msgType, recipient)], moduleFees, done[recipient := coins])
  {
    var h' := h + [Charge(coins, msgType, recipient)];
    assert h'[..|h|] == h;
    forall d ensures Charged(h', d) == Charged(h0, d) + Amt(moduleFees, d) + MapTotal(done[recipient := coins], d) {
      TotalNew(done, recipient, coins, d);
    }
    forall r, d
      ensures ChargedFor(h', r, d) == ChargedFor(h0, r, d) +
                                      if r == "" then Amt(moduleFees, d) else Amt(Get(done[recipient := coins], r), d)
    {
      assert ChargedFor(h, r, d) ==
             ChargedFor(h0, r, d) + if r == "" then Amt(moduleFees, d) else Amt(Get(done, r), d);
    }
  }

  /** The dues of one message can be calculated and, unless simulating, the fee covers them on top of all else. */
  ghost predicate Chargeable(env: Env, tx: Tx, msg: Msg, h: seq<Charge>, simulate: bool) {
    var dues := DuesOf(env.schedule, [msg]);
    && dues.Some? && AllPayable(dues.value)
    && (Collected(dues.value).total == NoCoins || simulate ||
        forall d :: Amt(BaseFee(env, tx), d) + Charged(h, d) + Amt(Collected(dues.value).total, d) <= Amt(tx.fee, d))
  }

  /** From h0 to h, exactly the dues of the message have been charged, under its type. */
  ghost predicate Routed(env: Env, msg: Msg, h0: seq<Charge>, h: seq<Charge>) {
    var dues := DuesOf(env.schedule, [msg]);
    && dues.Some? && AllPayable(dues.value)
    && var p := Collected(dues.value);
       if p.total == NoCoins then h == h0
       else (ChargedSince(h0, h, p.moduleFees, p.recipients) && ChargedAs(h0, h, msg.typeURL, p.recipients.Keys))
  }

  /** The base fee has gone from the payer to the collector. */
  ghost predicate BaseTaken(l0: Ledger<string>, l: Ledger<string>, payer: string, collector: string, base: Coins, a: string, d: Denom) {
    Bal(l, a, d) ==
    Bal(l0, a, d) - (if a == payer then Amt(base, d) else 0) + if a == collector then Amt(base, d) else 0
  }

  ghost predicate AllBaseTaken(l0: Ledger<string>, l: Ledger<string>, payer: string, collector: string, base: Coins) {
    forall a, d :: BaseTaken(l0, l, payer, collector, base, a, d)
  }

  lemma BaseTakenBy(l0: Ledger<string>, l: Ledger<string>, payer: string, collector: string, base: Coins)
    requires l == (if base == NoCoins then l0 else Moved(l0, payer, collector, base))
    ensures AllBaseTaken(l0, l, payer, collector, base)
  {
    forall a, d ensures BaseTaken(l0, l, payer, collector, base, a, d) {
      MovedBal(l0, payer, collector, base, a, d);
    }
  }

  /** The fees can be calculated and are within the funds of the payer (a simulation only calculates them). */
  ghost predicate Affordable(env: Env, tx: Tx, l: Ledger<string>, simulate: bool) {
    var dues := DuesOf(env.schedule, tx.msgs);
    && dues.Some? && AllPayable(dues.value)
    && (simulate || CoveredBy(Collected(dues.value).total, Balance(l, PayerOf(tx))))
  }

  /** When the base fee step lets a transaction through. */
  ghost predicate Admissible(env: Env, tx: Tx, l: Ledger<string>, free: bool, simulate: bool, grantAccepts: bool) {
    && env.collectorSet
    && Affordable(env, tx, l, simulate)
    && (UsesGrant(tx) ==> env.grantsEnabled && grantAccepts)
    && PayerOf(tx) in env.accounts
    && (free || CoveredBy(BaseFee(env, tx), Balance(l, PayerOf(tx))))
  }

  // ---------- the final sweep ----------

  datatype Receipt = Receipt(charged: Coins, baseFeeEvent: Option<Coins>, dist: Fees)

  /** Nothing distributed in a denom means nothing for anyone. */
  lemma ZeroDistribution(dist: Fees, k: string, d: Denom)
    requires AllCoinsValid(dist) && MapTotal(dist, d) <= 0
    ensures Amt(Get(dist, k), d) == 0
  {
    if k in dist {
      KeySumRemove(dist, dist.Keys, k, d);
      KeySumNonNegative(dist, dist.Keys - {k}, d);
    }
  }

  lemma NothingSwept(l: Ledger<string>, payer: string, collector: string, dist: Fees)
    requires AllCoinsValid(dist) && forall d :: MapTotal(dist, d) == 0
    ensures AllSwept(l, l, payer, collector, NoCoins, dist)
  {
    forall a, d ensures Swept(l, l, payer, collector, NoCoins, dist, a, d) {
      ZeroDistribution(dist, a, d);
      ZeroDistribution(dist, "", d);
    }
  }

  /** A key that names no recipient, or one that is an address. */
  predicate KnownKey(env: Env, key: string) {
    var recipient := SplitCompositeKey(key).1;
    recipient == "" || recipient in env.addresses
  }

  /** The recipients named by the keys are addresses. */
  ghost predicate RecipientsKnown(env: Env, usedFees: Fees) {
    forall k :: k in usedFees ==> KnownKey(env, k)
  }

  /** The base fee already charged and everything recorded are within the fee. */
  ghost predicate Settleable(tx: Tx, base: Coins, h: seq<Charge>) {
    forall d :: Amt(base, d) + Charged(h, d) <= Amt(tx.fee, d)
  }

  lemma SettleableIsEnough(tx: Tx, base: Coins, h: seq<Charge>, dist: Fees)
    requires forall d :: MapTotal(dist, d) == Charged(h, d)
    ensures Settleable(tx, base, h) <==> Enough(dist, Sub(tx.fee, base))
  {
    assert forall d :: Amt(Sub(tx.fee, base), d) == Amt(tx.fee, d) - Amt(base, d);
  }

  /** The base fee reported is the fee without the recorded fees, and at least the base fee taken; it is left out
      only when no fees were recorded. */
  ghost predicate Reported(tx: Tx, base: Coins, h: seq<Charge>, event: Option<Coins>) {
    && (event.Some? ==> forall d :: Amt(base, d) <= Amt(event.value, d) == Amt(tx.fee, d) - Charged(h, d))
    && (event.None? ==> forall d :: Charged(h, d) == 0)
  }

  lemma NonMsgFees(tx: Tx, base: Coins, h: seq<Charge>, consumed: Coins)
    requires Valid(base) && Settleable(tx, base, h)
    requires forall d :: Amt(consumed, d) == Charged(h, d)
    ensures var nonMsgFees := Sub(Add(base, Sub(tx.fee, base)), consumed);
      !AnyNegative(nonMsgFees) && Reported(tx, base, h, Some(nonMsgFees))
  {
    var nonMsgFees := Sub(Add(base, Sub(tx.fee, base)), consumed);
    assert forall d :: Amt(nonMsgFees, d) == Amt(tx.fee, d) - Charged(h, d);
  }

  /** Nothing but the amounts recorded can stand in the way of the final sweep. */
  ghost predicate CanPay(env: Env, tx: Tx, usedFees: Fees, base: Coins, l: Ledger<string>, grantAccepts: bool) {
    && (UsesGrant(tx) ==> env.grantsEnabled && grantAccepts)
    && PayerOf(tx) in env.accounts
    && RecipientsKnown(env, usedFees)
    && CoveredBy(Sub(tx.fee, base), Balance(l, PayerOf(tx)))
  }

  // ---------- a whole transaction ----------

  /** What becomes of a message after its fees are charged: fees its handler charges without any check, an arbitrary
      change of balances, and whether it fails (its own validation, the circuit breaker or the handler refuses it). */
  datatype Effect = Effect(fees: seq<Charge>, change: map<string, Coins>, fails: bool)

  function Changed(l: Ledger<string>, change: map<string, Coins>): Ledger<string> {
    map a | a in l.Keys + change.Keys :: Add(Balance(l, a), Get(change, a))
  }

  lemma ChangedBal(l: Ledger<string>, change: map<string, Coins>, a: string, d: Denom)
    ensures Bal(Changed(l, change), a, d) == Bal(l, a, d) + Amt(Get(change, a), d)
  {
  }

  ghost predicate EffectValid(e: Effect) {
    forall i :: 0 <= i < |e.fees| ==> Valid(e.fees[i].amount)
  }

  /** The charges that are for something. */
  ghost function NonZero(fees: seq<Charge>): seq<Charge> {
    if fees == [] then []
    else NonZero(fees[..|fees|-1]) + if fees[|fees|-1].amount != NoCoins then [fees[|fees|-1]] else []
  }

  /** What the handlers charged in all of denom d without a check. */
  ghost function UncheckedTotal(effects: seq<Effect>, d: Denom): int {
    if effects == [] then 0 else UncheckedTotal(effects[..|effects|-1], d) + Charged(effects[|effects|-1].fees, d)
  }

  /** What the handlers charged for recipient r in all of denom d without a check. */
  ghost function UncheckedFor(effects: seq<Effect>, r: string, d: Denom): int {
    if effects == [] then 0
    else UncheckedFor(effects[..|effects|-1], r, d) + ChargedFor(effects[|effects|-1].fees, r, d)
  }

  lemma {:induction false} ChargedConcat(h: seq<Charge>, g: seq<Charge>, r: string, d: Denom)
    ensures Charged(h + g, d) == Charged(h, d) + Charged(g, d)
    ensures ChargedFor(h + g, r, d) == ChargedFor(h, r, d) + ChargedFor(g, r, d)
  {
    if g == [] {
      assert h + g == h;
    } else {
      ChargedConcat(h, g[..|g|-1], r, d);
      assert (h + g)[..|h + g|-1] == h + g[..|g|-1];
    }
  }

  /** Charges for nothing add nothing. */
  lemma {:induction false} NonZeroSums(fees: seq<Charge>, r: string, d: Denom)
    ensures Charged(NonZero(fees), d) == Charged(fees, d)
    ensures ChargedFor(NonZero(fees), r, d) == ChargedFor(fees, r, d)
  {
    if fees != [] {
      var init, last := fees[..|fees|-1], fees[|fees|-1];
      NonZeroSums(init, r, d);
      if last.amount == NoCoins {
        assert NonZero(fees) == NonZero(init);
      } else {
        assert NonZero(fees)[..|NonZero(fees)|-1] == NonZero(init);
      }
    }
  }

  lemma NonZeroCharged(h: seq<Charge>, fees: seq<Charge>, r: string, d: Denom)
    ensures Charged(h + NonZero(fees), d) == Charged(h, d) + Charged(fees, d)
    ensures ChargedFor(h + NonZero(fees), r, d) == ChargedFor(h, r, d) + ChargedFor(fees, r, d)
  {
    NonZeroSums(fees, r, d);
    ChargedConcat(h, NonZero(fees), r, d);
  }

  /** What the messages themselves did to the balance of a in d. */
  ghost function EffectOn(effects: seq<Effect>, a: string, d: Denom): int {
    if effects == [] then 0
    else EffectOn(effects[..|effects|-1], a, d) + Amt(Get(effects[|effects|-1].change, a), d)
  }

  /** The payer paid exactly the fee, everyone got exactly what was charged for them, and the collector all the rest of the
      fee, whatever the messages did. */
  ghost predicate FeeSettled(l0: Ledger<string>, l: Ledger<string>, tx: Tx, payer: string, collector: string,
                             effects: seq<Effect>, h: seq<Charge>, a: string, d: Denom) {
    Bal(l, a, d) == Bal(l0, a, d) + EffectOn(effects, a, d)
                    - (if a == payer then Amt(tx.fee, d) else 0)
                    + ((if a != "" then ChargedFor(h, a, d) else 0)
                       + if a == collector then Amt(tx.fee, d) - Charged(h, d) + ChargedFor(h, "", d) else 0)
  }

  ghost predicate AllChanged(l0: Ledger<string>, l: Ledger<string>, effects: seq<Effect>) {
    forall a, d :: Bal(l, a, d) == Bal(l0, a, d) + EffectOn(effects, a, d)
  }

  lemma NothingChanged(l: Ledger<string>, effects: seq<Effect>)
    ensures AllChanged(l, l, effects[..0])
  {
  }

  lemma ChangedNext(l0: Ledger<string>, l: Ledger<string>, effects: seq<Effect>, i: nat)
    requires i < |effects| && AllChanged(l0, l, effects[..i])
    ensures AllChanged(l0, Changed(l, effects[i].change), effects[..i+1])
  {
    assert effects[..i+1][..i] == effects[..i];
    forall a, d
      ensures Bal(Changed(l, effects[i].change), a, d) == Bal(l0, a, d) + EffectOn(effects[..i+1], a, d)
    {
      ChangedBal(l, effects[i].change, a, d);
      assert Bal(l, a, d) == Bal(l0, a, d) + EffectOn(effects[..i], a, d);
    }
  }

  /** No handler charges fees of its own. */
  ghost predicate NoUncheckedFees(effects: seq<Effect>) {
    forall i :: 0 <= i < |effects| ==> effects[i].fees == []
  }

  /** No message is refused once its fees are charged. */
  ghost predicate NoneFails(effects: seq<Effect>) {
    forall i :: 0 <= i < |effects| ==> !effects[i].fails
  }

  /** What the distributions hold for a recipient, from the history of charges. */
  lemma DistributedTo(usedFees: Fees, feeCalls: Calls, h: seq<Charge>, dist: Fees, r: string, d: Denom)
    requires Records(usedFees, feeCalls, h) && Plain(h) && Distributes(dist, usedFees)
    ensures Amt(Get(dist, r), d) == ChargedFor(h, r, d)
    ensures MapTotal(dist, d) == Charged(h, d)
  {
  }

  /** The three phases together, for one account and one denom. */
  lemma PhasesSettleAt(l0: Ledger<string>, l1: Ledger<string>, l2: Ledger<string>, l3: Ledger<string>, tx: Tx,
                       collector: string, base: Coins, effects: seq<Effect>, dist: Fees, h: seq<Charge>, a: string, d: Denom)
    requires BaseTaken(l0, l1, PayerOf(tx), collector, base, a, d)
    requires Bal(l2, a, d) == Bal(l1, a, d) + EffectOn(effects, a, d)
    requires Swept(l2, l3, PayerOf(tx), collector, Sub(tx.fee, base), dist, a, d)
    requires Amt(Get(dist, a), d) == ChargedFor(h, a, d)
    requires Amt(Get(dist, ""), d) == ChargedFor(h, "", d)
    requires MapTotal(dist, d) == Charged(h, d)
    ensures FeeSettled(l0, l3, tx, PayerOf(tx), collector, effects, h, a, d)
  {
    PhasesAddUp(a == PayerOf(tx), a == collector, a != "", Bal(l0, a, d), Bal(l1, a, d), Bal(l2, a, d), Bal(l3, a, d),
                Amt(base, d), Amt(tx.fee, d), EffectOn(effects, a, d), ChargedFor(h, a, d), ChargedFor(h, "", d), Charged(h, d));
  }

  lemma PhasesAddUp(pays: bool, collects: bool, named: bool, b0: int, b1: int, b2: int, b3: int, base: int, fee: int,
                    effect: int, own: int, moduleFees: int, charged: int)
    requires b1 == b0 - (if pays then base else 0) + if collects then base else 0
    requires b2 == b1 + effect
    requires b3 == b2 - (if pays then fee - base else 0) + ((if named then own else 0) + if collects then moduleFees else 0)
                   + if collects then fee - base - charged else 0
    ensures b3 == b0 + effect - (if pays then fee else 0)
                  + ((if named then own else 0) + if collects then fee - charged + moduleFees else 0)
  {
  }

  ghost predicate AllFeeSettled(l0: Ledger<string>, l: Ledger<string>, tx: Tx, payer: string, collector: string,
                                effects: seq<Effect>, h: seq<Charge>) {
    forall a, d :: FeeSettled(l0, l, tx, payer, collector, effects, h, a, d)
  }

  /** The three phases together: base fee, messages, final sweep. */
  lemma PhasesSettle(l0: Ledger<string>, l1: Ledger<string>, l2: Ledger<string>, l3: Ledger<string>, tx: Tx, env: Env,
                     effects: seq<Effect>, usedFees: Fees, feeCalls: Calls, dist: Fees, h: seq<Charge>)
    requires AllBaseTaken(l0, l1, PayerOf(tx), env.collector, BaseFee(env, tx))
    requires AllChanged(l1, l2, effects)
    requires AllSwept(l2, l3, PayerOf(tx), env.collector, Sub(tx.fee, BaseFee(env, tx)), dist)
    requires Records(usedFees, feeCalls, h) && Plain(h) && Distributes(dist, usedFees)
    ensures AllFeeSettled(l0, l3, tx, PayerOf(tx), env.collector, effects, h)
  {
    hide Records, Plain, Distributes, BaseTaken, Swept, FeeSettled, BaseFee;
    forall a, d ensures FeeSettled(l0, l3, tx, PayerOf(tx), env.collector, effects, h, a, d) {
      assert BaseTaken(l0, l1, PayerOf(tx), env.collector, BaseFee(env, tx), a, d);
      assert Swept(l2, l3, PayerOf(tx), env.collector, Sub(tx.fee, BaseFee(env, tx)), dist, a, d);
      DistributedTo(usedFees, feeCalls, h, dist, a, d);
      DistributedTo(usedFees, feeCalls, h, dist, "", d);
      PhasesSettleAt(l0, l1, l2, l3, tx, env.collector, BaseFee(env, tx), effects, dist, h, a, d);
    }
  }

  lemma GrantTotal(used: map<Grant, Coins>, tx: Tx, base: Coins, fee: Coins)
    ensures WithGrantUsed(WithGrantUsed(used, tx, base), tx, Sub(fee, base)) == WithGrantUsed(used, tx, fee)
  {
    if UsesGrant(tx) {
      AddInParts(used, Grant(tx.granter.value, tx.payer), base, fee);
    }
  }

  lemma SettleableIsCovered(env: Env, tx: Tx, h: seq<Charge>)
    ensures Settleable(tx, BaseFee(env, tx), h) <==> Covered(env, tx, h)
  {
  }

  lemma BaseFeeValid(env: Env, tx: Tx)
    ensures Valid(BaseFee(env, tx))
  {
  }

  // ---------- recipients that are addresses ----------

  ghost predicate ChargesKnown(env: Env, h: seq<Charge>) {
    forall i :: 0 <= i < |h| ==> KnownKey(env, KeyOf(h[i]))
  }

  /** The keys that the dues of a message are charged under name only addresses. */
  ghost predicate MsgKnown(env: Env, msg: Msg) {
    var dues := DuesOf(env.schedule, [msg]);
    && KnownKey(env, msg.typeURL)
    && (dues.Some? ==>
          forall j :: 0 <= j < |dues.value| ==> KnownKey(env, GetCompositeKey(msg.typeURL, dues.value[j].recipient)))
  }

  /** Messages and handlers charge under keys that name only addresses. */
  ghost predicate AllKnown(env: Env, tx: Tx, effects: seq<Effect>) {
    && (forall i :: 0 <= i < |tx.msgs| ==> MsgKnown(env, tx.msgs[i]))
    && (forall i :: 0 <= i < |effects| ==> ChargesKnown(env, effects[i].fees))
  }

  lemma ChargesKnownNext(env: Env, msg: Msg, h0: seq<Charge>, h: seq<Charge>)
    requires ChargesKnown(env, h0) && MsgKnown(env, msg)
    requires DuesOf(env.schedule, [msg]).Some? && AllPayable(DuesOf(env.schedule, [msg]).value)
    requires ChargedAs(h0, h, msg.typeURL, Collected(DuesOf(env.schedule, [msg]).value).recipients.Keys)
    ensures ChargesKnown(env, h)
  {
    var dues := DuesOf(env.schedule, [msg]).value;
    forall i | 0 <= i < |h| ensures KnownKey(env, KeyOf(h[i])) {
      if i < |h0| {
        assert h[i] == h0[i];
      } else if h[i].recipient != "" {
        CollectedNamed(dues, h[i].recipient);
      }
    }
  }

  lemma {:induction false} NonZeroKnown(env: Env, h: seq<Charge>, fees: seq<Charge>)
    requires ChargesKnown(env, h) && ChargesKnown(env, fees)
    ensures ChargesKnown(env, h + NonZero(fees))
  {
    if fees == [] {
      assert h + [] == h;
    } else {
      var init, last := fees[..|fees|-1], fees[|fees|-1];
      NonZeroKnown(env, h, init);
      assert KnownKey(env, KeyOf(fees[|fees|-1]));
      if last.amount == NoCoins {
        assert NonZero(fees) == NonZero(init);
      } else {
        assert h + NonZero(fees) == h + NonZero(init) + [last];
      }
    }
  }

  lemma StepKnown(env: Env, msg: Msg, h0: seq<Charge>, h: seq<Charge>, fees: seq<Charge>)
    requires ChargesKnown(env, h0) && MsgKnown(env, msg) && Routed(env, msg, h0, h)
    requires ChargesKnown(env, fees)
    ensures ChargesKnown(env, h + NonZero(fees))
  {
    if h != h0 {
      ChargesKnownNext(env, msg, h0, h);
    }
    NonZeroKnown(env, h, fees);
  }

  /** The keys of the meter name only addresses if the charges do. */
  lemma KnownFromHistory(env: Env, usedFees: Fees, feeCalls: Calls, h: seq<Charge>)
    requires Records(usedFees, feeCalls, h) && ChargesKnown(env, h)
    ensures RecipientsKnown(env, usedFees)
  {
    forall k | k in usedFees ensures KnownKey(env, k) {
      var i :| 0 <= i < |h| && KeyOf(h[i]) == k;
    }
  }

  // ---------- the check of the mempool against the checks of the run ----------

  /** The CheckTx branch of `MsgFeesDecorator.AnteHandle`: unless simulating, the fees of all the messages must be
      known and the fee must cover them all with the base fee. */
  ghost predicate CheckTxPasses(env: Env, tx: Tx, simulate: bool) {
    var dues := DuesOf(env.schedule, tx.msgs);
    simulate ||
    (dues.Some? && AllPayable(dues.value) &&
     forall d :: Amt(BaseFee(env, tx), d) + Amt(Collected(dues.value).total, d) <= Amt(tx.fee, d))
  }

  /** The CheckTx branch itself; when simulating, its errors are ignored. */
  method CheckTx(env: Env, tx: Tx, simulate: bool) returns (ok: bool)
    requires Valid(tx.fee)
    ensures ok <==> CheckTxPasses(env, tx, simulate)
    ensures ok <==> simulate || (AllCalculable(env.schedule, tx.msgs) &&
                                 forall d :: (if d == env.floorDenom then env.floorPrice * tx.gas else 0)
                                             + CostOfAll(env.schedule, tx.msgs, d) <= Amt(tx.fee, d))
  {
    hide Collected, AllPayable, DuesOf, CostOfAll, AllCalculable;
    ok := true;
    var calculated, feeDist := CalculateAdditionalFees(env.schedule, tx.msgs);
    if !calculated && !simulate {
      return false;
    }
    var sufficient := EnsureSufficientFloorAndMsgFees(tx.fee, env.floorDenom, env.floorPrice, tx.gas, feeDist.total);
    if !sufficient && !simulate {
      return false;
    }
  }

  /** Dues that cost nothing, or that the fee covers with the base fee. */
  ghost predicate Bearable(env: Env, tx: Tx, dues: seq<FeeDue>) {
    (forall d :: DueTotal(dues, d) == 0) || (forall d :: Amt(BaseFee(env, tx), d) + DueTotal(dues, d) <= Amt(tx.fee, d))
  }

  /** The dues of all the messages can be calculated and borne. */
  ghost predicate RunsThrough(env: Env, tx: Tx) {
    var dues := DuesOf(env.schedule, tx.msgs);
    dues.Some? && AllPayable(dues.value) && Bearable(env, tx, dues.value)
  }

  /** Dues that come to nothing in every denom. */
  ghost predicate CostsNothing(dues: seq<FeeDue>) {
    forall d :: DueTotal(dues, d) == 0
  }

  /** Message k can be charged: the dues up to it are known, and it costs nothing or the fee covers, with the base fee,
      what the meter had recorded before, the dues up to it, and what the handlers before it charged unchecked. */
  ghost predicate StepPayable(env: Env, tx: Tx, h0: seq<Charge>, effects: seq<Effect>, k: nat)
    requires k < |tx.msgs| && k <= |effects|
  {
    var dues, own := DuesOf(env.schedule, tx.msgs[..k+1]), DuesOf(env.schedule, [tx.msgs[k]]);
    && dues.Some? && AllPayable(dues.value)
    && ((own.Some? && CostsNothing(own.value)) || Within(env, tx, h0, dues.value, effects[..k]))
  }

  /** Base fee, earlier charges, dues and unchecked fees are within the fee. */
  ghost predicate Within(env: Env, tx: Tx, h0: seq<Charge>, dues: seq<FeeDue>, effects: seq<Effect>) {
    forall d :: Amt(BaseFee(env, tx), d) + Charged(h0, d) + DueTotal(dues, d) + UncheckedTotal(effects, d) <= Amt(tx.fee, d)
  }

  /** Every message can be charged when its turn comes, and none fails. */
  ghost predicate RunBorne(env: Env, tx: Tx, h0: seq<Charge>, effects: seq<Effect>)
    requires |effects| == |tx.msgs|
  {
    (forall k :: 0 <= k < |tx.msgs| ==> StepPayable(env, tx, h0, effects, k)) && NoneFails(effects)
  }

  /** The first i messages and their handlers have charged exactly their dues and the unchecked fees, on top of h0. */
  ghost predicate RunSoFar(env: Env, tx: Tx, h0: seq<Charge>, effects: seq<Effect>, i: nat, h: seq<Charge>)
    requires i <= |tx.msgs| && i <= |effects|
  {
    var dues := DuesOf(env.schedule, tx.msgs[..i]);
    && dues.Some? && AllPayable(dues.value)
    && forall d :: Charged(h, d) == Charged(h0, d) + DueTotal(dues.value, d) + UncheckedTotal(effects[..i], d)
  }

  lemma {:induction false} DueTotalNonNegative(dues: seq<FeeDue>, d: Denom)
    ensures DueTotal(dues, d) >= 0
  {
    if dues != [] {
      DueTotalNonNegative(dues[..|dues|-1], d);
    }
  }

  /** The dues of one more message come after those before it. */
  lemma DuesNext(s: Schedule, msgs: seq<Msg>, i: nat)
    requires i < |msgs|
    ensures DuesOf(s, msgs[..i+1]).Some? <==> DuesOf(s, msgs[..i]).Some? && DuesOf(s, [msgs[i]]).Some?
    ensures DuesOf(s, msgs[..i+1]).Some? ==>
              DuesOf(s, msgs[..i+1]).value == DuesOf(s, msgs[..i]).value + DuesOf(s, [msgs[i]]).value
  {
    assert msgs[..i+1][..i] == msgs[..i];
    assert [msgs[i]][..0] == [];
  }

  /** For each recipient, the first i messages have charged exactly its shares and their handlers the unchecked fees. */
  ghost predicate RunShares(env: Env, tx: Tx, h0: seq<Charge>, effects: seq<Effect>, i: nat, h: seq<Charge>)
    requires i <= |tx.msgs| && i <= |effects|
  {
    var dues := DuesOf(env.schedule, tx.msgs[..i]);
    && dues.Some?
    && forall r, d :: r != "" ==>
                        ChargedFor(h, r, d) ==
                        ChargedFor(h0, r, d) + ShareTotal(dues.value, r, d) + UncheckedFor(effects[..i], r, d)
  }

  /** What a message charged for a recipient is the recipient's share in its dues. */
  lemma RoutedShares(env: Env, msg: Msg, h0: seq<Charge>, h: seq<Charge>, r: string, d: Denom)
    requires Routed(env, msg, h0, h) && r != ""
    ensures ChargedFor(h, r, d) == ChargedFor(h0, r, d) + ShareTotal(DuesOf(env.schedule, [msg]).value, r, d)
  {
    hide AllPayable, ShareTotal, ChargedFor, ChargedAs;
    var dues := DuesOf(env.schedule, [msg]).value;
    var p := Collected(dues);
    CollectedShares(dues, r, d);
    CollectedSound(dues);
    if p.total == NoCoins {
      assert Amt(p.total, d) == 0;
      ZeroDistribution(p.recipients, r, d);
    }
  }

  lemma RunSharesNext(env: Env, tx: Tx, h0: seq<Charge>, effects: seq<Effect>, i: nat, h: seq<Charge>, h': seq<Charge>)
    requires i < |tx.msgs| && i < |effects| && RunShares(env, tx, h0, effects, i, h)
    requires Routed(env, tx.msgs[i], h, h')
    ensures RunShares(env, tx, h0, effects, i + 1, h' + NonZero(effects[i].fees))
  {
    hide AllPayable, ShareTotal, Collected, ChargedSince, ChargedAs;
    var before, next := DuesOf(env.schedule, tx.msgs[..i]).value, DuesOf(env.schedule, [tx.msgs[i]]).value;
    DuesNext(env.schedule, tx.msgs, i);
    assert effects[..i+1][..i] == effects[..i];
    forall r, d | r != ""
      ensures ChargedFor(h' + NonZero(effects[i].fees), r, d) ==
              ChargedFor(h0, r, d) + ShareTotal(before + next, r, d) + UncheckedFor(effects[..i+1], r, d)
    {
      NonZeroCharged(h', effects[i].fees, r, d);
      ShareTotalConcat(before, next, r, d);
      RoutedShares(env, tx.msgs[i], h, h', r, d);
      assert ChargedFor(h, r, d) == ChargedFor(h0, r, d) + ShareTotal(before, r, d) + UncheckedFor(effects[..i], r, d);
    }
  }

  /** What the run charged in all, and for each recipient, from schedule, messages and unchecked fees alone. */
  ghost predicate RunCosts(env: Env, tx: Tx, h0: seq<Charge>, effects: seq<Effect>, h: seq<Charge>) {
    && (forall d :: Charged(h, d) == Charged(h0, d) + CostOfAll(env.schedule, tx.msgs, d) + UncheckedTotal(effects, d))
    && (forall r, d :: r != "" ==>
                         ChargedFor(h, r, d) ==
                         ChargedFor(h0, r, d) + SharesInAll(env.schedule, tx.msgs, r, d) + UncheckedFor(effects, r, d))
  }

  lemma RunCostsAre(env: Env, tx: Tx, h0: seq<Charge>, effects: seq<Effect>, h: seq<Charge>)
    requires |effects| == |tx.msgs|
    requires RunSoFar(env, tx, h0, effects, |tx.msgs|, h) && RunShares(env, tx, h0, effects, |tx.msgs|, h)
    ensures RunCosts(env, tx, h0, effects, h)
  {
    hide CostOfAll, SharesInAll, DueTotal, ShareTotal, DuesOf, AllPayable;
    assert tx.msgs[..|tx.msgs|] == tx.msgs && effects[..|effects|] == effects;
    var dues := DuesOf(env.schedule, tx.msgs).value;
    forall d ensures Charged(h, d) == Charged(h0, d) + CostOfAll(env.schedule, tx.msgs, d) + UncheckedTotal(effects, d) {
      DuesCost(env.schedule, tx.msgs, "", d);
      assert Charged(h, d) == Charged(h0, d) + DueTotal(dues, d) + UncheckedTotal(effects, d);
    }
    forall r, d | r != ""
      ensures ChargedFor(h, r, d) ==
              ChargedFor(h0, r, d) + SharesInAll(env.schedule, tx.msgs, r, d) + UncheckedFor(effects, r, d)
    {
      DuesCost(env.schedule, tx.msgs, r, d);
    }
  }

  /** The total that is collected is nothing exactly if the dues cost nothing. */
  lemma NothingCollected(dues: seq<FeeDue>)
    requires AllPayable(dues)
    ensures Collected(dues).total == NoCoins <==> CostsNothing(dues)
    ensures forall d :: Amt(Collected(dues).total, d) == DueTotal(dues, d)
  {
    CollectedSound(dues);
    if CostsNothing(dues) {
      SameAmounts(Collected(dues).total, NoCoins);
    } else {
      var d :| DueTotal(dues, d) != 0;
      assert Amt(Collected(dues).total, d) != 0;
    }
  }

  /** After the messages before it, a message passes its own check exactly if it can be charged. */
  lemma StepDecides(env: Env, tx: Tx, h0: seq<Charge>, effects: seq<Effect>, i: nat, h: seq<Charge>)
    requires i < |tx.msgs| && i < |effects| && RunSoFar(env, tx, h0, effects, i, h)
    ensures Chargeable(env, tx, tx.msgs[i], h, false) <==> StepPayable(env, tx, h0, effects, i)
  {
    hide Collected, AllPayable, DueTotal, Charged, UncheckedTotal;
    var before, own := DuesOf(env.schedule, tx.msgs[..i]).value, DuesOf(env.schedule, [tx.msgs[i]]);
    DuesNext(env.schedule, tx.msgs, i);
    if own.Some? {
      PayableConcat(before, own.value);
      if AllPayable(own.value) {
        NothingCollected(own.value);
        forall d ensures DueTotal(before + own.value, d) == DueTotal(before, d) + DueTotal(own.value, d) {
          DueTotalConcat(before, own.value, d);
        }
      }
    }
  }

  lemma RunNext(env: Env, tx: Tx, h0: seq<Charge>, effects: seq<Effect>, i: nat, h: seq<Charge>, h': seq<Charge>)
    requires i < |tx.msgs| && i < |effects| && RunSoFar(env, tx, h0, effects, i, h)
    requires Routed(env, tx.msgs[i], h, h')
    ensures RunSoFar(env, tx, h0, effects, i + 1, h' + NonZero(effects[i].fees))
  {
    hide AllPayable;
    var before, next := DuesOf(env.schedule, tx.msgs[..i]).value, DuesOf(env.schedule, [tx.msgs[i]]).value;
    DuesNext(env.schedule, tx.msgs, i);
    PayableConcat(before, next);
    CollectedSound(next);
    assert effects[..i+1][..i] == effects[..i];
    forall d
      ensures Charged(h' + NonZero(effects[i].fees), d) ==
              Charged(h0, d) + DueTotal(before + next, d) + UncheckedTotal(effects[..i+1], d)
    {
      NonZeroCharged(h', effects[i].fees, "", d);
      DueTotalConcat(before, next, d);
      assert Charged(h, d) == Charged(h0, d) + DueTotal(before, d) + UncheckedTotal(effects[..i], d);
    }
  }

  lemma PartOfAll(before: seq<FeeDue>, next: seq<FeeDue>, all: seq<FeeDue>)
    requires before + next <= all && AllPayable(all)
    ensures AllPayable(next)
    ensures forall d :: Amt(Collected(next).total, d) == DueTotal(next, d)
    ensures forall d :: DueTotal(before, d) + Amt(Collected(next).total, d) <= DueTotal(all, d)
  {
    forall j | 0 <= j < |next| ensures Payable(next[j]) {
      assert all[|before| + j] == (before + next)[|before| + j] == next[j];
    }
    CollectedSound(next);
    var rest := all[|before + next|..];
    assert all == before + next + rest;
    forall d ensures DueTotal(before, d) + DueTotal(next, d) <= DueTotal(all, d) {
      DueTotalConcat(before, next, d);
      DueTotalConcat(before + next, rest, d);
      DueTotalNonNegative(rest, d);
    }
  }

  /** The run after i messages: what was charged, that each of them could be, and that recipients are addresses if all
      that is charged is for addresses. */
  ghost predicate Running(env: Env, tx: Tx, h0: seq<Charge>, effects: seq<Effect>, i: nat, h: seq<Charge>)
    requires i <= |tx.msgs| && i <= |effects|
  {
    && RunSoFar(env, tx, h0, effects, i, h) && RunShares(env, tx, h0, effects, i, h)
    && (forall k :: 0 <= k < i ==> StepPayable(env, tx, h0, effects, k) && !effects[k].fails)
    && (AllKnown(env, tx, effects) && ChargesKnown(env, h0) ==> ChargesKnown(env, h))
  }

  lemma RunStart(env: Env, tx: Tx, h0: seq<Charge>, effects: seq<Effect>)
    ensures Running(env, tx, h0, effects, 0, h0)
  {
    assert tx.msgs[..0] == [] && effects[..0] == [];
  }

  lemma RunningNext(env: Env, tx: Tx, h0: seq<Charge>, effects: seq<Effect>, i: nat, h: seq<Charge>, h': seq<Charge>)
    requires i < |tx.msgs| && i < |effects| && Running(env, tx, h0, effects, i, h)
    requires Chargeable(env, tx, tx.msgs[i], h, false) && !effects[i].fails && Routed(env, tx.msgs[i], h, h')
    ensures Running(env, tx, h0, effects, i + 1, h' + NonZero(effects[i].fees))
  {
    hide RunSoFar, RunShares, StepPayable, Chargeable, Routed, ChargesKnown, MsgKnown;
    RunSharesNext(env, tx, h0, effects, i, h, h');
    StepDecides(env, tx, h0, effects, i, h);
    RunNext(env, tx, h0, effects, i, h, h');
    if AllKnown(env, tx, effects) && ChargesKnown(env, h0) {
      StepKnown(env, tx.msgs[i], h, h', effects[i].fees);
    }
  }

  /** A message that is refused stops the run for good. */
  lemma RunStops(env: Env, tx: Tx, h0: seq<Charge>, effects: seq<Effect>, i: nat, h: seq<Charge>)
    requires i < |tx.msgs| == |effects| && Running(env, tx, h0, effects, i, h)
    requires !Chargeable(env, tx, tx.msgs[i], h, false) || effects[i].fails
    ensures !RunBorne(env, tx, h0, effects)
  {
    hide StepPayable, Chargeable;
    StepDecides(env, tx, h0, effects, i, h);
  }

  lemma RunEnds(env: Env, tx: Tx, h0: seq<Charge>, effects: seq<Effect>, h: seq<Charge>)
    requires |tx.msgs| == |effects| && Running(env, tx, h0, effects, |tx.msgs|, h)
    ensures RunBorne(env, tx, h0, effects) && RunSoFar(env, tx, h0, effects, |tx.msgs|, h)
    ensures RunShares(env, tx, h0, effects, |tx.msgs|, h)
    ensures AllKnown(env, tx, effects) && ChargesKnown(env, h0) ==> ChargesKnown(env, h)
  {
  }

  lemma {:induction false} NothingUnchecked(effects: seq<Effect>, d: Denom)
    requires NoUncheckedFees(effects)
    ensures UncheckedTotal(effects, d) == 0
  {
    if effects != [] {
      NothingUnchecked(effects[..|effects|-1], d);
    }
  }

  /** Without unchecked fees, messages that can each be charged can be borne together. */
  lemma {:induction false} StepsAreBearable(env: Env, tx: Tx, effects: seq<Effect>, i: nat)
    requires NoUncheckedFees(effects) && i <= |tx.msgs| == |effects|
    requires forall k :: 0 <= k < i ==> StepPayable(env, tx, [], effects, k)
    ensures var dues := DuesOf(env.schedule, tx.msgs[..i]);
      dues.Some? && AllPayable(dues.value) && Bearable(env, tx, dues.value)
  {
    if i == 0 {
      assert tx.msgs[..0] == [];
    } else {
      StepsAreBearable(env, tx, effects, i - 1);
      var k := i - 1;
      assert StepPayable(env, tx, [], effects, k);
      DuesNext(env.schedule, tx.msgs, k);
      var before, own := DuesOf(env.schedule, tx.msgs[..k]).value, DuesOf(env.schedule, [tx.msgs[k]]).value;
      forall d
        ensures DueTotal(before + own, d) == DueTotal(before, d) + DueTotal(own, d)
        ensures UncheckedTotal(effects[..k], d) == 0
      {
        DueTotalConcat(before, own, d);
        NothingUnchecked(effects[..k], d);
      }
    }
  }

  /** Without unchecked fees, messages that can be borne together can each be charged. */
  lemma BearableSteps(env: Env, tx: Tx, effects: seq<Effect>, k: nat)
    requires NoUncheckedFees(effects) && k < |tx.msgs| == |effects| && RunsThrough(env, tx)
    ensures StepPayable(env, tx, [], effects, k)
  {
    var all := DuesOf(env.schedule, tx.msgs).value;
    DuesPrefix(env.schedule, tx.msgs, k + 1);
    DuesNext(env.schedule, tx.msgs, k);
    var before, own := DuesOf(env.schedule, tx.msgs[..k]).value, DuesOf(env.schedule, [tx.msgs[k]]).value;
    PartOfAll(before, own, all);
    PartOfAll([], before + own, all);
    assert [] + (before + own) == before + own;
    forall d
      ensures 0 <= DueTotal(own, d) && DueTotal(before + own, d) == DueTotal(before, d) + DueTotal(own, d) <= DueTotal(all, d)
      ensures 0 <= DueTotal(before, d) && UncheckedTotal(effects[..k], d) == 0
    {
      DueTotalConcat(before, own, d);
      DueTotalNonNegative(own, d);
      DueTotalNonNegative(before, d);
      NothingUnchecked(effects[..k], d);
    }
  }

  /** Unless a handler charges fees of its own, a run goes through exactly if its dues can be borne and no message fails. */
  lemma CheckedRun(env: Env, tx: Tx, effects: seq<Effect>)
    requires NoUncheckedFees(effects) && |effects| == |tx.msgs|
    ensures RunBorne(env, tx, [], effects) <==> RunsThrough(env, tx) && NoneFails(effects)
  {
    hide StepPayable;
    if RunBorne(env, tx, [], effects) {
      StepsAreBearable(env, tx, effects, |tx.msgs|);
      assert tx.msgs[..|tx.msgs|] == tx.msgs;
    }
    if RunsThrough(env, tx) {
      forall k | 0 <= k < |tx.msgs| ensures StepPayable(env, tx, [], effects, k) {
        BearableSteps(env, tx, effects, k);
      }
    }
  }

  /** The mempool's check passes exactly what passes every check of the run and has a fee that covers the base fee. */
  lemma CheckTxPredictsRun(env: Env, tx: Tx)
    ensures CheckTxPasses(env, tx, false) <==>
            RunsThrough(env, tx) && forall d :: Amt(BaseFee(env, tx), d) <= Amt(tx.fee, d)
  {
    var dues := DuesOf(env.schedule, tx.msgs);
    if dues.Some? && AllPayable(dues.value) {
      CollectedSound(dues.value);
      forall d ensures DueTotal(dues.value, d) >= 0 {
        DueTotalNonNegative(dues.value, d);
      }
      if RunsThrough(env, tx) && forall d :: Amt(BaseFee(env, tx), d) <= Amt(tx.fee, d) {
        assert forall d :: Amt(BaseFee(env, tx), d) + DueTotal(dues.value, d) <= Amt(tx.fee, d);
      }
    }
  }

  /** So a run can pass every check without the fee covering even the base fee: here it has nothing to charge. */
  lemma RunWithoutBaseFee(env: Env, tx: Tx)
    requires env.floorPrice > 0 && tx == Tx(NoCoins, 1, "payer", None, [])
    ensures RunsThrough(env, tx) && !CheckTxPasses(env, tx, false)
  {
    assert Amt(BaseFee(env, tx), env.floorDenom) == env.floorPrice;
    CheckTxPredictsRun(env, tx);
  }

  /** The payer can pay the whole fee out of what it has and what the messages did to it. */
  ghost predicate Funded(tx: Tx, l: Ledger<string>, effects: seq<Effect>) {
    forall d :: Amt(tx.fee, d) <= Bal(l, PayerOf(tx), d) + EffectOn(effects, PayerOf(tx), d)
  }

  /** After a run, everything charged is covered exactly if all that is due and all that was charged unchecked is. */
  lemma CoveredIsWithin(env: Env, tx: Tx, h0: seq<Charge>, effects: seq<Effect>, h: seq<Charge>)
    requires |effects| == |tx.msgs| && RunSoFar(env, tx, h0, effects, |tx.msgs|, h)
    ensures Covered(env, tx, h) <==> AllWithin(env, tx, h0, effects)
  {
    assert tx.msgs[..|tx.msgs|] == tx.msgs && effects[..|effects|] == effects;
  }

  /** A funded payer still has the rest of the fee when it comes to the final sweep. */
  lemma FundedToTheEnd(env: Env, tx: Tx, l0: Ledger<string>, l1: Ledger<string>, l2: Ledger<string>, effects: seq<Effect>)
    requires AllBaseTaken(l0, l1, PayerOf(tx), env.collector, BaseFee(env, tx))
    requires AllChanged(l1, l2, effects) && Funded(tx, l0, effects)
    ensures CoveredBy(Sub(tx.fee, BaseFee(env, tx)), Balance(l2, PayerOf(tx)))
  {
    var payer, rest := PayerOf(tx), Sub(tx.fee, BaseFee(env, tx));
    forall d | d in rest ensures rest[d] <= Amt(Balance(l2, payer), d) {
      assert Amt(rest, d) == rest[d] && Amt(BaseFee(env, tx), d) >= 0;
      assert BaseTaken(l0, l1, payer, env.collector, BaseFee(env, tx), payer, d);
      assert Bal(l2, payer, d) == Bal(l1, payer, d) + EffectOn(effects, payer, d);
    }
  }

  /** The dues of all messages and all unchecked fees are within the fee, with the base fee and earlier charges. */
  ghost predicate AllWithin(env: Env, tx: Tx, h0: seq<Charge>, effects: seq<Effect>) {
    var dues := DuesOf(env.schedule, tx.msgs);
    dues.Some? && Within(env, tx, h0, dues.value, effects)
  }

  /** What decides whether a funded transaction goes through: the base fee step admits it, every message can be charged
      in turn and none fails, everything charged is within the fee, and the grant takes the rest. */
  ghost predicate Deliverable(env: Env, tx: Tx, l: Ledger<string>, h0: seq<Charge>, effects: seq<Effect>,
                              grantAcceptsBase: bool, grantAcceptsRest: bool)
    requires |effects| == |tx.msgs|
  {
    && Admissible(env, tx, l, false, false, grantAcceptsBase)
    && RunBorne(env, tx, h0, effects)
    && AllWithin(env, tx, h0, effects)
    && (UsesGrant(tx) ==> grantAcceptsRest)
  }

  lemma {:induction false} FeesNonNegative(fees: seq<Charge>, d: Denom)
    requires forall i :: 0 <= i < |fees| ==> Valid(fees[i].amount)
    ensures Charged(fees, d) >= 0
  {
    if fees != [] {
      FeesNonNegative(fees[..|fees|-1], d);
      assert Amt(fees[|fees|-1].amount, d) >= 0;
    }
  }

  lemma {:induction false} UncheckedGrows(effects: seq<Effect>, k: nat, d: Denom)
    requires k <= |effects| && forall i :: 0 <= i < |effects| ==> EffectValid(effects[i])
    ensures UncheckedTotal(effects[..k], d) <= UncheckedTotal(effects, d)
    decreases |effects| - k
  {
    if k == |effects| {
      assert effects[..k] == effects;
    } else {
      UncheckedGrows(effects, k + 1, d);
      assert effects[..k+1][..k] == effects[..k];
      FeesNonNegative(effects[k].fees, d);
    }
  }

  /** If all that is charged in the end is within the fee, every message can be charged when its turn comes. */
  lemma WithinIsPayable(env: Env, tx: Tx, h0: seq<Charge>, effects: seq<Effect>, k: nat)
    requires k < |tx.msgs| == |effects| && forall i :: 0 <= i < |effects| ==> EffectValid(effects[i])
    requires AllWithin(env, tx, h0, effects) && AllPayable(DuesOf(env.schedule, tx.msgs).value)
    ensures StepPayable(env, tx, h0, effects, k)
  {
    var all := DuesOf(env.schedule, tx.msgs).value;
    DuesPrefix(env.schedule, tx.msgs, k + 1);
    var dues := DuesOf(env.schedule, tx.msgs[..k+1]).value;
    assert [] + dues == dues;
    PartOfAll([], dues, all);
    forall d
      ensures DueTotal(dues, d) <= DueTotal(all, d) && UncheckedTotal(effects[..k], d) <= UncheckedTotal(effects, d)
    {
      UncheckedGrows(effects, k, d);
      assert DueTotal([], d) == 0;
    }
  }

  /** The checks at the messages never stop a transaction that the final sweep would let through: what decides is the
      base fee step, the sum of everything charged, the grant, and that no message fails. */
  lemma SweepDecides(env: Env, tx: Tx, l: Ledger<string>, h0: seq<Charge>, effects: seq<Effect>,
                     grantAcceptsBase: bool, grantAcceptsRest: bool)
    requires |tx.msgs| == |effects| && forall i :: 0 <= i < |effects| ==> EffectValid(effects[i])
    ensures Deliverable(env, tx, l, h0, effects, grantAcceptsBase, grantAcceptsRest) <==>
            && Admissible(env, tx, l, false, false, grantAcceptsBase)
            && AllWithin(env, tx, h0, effects)
            && NoneFails(effects)
            && (UsesGrant(tx) ==> grantAcceptsRest)
  {
    hide StepPayable, AllWithin, AllPayable;
    if Admissible(env, tx, l, false, false, grantAcceptsBase) && AllWithin(env, tx, h0, effects) {
      forall k | 0 <= k < |tx.msgs| ensures StepPayable(env, tx, h0, effects, k) {
        WithinIsPayable(env, tx, h0, effects, k);
      }
    }
  }

  // ---------- the conditions, from the inputs alone ----------

  /** The account that pays can be charged the amount in denom d: it has it, or there is nothing to charge. */
  ghost predicate Affords(tx: Tx, l: Ledger<string>, amount: int, d: Denom) {
    amount == 0 || amount <= Bal(l, if tx.granter.Some? then tx.granter.value else tx.payer, d)
  }

  /** The account that pays has what the messages cost in denom d. */
  ghost predicate AffordsMsgs(env: Env, tx: Tx, l: Ledger<string>, d: Denom) {
    Affords(tx, l, CostOfAll(env.schedule, tx.msgs, d), d)
  }

  lemma AffordableMeans(env: Env, tx: Tx, l: Ledger<string>)
    ensures Affordable(env, tx, l, false) <==>
            AllCalculable(env.schedule, tx.msgs) && forall d :: AffordsMsgs(env, tx, l, d)
  {
    hide AllCalculable, CoveredBy;
    DuesMean(env.schedule, tx.msgs);
    var dues := DuesOf(env.schedule, tx.msgs);
    if dues.Some? && AllPayable(dues.value) {
      var total := Collected(dues.value).total;
      CollectedCosts(env.schedule, tx.msgs);
      CoveredMeans(total, tx, l);
      forall d ensures AffordsMsgs(env, tx, l, d) <==> Affords(tx, l, Amt(total, d), d) {
        assert Amt(total, d) == CostOfAll(env.schedule, tx.msgs, d);
      }
    }
  }

  /** What the base fee step lets through: the collector is set; the fees of all messages can be calculated and the account
      that pays has them; a granter other than the payer has its grant accepted; the account exists and has the base fee. */
  lemma AdmissibleMeans(env: Env, tx: Tx, l: Ledger<string>, grantAccepts: bool)
    ensures Admissible(env, tx, l, false, false, grantAccepts) <==>
            && env.collectorSet
            && AllCalculable(env.schedule, tx.msgs)
            && (forall d :: AffordsMsgs(env, tx, l, d))
            && (tx.granter.Some? && tx.granter.value != tx.payer ==> env.grantsEnabled && grantAccepts)
            && (if tx.granter.Some? then tx.granter.value else tx.payer) in env.accounts
            && Affords(tx, l, env.floorPrice * tx.gas, env.floorDenom)
  {
    hide AllCalculable, CostOfAll, Affordable;
    AffordableMeans(env, tx, l);
    CoveredMeans(BaseFee(env, tx), tx, l);
    assert Affords(tx, l, Amt(BaseFee(env, tx), env.floorDenom), env.floorDenom) <==>
           forall d :: Affords(tx, l, Amt(BaseFee(env, tx), d), d);
  }

  lemma CoveredMeans(c: Coins, tx: Tx, l: Ledger<string>)
    ensures CoveredBy(c, Balance(l, PayerOf(tx))) <==> forall d :: Affords(tx, l, Amt(c, d), d)
  {
    if forall d :: Affords(tx, l, Amt(c, d), d) {
      forall d | d in c ensures c[d] <= Amt(Balance(l, PayerOf(tx)), d) {
        assert Affords(tx, l, Amt(c, d), d);
      }
    }
  }

  /** Message k can be charged exactly if the fees up to it can be calculated and it costs nothing, or the fee covers base
      fee, earlier charges, what the messages up to it cost, and what the handlers before it charged unchecked. */
  lemma StepPayableMeans(env: Env, tx: Tx, h0: seq<Charge>, effects: seq<Effect>, k: nat)
    requires k < |tx.msgs| == |effects|
    ensures StepPayable(env, tx, h0, effects, k) <==>
            && AllCalculable(env.schedule, tx.msgs[..k+1])
            && ((forall d :: CostOf(env.schedule, tx.msgs[k], d) == 0) ||
                (forall d :: (if d == env.floorDenom then env.floorPrice * tx.gas else 0) + Charged(h0, d)
                             + CostOfAll(env.schedule, tx.msgs[..k+1], d) + UncheckedTotal(effects[..k], d) <= Amt(tx.fee, d)))
  {
    hide Calculable, CostOf, AllPayable, DueTotal, Charged, UncheckedTotal;
    var s, msgs := env.schedule, tx.msgs[..k+1];
    DuesMean(s, msgs);
    DuesNext(s, tx.msgs, k);
    if DuesOf(s, msgs).Some? {
      forall d
        ensures DueTotal(DuesOf(s, msgs).value, d) == CostOfAll(s, msgs, d)
        ensures DueTotal(DuesOf(s, [tx.msgs[k]]).value, d) == CostOf(s, tx.msgs[k], d)
      {
        DuesCost(s, msgs, "", d);
        DuesCost(s, [tx.msgs[k]], "", d);
        assert [tx.msgs[k]][..0] == [];
        assert CostOfAll(s, [tx.msgs[k]], d) == CostOfAll(s, [tx.msgs[k]][..0], d) + CostOf(s, tx.msgs[k], d);
      }
    }
  }

  /** A transaction is deliverable exactly if the base fee step admits it, base fee, earlier charges, what all messages cost
      and what handlers charge unchecked are within the fee, no message fails, and a grant in use takes the rest. */
  lemma DeliverableMeans(env: Env, tx: Tx, l: Ledger<string>, h0: seq<Charge>, effects: seq<Effect>,
                         grantAcceptsBase: bool, grantAcceptsRest: bool)
    requires |tx.msgs| == |effects| && forall i :: 0 <= i < |effects| ==> EffectValid(effects[i])
    ensures Deliverable(env, tx, l, h0, effects, grantAcceptsBase, grantAcceptsRest) <==>
            && Admissible(env, tx, l, false, false, grantAcceptsBase)
            && (forall d :: (if d == env.floorDenom then env.floorPrice * tx.gas else 0) + Charged(h0, d)
                            + CostOfAll(env.schedule, tx.msgs, d) + UncheckedTotal(effects, d) <= Amt(tx.fee, d))
            && (forall i :: 0 <= i < |effects| ==> !effects[i].fails)
            && (tx.granter.Some? && tx.granter.value != tx.payer ==> grantAcceptsRest)
  {
    hide CostOfAll, AllPayable, DueTotal, Charged, UncheckedTotal, DuesOf, RunBorne;
    SweepDecides(env, tx, l, h0, effects, grantAcceptsBase, grantAcceptsRest);
    if Admissible(env, tx, l, false, false, grantAcceptsBase) {
      forall d ensures DueTotal(DuesOf(env.schedule, tx.msgs).value, d) == CostOfAll(env.schedule, tx.msgs, d) {
        DuesCost(env.schedule, tx.msgs, "", d);
      }
    }
  }

  /** Unless a handler charges fees of its own, the mempool's check decides about the amounts. */
  lemma CheckTxDecides(env: Env, tx: Tx, l: Ledger<string>, effects: seq<Effect>,
                       grantAcceptsBase: bool, grantAcceptsRest: bool)
    requires NoUncheckedFees(effects) && |effects| == |tx.msgs|
    ensures Deliverable(env, tx, l, [], effects, grantAcceptsBase, grantAcceptsRest) <==>
            && Admissible(env, tx, l, false, false, grantAcceptsBase)
            && CheckTxPasses(env, tx, false)
            && NoneFails(effects)
            && (UsesGrant(tx) ==> grantAcceptsRest)
  {
    hide Admissible;
    CheckedRun(env, tx, effects);
    CheckTxPredictsRun(env, tx);
    var dues := DuesOf(env.schedule, tx.msgs);
    if dues.Some? && AllPayable(dues.value) {
      CollectedSound(dues.value);
      forall d ensures UncheckedTotal(effects, d) == 0 && Charged([], d) == 0 {
        NothingUnchecked(effects, d);
      }
    }
  }

  /** If a funded transaction was let in and its recipients are addresses, only the amounts or the grant can stop it. */
  lemma AdmittedCanPay(env: Env, tx: Tx, l0: Ledger<string>, l1: Ledger<string>, l2: Ledger<string>, effects: seq<Effect>,
                       usedFees: Fees, feeCalls: Calls, h: seq<Charge>, grantAcceptsBase: bool, grantAcceptsRest: bool)
    requires Admissible(env, tx, l0, false, false, grantAcceptsBase)
    requires AllBaseTaken(l0, l1, PayerOf(tx), env.collector, BaseFee(env, tx))
    requires AllChanged(l1, l2, effects) && Funded(tx, l0, effects)
    requires Records(usedFees, feeCalls, h) && ChargesKnown(env, h)
    ensures (UsesGrant(tx) ==> grantAcceptsRest) ==> CanPay(env, tx, usedFees, BaseFee(env, tx), l2, grantAcceptsRest)
  {
    KnownFromHistory(env, usedFees, feeCalls, h);
    FundedToTheEnd(env, tx, l0, l1, l2, effects);
  }

  class TxContext {
    var ledger: Ledger<string>
    /** What fee grants have been used for. */
    var grantUsed: map<Grant, Coins>
    const meter: FeeGasMeter

    constructor (l: Ledger<string>, used: map<Grant, Coins>, feeMeter: FeeGasMeter)
      ensures ledger == l && grantUsed == used && meter == feeMeter
    {
      ledger, grantUsed, meter := l, used, feeMeter;
    }

    /** `SendCoins`, `SendCoinsFromAccountToModule`: refused if the coins are not valid or the sender does
        not have them. */
    method SendCoins(from: string, to: string, coins: Coins) returns (ok: bool)
      modifies this`ledger
      ensures ok <==> SdkCoins.Valid(coins) && CoveredBy(coins, Balance(old(ledger), from))
      ensures ledger == if ok then Moved(old(ledger), from, to, coins) else old(ledger)
    {
      ok := !AnyNegative(coins) && CoveredBy(coins, Balance(ledger, from));
      assert forall d :: d in coins ==> Amt(coins, d) == coins[d];
      if ok {
        ledger := Moved(ledger, from, to, coins);
      }
    }

    /** `DeductFeesDistributions`. If it succeeds, the payer has given exactly what remained of the fee, every
        recipient has its distribution and the collector the rest. It never succeeds if the distributions
        exceed what remained; otherwise a payer with enough funds is never refused. */
    method DeductFeesDistributions(env: Env, payer: string, remainingFees: Coins, dist: Fees) returns (ok: bool)
      modifies this`ledger
      ensures ok ==> Payables(env, dist) && Enough(dist, remainingFees)
      ensures ok ==> AllSwept(old(ledger), ledger, payer, env.collector, remainingFees, dist)
      ensures CoveredBy(remainingFees, Balance(old(ledger), payer)) ==>
                (ok <==> Payables(env, dist) && Enough(dist, remainingFees))
    {
      var sentCoins := NoCoins;
      var todo := dist.Keys;
      assert DistExcept(dist, todo) == map[];
      while todo != {}
        invariant todo <= dist.Keys
        invariant PaidOut(old(ledger), ledger, payer, env.collector, DistExcept(dist, todo), sentCoins)
        invariant forall k :: k in dist && k !in todo ==> SdkCoins.Valid(dist[k]) && (k == "" || k in env.addresses)
      {
        var key :| key in todo;
        var coins := dist[key];
        if AnyNegative(coins) {
          return false;
        }
        if |key| != 0 && key !in env.addresses {
          return false;
        }
        DistExceptNext(dist, todo, key);
        PayNext(old(ledger), ledger, payer, env, DistExcept(dist, todo), sentCoins, key, coins);
        if Payables(env, dist) && Enough(dist, remainingFees) && CoveredBy(remainingFees, Balance(old(ledger), payer)) {
          CanPayNext(old(ledger), ledger, payer, env.collector, dist, todo, sentCoins, remainingFees, key);
        }
        var sent := SendCoins(payer, ReceiverOf(env, key), coins);
        if !sent {
          return false;
        }
        sentCoins := Add(sentCoins, coins);
        todo := todo - {key};
      }
      assert DistExcept(dist, todo) == dist;
      ok := SweepRest(env, payer, remainingFees, dist, sentCoins, old(ledger));
    }

    /** The end of `DeductFeesDistributions`: the rest goes to the fee collector. */
    method SweepRest(env: Env, payer: string, remainingFees: Coins, ghost dist: Fees, sentCoins: Coins,
                     ghost start: Ledger<string>) returns (ok: bool)
      requires PaidOut(start, ledger, payer, env.collector, dist, sentCoins)
      requires AllCoinsValid(dist)
      modifies this`ledger
      ensures ok ==> Enough(dist, remainingFees)
      ensures ok ==> AllSwept(start, ledger, payer, env.collector, remainingFees, dist)
      ensures Enough(dist, remainingFees) && CoveredBy(remainingFees, Balance(start, payer)) ==> ok
    {
      var unsentFee := Sub(remainingFees, sentCoins);
      EnoughLeft(dist, remainingFees, sentCoins);
      if AnyNegative(unsentFee) {
        return false;
      }
      if unsentFee != NoCoins {
        RestSwept(start, ledger, env, payer, remainingFees, dist, sentCoins);
        if CoveredBy(remainingFees, Balance(start, payer)) && Enough(dist, remainingFees) {
          CanSweep(start, ledger, payer, env.collector, dist, sentCoins, remainingFees);
        }
        ok := SendCoins(payer, env.collector, unsentFee);
        return;
      }
      NothingToSweep(start, ledger, env, payer, remainingFees, dist, sentCoins);
      ok := true;
    }
  
    /** `GetFeePayerUsingFeeGrant`: the granter pays if there is one other than the payer, out of its grant. */
    method GetFeePayerUsingFeeGrant(env: Env, tx: Tx, fee: Coins, grantAccepts: bool) returns (r: Option<string>)
      modifies this`grantUsed
      ensures r.Some? <==> (tx.granter.Some? && tx.granter.value != tx.payer ==> env.grantsEnabled && grantAccepts)
      ensures r.Some? && tx.granter.Some? && tx.granter.value != tx.payer ==>
                var grant := Grant(tx.granter.value, tx.payer);
                && r.value == tx.granter.value
                && grantUsed == old(grantUsed)[grant := Add(Get(old(grantUsed), grant), fee)]
      ensures r.Some? && (tx.granter.None? || tx.granter.value == tx.payer) ==>
                r.value == tx.payer && grantUsed == old(grantUsed)
      ensures r.None? ==> grantUsed == old(grantUsed)
    {
      if tx.granter.Some? && tx.granter.value != tx.payer {
        if !env.grantsEnabled || !grantAccepts {
          return None;
        }
        var grant := Grant(tx.granter.value, tx.payer);
        grantUsed := grantUsed[grant := Add(Get(grantUsed, grant), fee)];
        return Some(tx.granter.value);
      }
      return Some(tx.payer);
    }

    /** `consumeMsgFees`: charges one message. It fails exactly when the message's fees cannot be calculated or
        the transaction's fee does not cover them on top of the base fee and all charged before; it then leaves
        the meter as it was. */
    method ConsumeMsgFees(env: Env, tx: Tx, msg: Msg) returns (ok: bool)
      requires meter.Valid() && SdkCoins.Valid(tx.fee)
      modifies meter`usedFees, meter`feeCalls, meter`history
      ensures meter.Valid()
      ensures !ok ==> unchanged(meter)
      ensures ok <==> Chargeable(env, tx, msg, old(meter.history), meter.simulate)
      ensures ok ==> Routed(env, msg, old(meter.history), meter.history)
      ensures ok && Collected(DuesOf(env.schedule, [msg]).value).total == NoCoins ==> unchanged(meter)
      ensures ok && meter.history != old(meter.history) && !meter.simulate ==> Covered(env, tx, meter.history)
    {
      var calculated, feeDist := CalculateAdditionalFees(env.schedule, [msg]);
      if !calculated {
        return false;
      }
      ghost var p := Collected(DuesOf(env.schedule, [msg]).value);
      CollectedSound(DuesOf(env.schedule, [msg]).value);
      if feeDist.total != NoCoins {
        if !meter.simulate {
          var consumed := meter.FeeConsumed();
          var sufficient := EnsureSufficientFloorAndMsgFees(
            tx.fee, env.floorDenom, env.floorPrice, tx.gas, Add(consumed, feeDist.total));
          assert sufficient <==>
                 forall d :: Amt(BaseFee(env, tx), d) + Charged(meter.history, d) + Amt(p.total, d) <= Amt(tx.fee, d);
          if !sufficient {
            return false;
          }
        }
        ChargeAll(msg.typeURL, feeDist.moduleFees, feeDist.recipients);
      }
      return true;
    }

    /** The charging part of `consumeMsgFees`. */
    method ChargeAll(msgType: string, moduleFees: Coins, recipients: Fees)
      requires meter.Valid() && SdkCoins.Valid(moduleFees) && AllCoinsValid(recipients) && "" !in recipients
      modifies meter`usedFees, meter`feeCalls, meter`history
      ensures meter.Valid()
      ensures ChargedSince(old(meter.history), meter.history, moduleFees, recipients)
      ensures ChargedAs(old(meter.history), meter.history, msgType, recipients.Keys)
    {
      if moduleFees != NoCoins {
        ChargedSinceModule(meter.history, moduleFees, msgType);
        meter.ConsumeFee(moduleFees, msgType, "");
      } else {
        ChargedSinceNothing(meter.history);
      }
      var todo := recipients.Keys;
      assert DistExcept(recipients, todo) == map[];
      while todo != {}
        invariant todo <= recipients.Keys
        invariant meter.Valid()
        invariant ChargedSince(old(meter.history), meter.history, moduleFees, DistExcept(recipients, todo))
        invariant ChargedAs(old(meter.history), meter.history, msgType, recipients.Keys)
      {
        var recipient :| recipient in todo;
        DistExceptNext(recipients, todo, recipient);
        ChargedSinceNext(old(meter.history), meter.history, moduleFees, DistExcept(recipients, todo),
                         recipient, recipients[recipient], msgType);
        meter.ConsumeFee(recipients[recipient], msgType, recipient);
        todo := todo - {recipient};
      }
      assert DistExcept(recipients, todo) == recipients;
    }
  
    /** `checkDeductBaseFee`: finds the payer, checks that it has the additional fees of all the messages, and
        takes the base fee from it. The base fee is only taken for real, outside of genesis. */
    method CheckDeductBaseFee(env: Env, tx: Tx, genesis: bool, grantAccepts: bool) returns (ok: bool)
      requires meter.Valid()
      modifies this, meter`baseFeeCharged
      ensures meter.Valid()
      ensures ok <==> Admissible(env, tx, old(ledger), meter.simulate || genesis, meter.simulate, grantAccepts)
      ensures !ok || meter.simulate || genesis ==>
                ledger == old(ledger) && meter.baseFeeCharged == old(meter.baseFeeCharged)
      ensures ok && !meter.simulate && !genesis ==>
                && meter.baseFeeCharged == (if BaseFee(env, tx) == NoCoins then old(meter.baseFeeCharged) else BaseFee(env, tx))
                && AllBaseTaken(old(ledger), ledger, PayerOf(tx), env.collector, BaseFee(env, tx))
      ensures ok ==> grantUsed == WithGrantUsed(old(grantUsed), tx, BaseFee(env, tx))
    {
      ok := false;
      if env.collectorSet {
        var baseFeeToConsume := BaseFee(env, tx);
        var calculated, feeDist := CalculateAdditionalFees(env.schedule, tx.msgs);
        if calculated {
          ok := PayBaseFee(env, tx, genesis, grantAccepts, baseFeeToConsume, feeDist.total);
        }
      }
    }

    /** The rest of `checkDeductBaseFee`, once the fees are known. */
    method PayBaseFee(env: Env, tx: Tx, genesis: bool, grantAccepts: bool, base: Coins, requiredFunds: Coins)
      returns (ok: bool)
      requires meter.Valid() && SdkCoins.Valid(base)
      modifies this, meter`baseFeeCharged
      ensures meter.Valid()
      ensures ok <==>
              && (UsesGrant(tx) ==> env.grantsEnabled && grantAccepts)
              && PayerOf(tx) in env.accounts
              && (meter.simulate || CoveredBy(requiredFunds, Balance(old(ledger), PayerOf(tx))))
              && (meter.simulate || genesis || CoveredBy(base, Balance(old(ledger), PayerOf(tx))))
      ensures !ok || meter.simulate || genesis ==>
                ledger == old(ledger) && meter.baseFeeCharged == old(meter.baseFeeCharged)
      ensures ok && !meter.simulate && !genesis ==>
                && meter.baseFeeCharged == (if base == NoCoins then old(meter.baseFeeCharged) else base)
                && AllBaseTaken(old(ledger), ledger, PayerOf(tx), env.collector, base)
      ensures ok ==> grantUsed == WithGrantUsed(old(grantUsed), tx, base)
    {
      ok := false;
      var deductFeesFrom := GetFeePayerUsingFeeGrant(env, tx, base, grantAccepts);
      if deductFeesFrom.Some? && deductFeesFrom.value in env.accounts {
        var hasFunds := HasFunds(deductFeesFrom.value, requiredFunds);
        if hasFunds || meter.simulate {
          ok := true;
          if !meter.simulate && !genesis {
            ok := TakeBaseFee(env, deductFeesFrom.value, base);
          }
        }
      }
    }

    /** The end of `checkDeductBaseFee`: a base fee other than zero is taken and put on the meter. */
    method TakeBaseFee(env: Env, payer: string, base: Coins) returns (ok: bool)
      requires meter.Valid() && SdkCoins.Valid(base)
      modifies this`ledger, meter`baseFeeCharged
      ensures meter.Valid()
      ensures ok <==> CoveredBy(base, Balance(old(ledger), payer))
      ensures !ok ==> ledger == old(ledger) && meter.baseFeeCharged == old(meter.baseFeeCharged)
      ensures ok ==> AllBaseTaken(old(ledger), ledger, payer, env.collector, base)
      ensures ok ==> meter.baseFeeCharged == if base == NoCoins then old(meter.baseFeeCharged) else base
    {
      ok := true;
      if base != NoCoins {
        ok := SendCoins(payer, env.collector, base);
        if !ok {
          return;
        }
        meter.ConsumeBaseFee(base);
      }
      BaseTakenBy(old(ledger), ledger, payer, env.collector, base);
    }

    /** The payer's balance of each required denom against what is required. */
    method HasFunds(payer: string, requiredFunds: Coins) returns (enough: bool)
      ensures enough <==> CoveredBy(requiredFunds, Balance(ledger, payer))
    {
      var balancePerCoin := NoCoins;
      var todo := requiredFunds.Keys;
      while todo != {}
        invariant todo <= requiredFunds.Keys
        invariant forall d :: Amt(balancePerCoin, d) ==
                              if d in requiredFunds.Keys - todo then Bal(ledger, payer, d) else 0
      {
        var denom :| denom in todo;
        balancePerCoin := Add(balancePerCoin, OneCoin(denom, Bal(ledger, payer, denom)));
        todo := todo - {denom};
      }
      assert forall d :: Amt(Sub(balancePerCoin, requiredFunds), d) ==
                         if d in requiredFunds then Bal(ledger, payer, d) - requiredFunds[d] else 0;
      enough := !AnyNegative(Sub(balancePerCoin, requiredFunds));
    }

    /** `Invoke`: sweeps what is left of the fee. It succeeds only if base fee and recorded fees are within the
        fee; then the payer has paid exactly the rest of the fee, and the base fee reported is the fee less the
        recorded fees, never less than the base fee taken. A payer with the funds is refused only if they are not. */
    method Invoke(env: Env, tx: Tx, grantAccepts: bool) returns (r: Option<Receipt>)
      requires meter.Valid() && SdkCoins.Valid(tx.fee) && SdkCoins.Valid(meter.baseFeeCharged)
      modifies this
      ensures r.Some? ==> Settleable(tx, meter.baseFeeCharged, meter.history)
      ensures r.Some? ==>
                && r.value.charged == Sub(tx.fee, meter.baseFeeCharged)
                && Distributes(r.value.dist, meter.usedFees)
                && AllSwept(old(ledger), ledger, PayerOf(tx), env.collector, r.value.charged, r.value.dist)
      ensures r.Some? ==> Reported(tx, meter.baseFeeCharged, meter.history, r.value.baseFeeEvent)
      ensures r.Some? ==>
                grantUsed == WithGrantUsed(old(grantUsed), tx, r.value.charged)
      ensures r.Some? ==> (UsesGrant(tx) ==> env.grantsEnabled && grantAccepts) && PayerOf(tx) in env.accounts
      ensures CanPay(env, tx, meter.usedFees, meter.baseFeeCharged, old(ledger), grantAccepts) ==>
                (r.Some? <==> Settleable(tx, meter.baseFeeCharged, meter.history))
    {
      hide KeySum, PartSum;
      r := None;
      var consumedFees := meter.FeeConsumed();
      var unchargedFees := Sub(tx.fee, meter.baseFeeCharged);
      var deductFeesFrom := GetFeePayerUsingFeeGrant(env, tx, unchargedFees, grantAccepts);
      if deductFeesFrom.Some? && deductFeesFrom.value in env.accounts {
        var swept, dist := Sweep(env, deductFeesFrom.value, unchargedFees, consumedFees);
        SettleableIsEnough(tx, meter.baseFeeCharged, meter.history, dist);
        if swept {
          var baseFeeEvent := BaseFeeEvent(tx, unchargedFees, consumedFees);
          r := Some(Receipt(unchargedFees, baseFeeEvent, dist));
        }
      }
    }

    /** The base fee that `Invoke` reports when there are recorded fees. */
    method BaseFeeEvent(tx: Tx, chargedFees: Coins, consumedFees: Coins) returns (event: Option<Coins>)
      requires SdkCoins.Valid(meter.baseFeeCharged) && Settleable(tx, meter.baseFeeCharged, meter.history)
      requires chargedFees == Sub(tx.fee, meter.baseFeeCharged)
      requires forall d :: Amt(consumedFees, d) == Charged(meter.history, d)
      ensures Reported(tx, meter.baseFeeCharged, meter.history, event)
    {
      if consumedFees == NoCoins {
        assert forall d :: Charged(meter.history, d) == Amt(consumedFees, d) == 0;
        return None;
      }
      var nonMsgFees := Sub(Add(meter.baseFeeCharged, chargedFees), consumedFees);
      NonMsgFees(tx, meter.baseFeeCharged, meter.history, consumedFees);
      assert !AnyNegative(nonMsgFees);
      return Some(nonMsgFees);
    }

    /** The part of `Invoke` that moves coins, if there is anything to move. */
    method Sweep(env: Env, payer: string, unchargedFees: Coins, consumedFees: Coins) returns (ok: bool, dist: Fees)
      requires meter.Valid()
      requires forall d :: Amt(consumedFees, d) == Charged(meter.history, d)
      modifies this`ledger
      ensures Distributes(dist, meter.usedFees)
      ensures forall d :: MapTotal(dist, d) == Charged(meter.history, d)
      ensures ok ==> Enough(dist, unchargedFees)
      ensures ok ==> AllSwept(old(ledger), ledger, payer, env.collector, unchargedFees, dist)
      ensures RecipientsKnown(env, meter.usedFees) && CoveredBy(unchargedFees, Balance(old(ledger), payer)) ==>
                (ok <==> Enough(dist, unchargedFees))
    {
      dist := meter.FeeConsumedDistributions();
      ok := true;
      if unchargedFees != NoCoins || consumedFees != NoCoins {
        ok := DeductFeesDistributions(env, payer, unchargedFees, dist);
      } else {
        assert forall d :: Amt(consumedFees, d) == 0;
        NothingSwept(ledger, payer, env.collector, dist);
      }
    }
  
    /** The messages of a transaction, one after the other, each charged before it runs. Whatever the handlers do, the
        run succeeds exactly if every message can be charged when its turn comes and none fails, and has then charged
        exactly the dues and the unchecked fees. Unless a handler charges fees of its own, the fee covers everything
        charged after every step that charged something. */
    method RunMessages(env: Env, tx: Tx, effects: seq<Effect>) returns (ok: bool)
      requires meter.Valid() && SdkCoins.Valid(tx.fee) && !meter.simulate
      requires |effects| == |tx.msgs| && forall i :: 0 <= i < |effects| ==> EffectValid(effects[i])
      modifies this`ledger, meter`usedFees, meter`feeCalls, meter`history
      ensures meter.Valid()
      ensures ok <==> RunBorne(env, tx, old(meter.history), effects)
      ensures ok ==> RunSoFar(env, tx, old(meter.history), effects, |tx.msgs|, meter.history)
      ensures ok ==> RunShares(env, tx, old(meter.history), effects, |tx.msgs|, meter.history)
      ensures ok ==> AllChanged(old(ledger), ledger, effects)
      ensures NoUncheckedFees(effects) ==> meter.history == old(meter.history) || Covered(env, tx, meter.history)
      ensures ok && AllKnown(env, tx, effects) && ChargesKnown(env, old(meter.history)) ==>
                ChargesKnown(env, meter.history)
    {
      hide Running, RunSoFar, RunShares, RunBorne, Chargeable, Covered, Records, ChargesKnown, AllKnown, Routed, AllChanged;
      ghost var h0 := meter.history;
      RunStart(env, tx, h0, effects);
      NothingChanged(ledger, effects);
      for i := 0 to |tx.msgs|
        invariant meter.Valid()
        invariant AllChanged(old(ledger), ledger, effects[..i])
        invariant NoUncheckedFees(effects) ==> meter.history == h0 || Covered(env, tx, meter.history)
        invariant Running(env, tx, h0, effects, i, meter.history)
      {
        ghost var before := meter.history;
        ghost var charged;
        ChangedNext(old(ledger), ledger, effects, i);
        ok, charged := Route(env, tx, tx.msgs[i], effects[i]);
        if !ok {
          RunStops(env, tx, h0, effects, i, before);
          return;
        }
        RunningNext(env, tx, h0, effects, i, before, charged);
      }
      assert effects[..|effects|] == effects;
      RunEnds(env, tx, h0, effects, meter.history);
      ok := true;
    }

    /** The route of a message: its fees are charged, then it is validated and handled, which may fail. */
    method Route(env: Env, tx: Tx, msg: Msg, effect: Effect) returns (ok: bool, ghost charged: seq<Charge>)
      requires meter.Valid() && SdkCoins.Valid(tx.fee) && EffectValid(effect)
      modifies this`ledger, meter`usedFees, meter`feeCalls, meter`history
      ensures meter.Valid()
      ensures ok <==> Chargeable(env, tx, msg, old(meter.history), meter.simulate) && !effect.fails
      ensures ok ==> Routed(env, msg, old(meter.history), charged) && meter.history == charged + NonZero(effect.fees)
      ensures ok ==> ledger == Changed(old(ledger), effect.change)
      ensures effect.fees == [] && !meter.simulate ==>
                meter.history == old(meter.history) || Covered(env, tx, meter.history)
    {
      hide Chargeable, Routed, Covered, Records;
      ok := ConsumeMsgFees(env, tx, msg);
      charged := meter.history;
      if ok {
        ChargeUnchecked(effect.fees);
        assert effect.fees == [] ==> charged + NonZero(effect.fees) == charged;
        ledger := Changed(ledger, effect.change);
        ok := !effect.fails;
      }
    }

    /** `ConsumeMsgFee`, as often as a handler likes: no check is made. */
    method ChargeUnchecked(fees: seq<Charge>)
      requires meter.Valid() && forall i :: 0 <= i < |fees| ==> SdkCoins.Valid(fees[i].amount)
      modifies meter`usedFees, meter`feeCalls, meter`history
      ensures meter.Valid() && meter.history == old(meter.history) + NonZero(fees)
    {
      for i := 0 to |fees|
        invariant meter.Valid() && meter.history == old(meter.history) + NonZero(fees[..i])
      {
        assert fees[..i+1][..i] == fees[..i];
        if fees[i].amount != NoCoins {
          meter.ConsumeFee(fees[i].amount, fees[i].msgType, fees[i].recipient);
        }
      }
      assert fees[..|fees|] == fees;
    }

    /** A whole transaction. If it succeeds: everything charged fits in the fee with the base fee; the grant, if one
        is used, was used for exactly the fee; and, whatever the messages did, the paying account has paid exactly
        the fee, every recipient has exactly what was charged for it, and the collector has the rest of the fee.
        A transaction of a funded payer, with addresses for recipients, goes through exactly if it is deliverable. */
    method DeliverTx(env: Env, tx: Tx, grantAcceptsBase: bool, grantAcceptsRest: bool, effects: seq<Effect>)
      returns (ok: bool)
      requires meter.Valid() && SdkCoins.Valid(tx.fee) && !meter.simulate && meter.baseFeeCharged == NoCoins
      requires |effects| == |tx.msgs| && forall i :: 0 <= i < |effects| ==> EffectValid(effects[i])
      modifies this, meter
      ensures ok ==> Covered(env, tx, meter.history)
      ensures ok && tx.granter.Some? && tx.granter.value != tx.payer ==>
                var grant := Grant(tx.granter.value, tx.payer);
                && grantUsed == old(grantUsed)[grant := Add(Get(old(grantUsed), grant), tx.fee)]
                && (Plain(meter.history) ==>
                      AllFeeSettled(old(ledger), ledger, tx, tx.granter.value, env.collector, effects, meter.history))
      ensures ok && (tx.granter.None? || tx.granter.value == tx.payer) ==>
                && grantUsed == old(grantUsed)
                && (Plain(meter.history) ==>
                      AllFeeSettled(old(ledger), ledger, tx, tx.payer, env.collector, effects, meter.history))
      ensures ok ==> RunCosts(env, tx, old(meter.history), effects, meter.history)
      ensures ok ==> Deliverable(env, tx, old(ledger), old(meter.history), effects, grantAcceptsBase, grantAcceptsRest)
      ensures Deliverable(env, tx, old(ledger), old(meter.history), effects, grantAcceptsBase, grantAcceptsRest) &&
              Funded(tx, old(ledger), effects) &&
              AllKnown(env, tx, effects) && ChargesKnown(env, old(meter.history)) ==>
                ok
    {
      hide Records, Distributes, AllSwept, AllChanged, AllBaseTaken, AllFeeSettled, Admissible, CanPay, Settleable,
           Covered, Reported, Plain, RunSoFar, RunShares, RunCosts, RunBorne, AllWithin, ChargesKnown, Funded, AllKnown;
      BaseFeeValid(env, tx);
      ghost var h0 := meter.history;
      ok := CheckDeductBaseFee(env, tx, false, grantAcceptsBase);
      if !ok {
        return;
      }
      ghost var afterBase := ledger;
      ok := RunMessages(env, tx, effects);
      if !ok {
        return;
      }
      ghost var afterMessages := ledger;
      CoveredIsWithin(env, tx, h0, effects, meter.history);
      RunCostsAre(env, tx, h0, effects, meter.history);
      if Funded(tx, old(ledger), effects) && AllKnown(env, tx, effects) && ChargesKnown(env, h0) {
        AdmittedCanPay(env, tx, old(ledger), afterBase, ledger, effects, meter.usedFees, meter.feeCalls, meter.history,
                       grantAcceptsBase, grantAcceptsRest);
      }
      SettleableIsCovered(env, tx, meter.history);
      var receipt := Invoke(env, tx, grantAcceptsRest);
      if receipt.None? {
        return false;
      }
      GrantTotal(old(grantUsed), tx, BaseFee(env, tx), tx.fee);
      if Plain(meter.history) {
        PhasesSettle(old(ledger), afterBase, afterMessages, ledger, tx, env, effects,
                     meter.usedFees, meter.feeCalls, receipt.value.dist, meter.history);
      }
    }
  }
}
