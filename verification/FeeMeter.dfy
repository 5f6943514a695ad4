/** The meter that records the fees of a transaction's messages (`FeeGasMeter`).

    Go maps are walked in any order; so are they below. */
module FeeMeter {
  import opened SdkCoins
  import opened Sums
  import opened CoinMaps
  import opened FeeKeys

  /** One call of `ConsumeFee`. */
  datatype Charge = Charge(amount: Coins, msgType: string, recipient: string)

  function KeyOf(c: Charge): string {
    GetCompositeKey(c.msgType, c.recipient)
  }

  // ---------- what a history of charges adds up to ----------

  /** The amount of denom d charged under the key. */
  ghost function ChargedUnder(h: seq<Charge>, key: string, d: Denom): int {
    if h == [] then 0
    else ChargedUnder(h[..|h|-1], key, d) + if KeyOf(h[|h|-1]) == key then Amt(h[|h|-1].amount, d) else 0
  }

  /** The number of charges under the key. */
  ghost function CallsUnder(h: seq<Charge>, key: string): nat {
    if h == [] then 0 else CallsUnder(h[..|h|-1], key) + if KeyOf(h[|h|-1]) == key then 1 else 0
  }

  /** The amount of denom d charged in all. */
  ghost function Charged(h: seq<Charge>, d: Denom): int {
    if h == [] then 0 else Charged(h[..|h|-1], d) + Amt(h[|h|-1].amount, d)
  }

  /** The amount of denom d charged for the recipient ("" is the fee module). */
  ghost function ChargedFor(h: seq<Charge>, recipient: string, d: Denom): int {
    if h == [] then 0
    else ChargedFor(h[..|h|-1], recipient, d) +
         if h[|h|-1].recipient == recipient then Amt(h[|h|-1].amount, d) else 0
  }

  /** No message type and no recipient charged contains the delimiter. */
  ghost predicate Plain(h: seq<Charge>) {
    forall i :: 0 <= i < |h| ==> DELIMITER !in h[i].msgType && DELIMITER !in h[i].recipient
  }

  type Fees = map<string, Coins>
  type Calls = map<string, nat>

  function CallsOf(feeCalls: Calls, k: string): nat {
    if k in feeCalls then feeCalls[k] else 0
  }

  function FeesAfter(usedFees: Fees, c: Charge): Fees {
    usedFees[KeyOf(c) := Add(Get(usedFees, KeyOf(c)), c.amount)]
  }

  function CallsAfter(feeCalls: Calls, c: Charge): Calls {
    feeCalls[KeyOf(c) := CallsOf(feeCalls, KeyOf(c)) + 1]
  }

  /** Under each key, the used fees are what the history charged, and so is their total. */
  ghost predicate RecordsFees(usedFees: Fees, h: seq<Charge>) {
    && AllCoinsValid(usedFees)
    && (forall k, d :: Amt(Get(usedFees, k), d) == ChargedUnder(h, k, d))
    && (forall d :: MapTotal(usedFees, d) == Charged(h, d))
  }

  ghost predicate RecordsCalls(feeCalls: Calls, h: seq<Charge>) {
    forall k :: CallsOf(feeCalls, k) == CallsUnder(h, k)
  }

  /** The keys that name a recipient hold what the history charged for that recipient. */
  ghost predicate RecordsRecipients(usedFees: Fees, h: seq<Charge>) {
    forall r, d :: PartSum(usedFees, usedFees.Keys, r, d) == ChargedFor(h, r, d)
  }

  lemma RecordFeesNext(usedFees: Fees, h: seq<Charge>, c: Charge)
    requires RecordsFees(usedFees, h) && Valid(c.amount)
    ensures RecordsFees(FeesAfter(usedFees, c), h + [c])
  {
    var fees := FeesAfter(usedFees, c);
    assert (h + [c])[..|h|] == h;
    forall d ensures MapTotal(fees, d) == Charged(h + [c], d) {
      TotalAdd(usedFees, KeyOf(c), c.amount, d);
      assert MapTotal(usedFees, d) == Charged(h, d);
    }
    forall k, d ensures Amt(Get(fees, k), d) == ChargedUnder(h + [c], k, d) {
      assert Amt(Get(usedFees, k), d) == ChargedUnder(h, k, d);
    }
    AddValid(Get(usedFees, KeyOf(c)), c.amount);
  }

  lemma RecordCallsNext(feeCalls: Calls, h: seq<Charge>, c: Charge)
    requires RecordsCalls(feeCalls, h)
    ensures RecordsCalls(CallsAfter(feeCalls, c), h + [c])
  {
    assert (h + [c])[..|h|] == h;
    forall k ensures CallsOf(CallsAfter(feeCalls, c), k) == CallsUnder(h + [c], k) {
      assert CallsOf(feeCalls, k) == CallsUnder(h, k);
    }
  }

  lemma RecordRecipientsNext(usedFees: Fees, h: seq<Charge>, c: Charge)
    requires RecordsRecipients(usedFees, h)
    requires DELIMITER !in c.msgType && DELIMITER !in c.recipient
    ensures RecordsRecipients(FeesAfter(usedFees, c), h + [c])
  {
    assert (h + [c])[..|h|] == h;
    SplitUndoesGet(c.msgType, c.recipient);
    var fees := FeesAfter(usedFees, c);
    forall r, d ensures PartSum(fees, fees.Keys, r, d) == ChargedFor(h + [c], r, d) {
      PartSumCharge(usedFees, KeyOf(c), c.amount, r, d);
      assert PartSum(usedFees, usedFees.Keys, r, d) == ChargedFor(h, r, d);
    }
  }

  /** Every key with used fees was charged. */
  ghost predicate RecordsKeys(usedFees: Fees, h: seq<Charge>) {
    forall k :: k in usedFees ==> exists i :: 0 <= i < |h| && KeyOf(h[i]) == k
  }

  lemma RecordKeysNext(usedFees: Fees, h: seq<Charge>, c: Charge)
    requires RecordsKeys(usedFees, h)
    ensures RecordsKeys(FeesAfter(usedFees, c), h + [c])
  {
    forall k | k in FeesAfter(usedFees, c) ensures exists i :: 0 <= i < |h + [c]| && KeyOf((h + [c])[i]) == k {
      if k == KeyOf(c) {
        assert (h + [c])[|h|] == c;
      } else {
        var i :| 0 <= i < |h| && KeyOf(h[i]) == k;
        assert (h + [c])[i] == h[i];
      }
    }
  }

  /** Fees, call counts and, as long as no key is ambiguous, recipients are those of the history. */
  ghost predicate Records(usedFees: Fees, feeCalls: Calls, h: seq<Charge>) {
    && RecordsKeys(usedFees, h)
    && RecordsFees(usedFees, h)
    && RecordsCalls(feeCalls, h)
    && (Plain(h) ==> RecordsRecipients(usedFees, h))
  }

  lemma RecordNext(usedFees: Fees, feeCalls: Calls, h: seq<Charge>, c: Charge)
    requires Records(usedFees, feeCalls, h) && Valid(c.amount)
    ensures Records(FeesAfter(usedFees, c), CallsAfter(feeCalls, c), h + [c])
  {
    RecordKeysNext(usedFees, h, c);
    RecordFeesNext(usedFees, h, c);
    RecordCallsNext(feeCalls, h, c);
    if Plain(h + [c]) {
      PlainParts(h, c);
      RecordRecipientsNext(usedFees, h, c);
    }
  }

  lemma AddValid(a: Coins, b: Coins)
    requires Valid(a) && Valid(b)
    ensures Valid(Add(a, b))
  {
    forall d | d in Add(a, b) ensures Add(a, b)[d] > 0 {
      assert Amt(Add(a, b), d) == Add(a, b)[d] && Amt(a, d) >= 0 && Amt(b, d) >= 0;
    }
  }

  // ---------- by recipient ----------

  /** The part of key k that goes to recipient r: all of it if r is the recipient the key names. */
  ghost function PartFor(m: Fees, k: string, r: string, d: Denom): int {
    if SplitCompositeKey(k).1 == r then Amt(Get(m, k), d) else 0
  }

  ghost function PartSum(m: Fees, s: set<string>, r: string, d: Denom): int {
    SumOver(s, k => PartFor(m, k, r, d))
  }

  lemma PartSumRemove(m: Fees, s: set<string>, k: string, r: string, d: Denom)
    requires k in s
    ensures PartSum(m, s, r, d) == PartFor(m, k, r, d) + PartSum(m, s - {k}, r, d)
  {
    SumOverRemove(s, x => PartFor(m, x, r, d), k);
  }

  lemma PartSumSame(m: Fees, m': Fees, s: set<string>, r: string, d: Denom)
    requires forall k :: k in s ==> Amt(Get(m, k), d) == Amt(Get(m', k), d)
    ensures PartSum(m, s, r, d) == PartSum(m', s, r, d)
  {
    SumOverSame(s, x => PartFor(m, x, r, d), x => PartFor(m', x, r, d));
  }

  /** The distributions hold, for every recipient, the used fees of the keys that name it. */
  ghost predicate Distributes(dist: Fees, usedFees: Fees) {
    && AllCoinsValid(dist)
    && (forall r, d :: Amt(Get(dist, r), d) == PartSum(usedFees, usedFees.Keys, r, d))
    && (forall d :: MapTotal(dist, d) == MapTotal(usedFees, d))
  }

  /** The same, but for the keys still to do. */
  ghost predicate DistributesExcept(dist: Fees, usedFees: Fees, todo: set<string>) {
    && AllCoinsValid(dist)
    && PartsExcept(dist, usedFees, todo)
    && TotalsExcept(dist, usedFees, todo)
  }

  ghost predicate TotalsExcept(dist: Fees, usedFees: Fees, todo: set<string>) {
    forall d :: MapTotal(dist, d) + KeySum(usedFees, todo, d) == MapTotal(usedFees, d)
  }

  ghost predicate PartsExcept(dist: Fees, usedFees: Fees, todo: set<string>) {
    forall r, d :: Amt(Get(dist, r), d) + PartSum(usedFees, todo, r, d) == PartSum(usedFees, usedFees.Keys, r, d)
  }

  function DistAfter(dist: Fees, usedFees: Fees, k: string): Fees {
    var r := SplitCompositeKey(k).1;
    dist[r := Add(Get(dist, r), Get(usedFees, k))]
  }

  lemma PartsNext(dist: Fees, usedFees: Fees, todo: set<string>, k: string)
    requires PartsExcept(dist, usedFees, todo) && k in todo
    ensures PartsExcept(DistAfter(dist, usedFees, k), usedFees, todo - {k})
  {
    var dist' := DistAfter(dist, usedFees, k);
    forall x, d
      ensures Amt(Get(dist', x), d) + PartSum(usedFees, todo - {k}, x, d) == PartSum(usedFees, usedFees.Keys, x, d)
    {
      assert Amt(Get(dist, x), d) + PartSum(usedFees, todo, x, d) == PartSum(usedFees, usedFees.Keys, x, d);
      PartSumRemove(usedFees, todo, k, x, d);
    }
  }

  lemma DistributeNext(dist: Fees, usedFees: Fees, todo: set<string>, k: string)
    requires AllCoinsValid(usedFees) && DistributesExcept(dist, usedFees, todo) && k in todo
    ensures DistributesExcept(DistAfter(dist, usedFees, k), usedFees, todo - {k})
  {
    PartsNext(dist, usedFees, todo, k);
    TotalsNext(dist, usedFees, todo, k);
    AddValid(Get(dist, SplitCompositeKey(k).1), Get(usedFees, k));
  }

  lemma TotalsNext(dist: Fees, usedFees: Fees, todo: set<string>, k: string)
    requires TotalsExcept(dist, usedFees, todo) && k in todo
    ensures TotalsExcept(DistAfter(dist, usedFees, k), usedFees, todo - {k})
  {
    var r := SplitCompositeKey(k).1;
    var dist' := DistAfter(dist, usedFees, k);
    forall d ensures MapTotal(dist', d) + KeySum(usedFees, todo - {k}, d) == MapTotal(usedFees, d) {
      KeySumRemove(usedFees, todo, k, d);
      TotalAdd(dist, r, Get(usedFees, k), d);
    }
  }

  /** Charging one more adds to the recipient its key names, and to no other. */
  lemma PartSumCharge(m: Fees, k: string, c: Coins, r: string, d: Denom)
    ensures var m' := m[k := Add(Get(m, k), c)];
      PartSum(m', m'.Keys, r, d) ==
      PartSum(m, m.Keys, r, d) + if SplitCompositeKey(k).1 == r then Amt(c, d) else 0
  {
    var m' := m[k := Add(Get(m, k), c)];
    PartSumRemove(m', m'.Keys, k, r, d);
    PartSumSame(m, m', m'.Keys - {k}, r, d);
    assert m'.Keys - {k} == m.Keys - {k};
    if k in m {
      PartSumRemove(m, m.Keys, k, r, d);
    } else {
      assert m.Keys - {k} == m.Keys;
    }
  }

  // ---------- the meter ----------

  class FeeGasMeter {
    var usedFees: Fees
    var feeCalls: Calls
    var baseFeeCharged: Coins
    const simulate: bool
    /** Every `ConsumeFee` call so far, in order. */
    ghost var history: seq<Charge>

    ghost predicate Valid()
      reads this
    {
      Records(usedFees, feeCalls, history)
    }

    /** `NewFeeGasMeterWrapper`. */
    constructor (isSimulate: bool)
      ensures Valid() && history == [] && baseFeeCharged == NoCoins && simulate == isSimulate
    {
      usedFees, feeCalls, baseFeeCharged, simulate := map[], map[], NoCoins, isSimulate;
      history := [];
    }

    /** `ConsumeFee`. */
    method ConsumeFee(amount: Coins, msgType: string, recipient: string)
      requires Valid() && SdkCoins.Valid(amount)
      modifies this`usedFees, this`feeCalls, this`history
      ensures Valid() && history == old(history) + [Charge(amount, msgType, recipient)]
    {
      ghost var charge := Charge(amount, msgType, recipient);
      RecordNext(usedFees, feeCalls, history, charge);
      var key := GetCompositeKey(msgType, recipient);
      var cur := Get(usedFees, key);
      var next := if cur == NoCoins then amount else Add(cur, amount);
      assert next == Add(cur, amount) by {
        SameAmounts(next, Add(cur, amount));
      }
      usedFees := usedFees[key := next];
      feeCalls := feeCalls[key := CallsOf(feeCalls, key) + 1];
      history := history + [charge];
    }

    /** `FeeConsumed`: everything charged, denom by denom. */
    method FeeConsumed() returns (consumedFees: Coins)
      requires Valid()
      ensures forall d :: Amt(consumedFees, d) == Charged(history, d)
      ensures SdkCoins.Valid(consumedFees)
    {
      consumedFees := NoCoins;
      var todo := usedFees.Keys;
      while todo != {}
        invariant todo <= usedFees.Keys
        invariant SdkCoins.Valid(consumedFees)
        invariant forall d :: Amt(consumedFees, d) + KeySum(usedFees, todo, d) == MapTotal(usedFees, d)
      {
        var key :| key in todo;
        forall d ensures KeySum(usedFees, todo, d) == Amt(usedFees[key], d) + KeySum(usedFees, todo - {key}, d) {
          KeySumRemove(usedFees, todo, key, d);
        }
        AddValid(consumedFees, usedFees[key]);
        consumedFees := Add(consumedFees, usedFees[key]);
        todo := todo - {key};
      }
    }

    /** `FeeConsumedDistributions`: everything charged, by recipient. */
    method FeeConsumedDistributions() returns (dist: Fees)
      requires Valid()
      ensures Distributes(dist, usedFees)
      ensures forall r :: r in dist ==> exists k :: k in usedFees && SplitCompositeKey(k).1 == r
      ensures forall d :: MapTotal(dist, d) == Charged(history, d)
      ensures Plain(history) ==> forall r, d :: Amt(Get(dist, r), d) == ChargedFor(history, r, d)
    {
      dist := map[];
      var todo := usedFees.Keys;
      while todo != {}
        invariant todo <= usedFees.Keys
        invariant DistributesExcept(dist, usedFees, todo)
        invariant forall r :: r in dist ==> exists k :: k in usedFees && SplitCompositeKey(k).1 == r
      {
        var key :| key in todo;
        DistributeNext(dist, usedFees, todo, key);
        var (_, addressKey) := SplitCompositeKey(key);
        dist := dist[addressKey := Add(Get(dist, addressKey), usedFees[key])];
        todo := todo - {key};
      }
    }

    /** `FeeConsumedByMsg`: everything charged, by key. */
    method FeeConsumedByMsg() returns (consumedByMsg: Fees)
      requires Valid()
      ensures forall d :: MapTotal(consumedByMsg, d) == Charged(history, d)
      ensures forall k, d :: Amt(Get(consumedByMsg, k), d) == ChargedUnder(history, k, d)
    {
      consumedByMsg := map[];
      var todo := usedFees.Keys;
      while todo != {}
        invariant todo <= usedFees.Keys
        invariant consumedByMsg == map k | k in usedFees && k !in todo :: usedFees[k]
      {
        var key :| key in todo;
        consumedByMsg := consumedByMsg[key := usedFees[key]];
        todo := todo - {key};
      }
      assert consumedByMsg == usedFees;
    }

    /** `ConsumeBaseFee`. */
    method ConsumeBaseFee(amount: Coins)
      requires Valid()
      modifies this`baseFeeCharged
      ensures Valid() && baseFeeCharged == amount
    {
      baseFeeCharged := amount;
    }
  }

  lemma PlainParts(h: seq<Charge>, c: Charge)
    requires Plain(h + [c])
    ensures Plain(h) && DELIMITER !in c.msgType && DELIMITER !in c.recipient
  {
    forall i | 0 <= i < |h| ensures DELIMITER !in h[i].msgType && DELIMITER !in h[i].recipient {
      assert h[i] == (h + [c])[i];
    }
    assert (h + [c])[|h|] == c;
  }
}
