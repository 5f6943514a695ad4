/** Validation of the exchange's genesis state (`GenesisState.Validate`). The validity of single elements is part of
    the input: `ok` is the outcome of the element's own validation. A valid payment source is a Bech32 address (BIP-173),
    which has no space in it. */
module Genesis {
  import opened SdkCoins

  datatype Market = Market(marketId: nat, ok: bool)
  datatype Order = Order(orderId: nat, marketId: nat, ok: bool)
  datatype Commitment = Commitment(marketId: nat, ok: bool)
  datatype Payment = Payment(source: string, externalId: string, restOk: bool)

  datatype GenesisState = GenesisState(paramsOk: Option<bool>, markets: seq<Market>, orders: seq<Order>, lastOrderId: nat,
                                       commitments: seq<Commitment>, payments: seq<Payment>)

  // ---------- what a good state is ----------

  ghost predicate MarketsGood(markets: seq<Market>) {
    && (forall i :: 0 <= i < |markets| ==> markets[i].ok && markets[i].marketId != 0)
    && (forall i, j :: 0 <= i < j < |markets| ==> markets[i].marketId != markets[j].marketId)
  }

  ghost predicate OrdersGood(orders: seq<Order>, known: set<nat>) {
    && (forall i :: 0 <= i < |orders| ==> orders[i].ok && orders[i].marketId in known)
    && (forall i, j :: 0 <= i < j < |orders| && orders[i].orderId != 0 ==> orders[i].orderId != orders[j].orderId)
  }

  ghost predicate CommitmentsGood(cs: seq<Commitment>, known: set<nat>) {
    forall i :: 0 <= i < |cs| ==> cs[i].ok && cs[i].marketId in known
  }

  /** A payment is valid if its source is an address, so has no space, and the rest of it is in order. */
  predicate PaymentOk(p: Payment) {
    ' ' !in p.source && p.restOk
  }

  ghost predicate PaymentsGood(ps: seq<Payment>) {
    && (forall i :: 0 <= i < |ps| ==> PaymentOk(ps[i]))
    && (forall i, j :: 0 <= i < j < |ps| ==> ps[i].source != ps[j].source || ps[i].externalId != ps[j].externalId)
  }

  ghost function MarketIds(markets: seq<Market>): set<nat> {
    set i | 0 <= i < |markets| :: markets[i].marketId
  }

  ghost predicate Good(g: GenesisState) {
    && g.paramsOk != Some(false)
    && MarketsGood(g.markets)
    && OrdersGood(g.orders, MarketIds(g.markets))
    && (forall i :: 0 <= i < |g.orders| ==> g.orders[i].orderId <= g.lastOrderId)
    && CommitmentsGood(g.commitments, MarketIds(g.markets))
    && PaymentsGood(g.payments)
  }

  // ---------- the key of a payment ----------

  function PaymentKey(p: Payment): string {
    p.source + " " + p.externalId
  }

  /** Among payments whose sources have no space, the key tells pairs apart. */
  lemma KeyIsInjective(p: Payment, q: Payment)
    requires ' ' !in p.source && ' ' !in q.source && PaymentKey(p) == PaymentKey(q)
    ensures p.source == q.source && p.externalId == q.externalId
  {
    var k := PaymentKey(p);
    assert k[|p.source|] == ' ' && k[|q.source|] == ' ';
    assert forall i :: 0 <= i < |p.source| ==> k[i] == p.source[i] != ' ';
    assert forall i :: 0 <= i < |q.source| ==> k[i] == q.source[i] != ' ';
    assert |p.source| == |q.source|;
    assert p.source == k[..|p.source|] == q.source;
    assert p.externalId == k[|p.source| + 1..] == q.externalId;
  }

  // ---------- the sections ----------

  method CheckMarkets(markets: seq<Market>) returns (errs: nat, marketIDs: map<nat, int>)
    ensures errs == 0 <==> MarketsGood(markets)
    ensures errs == 0 ==> marketIDs.Keys == MarketIds(markets)
  {
    errs, marketIDs := 0, map[];
    for i := 0 to |markets|
      invariant errs == 0 <==> MarketsGood(markets[..i])
      invariant errs == 0 ==> marketIDs.Keys == MarketIds(markets[..i])
      invariant marketIDs.Keys <= MarketIds(markets[..i])
    {
      var market := markets[i];
      MarketsNext(markets, i);
      if market.marketId == 0 {
        errs := errs + 1;
      } else if market.marketId in marketIDs {
        errs := errs + 1;
      } else {
        marketIDs := marketIDs[market.marketId := i];
        if !market.ok {
          errs := errs + 1;
        }
      }
    }
    assert markets[..|markets|] == markets;
  }

  lemma MarketsNext(markets: seq<Market>, i: nat)
    requires i < |markets|
    ensures MarketIds(markets[..i+1]) == MarketIds(markets[..i]) + {markets[i].marketId}
    ensures MarketsGood(markets[..i+1]) <==>
            MarketsGood(markets[..i]) && markets[i].ok && markets[i].marketId != 0 &&
            markets[i].marketId !in MarketIds(markets[..i])
  {
    var before, after := markets[..i], markets[..i+1];
    assert forall j :: 0 <= j < i ==> before[j] == after[j];
    assert after[i] == markets[i];
    forall x ensures x in MarketIds(after) <==> x in MarketIds(before) || x == markets[i].marketId {
      if x in MarketIds(before) {
        var j :| 0 <= j < i && before[j].marketId == x;
        assert after[j].marketId == x;
      }
    }
  }

  ghost function OrderIds(orders: seq<Order>): set<nat> {
    set i | 0 <= i < |orders| && orders[i].orderId != 0 :: orders[i].orderId
  }

  /** max is the largest order id, zero if there is none. */
  ghost predicate IsMaxId(orders: seq<Order>, max: nat) {
    && (forall i :: 0 <= i < |orders| ==> orders[i].orderId <= max)
    && (max == 0 || exists i :: 0 <= i < |orders| && orders[i].orderId == max)
  }

  method CheckOrders(orders: seq<Order>, marketIDs: map<nat, int>) returns (errs: nat, maxOrderID: nat)
    ensures errs == 0 <==> OrdersGood(orders, marketIDs.Keys)
    ensures errs == 0 ==> IsMaxId(orders, maxOrderID)
  {
    errs, maxOrderID := 0, 0;
    var orderIDs: map<nat, int> := map[];
    for i := 0 to |orders|
      invariant errs == 0 <==> OrdersGood(orders[..i], marketIDs.Keys)
      invariant orderIDs.Keys == OrderIds(orders[..i])
      invariant errs == 0 ==> IsMaxId(orders[..i], maxOrderID)
    {
      var order := orders[i];
      OrdersNext(orders, marketIDs.Keys, i);
      MaxNext(orders, i, maxOrderID);
      var seen := order.orderId in orderIDs;
      if order.orderId != 0 && seen {
        errs := errs + 1;
      } else {
        if order.orderId != 0 {
          orderIDs := orderIDs[order.orderId := i];
        }
        if !order.ok {
          errs := errs + 1;
        } else {
          if order.marketId !in marketIDs {
            errs := errs + 1;
          }
          if order.orderId > maxOrderID {
            maxOrderID := order.orderId;
          }
        }
      }
    }
    assert orders[..|orders|] == orders;
  }

  lemma OrdersNext(orders: seq<Order>, known: set<nat>, i: nat)
    requires i < |orders|
    ensures OrderIds(orders[..i+1]) ==
            OrderIds(orders[..i]) + if orders[i].orderId != 0 then {orders[i].orderId} else {}
    ensures OrdersGood(orders[..i+1], known) <==>
            OrdersGood(orders[..i], known) && orders[i].ok && orders[i].marketId in known &&
            orders[i].orderId !in OrderIds(orders[..i])
  {
    var before, after := orders[..i], orders[..i+1];
    assert forall j :: 0 <= j < i ==> before[j] == after[j];
    assert after[i] == orders[i];
    forall x ensures x in OrderIds(after) <==> x in OrderIds(before) || (x == orders[i].orderId && x != 0) {
      if x in OrderIds(before) {
        var j :| 0 <= j < i && before[j].orderId == x && x != 0;
        assert after[j].orderId == x;
      }
    }
  }

  lemma MaxNext(orders: seq<Order>, i: nat, max: nat)
    requires i < |orders|
    ensures IsMaxId(orders[..i], max) ==>
              IsMaxId(orders[..i+1], if orders[i].orderId > max then orders[i].orderId else max)
  {
    var before, after := orders[..i], orders[..i+1];
    assert forall j :: 0 <= j < i ==> before[j] == after[j];
    assert after[i] == orders[i];
    if IsMaxId(before, max) && max != 0 {
      var j :| 0 <= j < |before| && before[j].orderId == max;
      assert after[j].orderId == max;
    }
  }

  method CheckCommitments(cs: seq<Commitment>, marketIDs: map<nat, int>) returns (errs: nat)
    ensures errs == 0 <==> CommitmentsGood(cs, marketIDs.Keys)
  {
    errs := 0;
    for i := 0 to |cs|
      invariant errs == 0 <==> forall j :: 0 <= j < i ==> cs[j].ok && cs[j].marketId in marketIDs
    {
      if !cs[i].ok {
        errs := errs + 1;
      } else if cs[i].marketId !in marketIDs {
        errs := errs + 1;
      }
    }
  }

  ghost function PaymentKeys(ps: seq<Payment>): set<string> {
    set i | 0 <= i < |ps| :: PaymentKey(ps[i])
  }

  method CheckPayments(ps: seq<Payment>) returns (errs: nat)
    ensures errs == 0 <==> PaymentsGood(ps)
  {
    errs := 0;
    var paymentIDs: map<string, int> := map[];
    for i := 0 to |ps|
      invariant errs == 0 <==> PaymentsGood(ps[..i])
      invariant paymentIDs.Keys == PaymentKeys(ps[..i])
    {
      hide PaymentsGood, PaymentKeys;
      PaymentsNext(ps, i);
      var id := ps[i].source + " " + ps[i].externalId;
      if id in paymentIDs {
        errs := errs + 1;
      } else if !PaymentOk(ps[i]) {
        errs := errs + 1;
      }
      paymentIDs := if id in paymentIDs then paymentIDs else paymentIDs[id := i];
    }
    assert ps[..|ps|] == ps;
  }

  lemma PaymentKeysNext(ps: seq<Payment>, i: nat)
    requires i < |ps|
    ensures PaymentKeys(ps[..i+1]) == PaymentKeys(ps[..i]) + {PaymentKey(ps[i])}
  {
    var before, after := ps[..i], ps[..i+1];
    forall k ensures k in PaymentKeys(after) <==> k in PaymentKeys(before) || k == PaymentKey(ps[i]) {
      if k in PaymentKeys(before) {
        var j :| 0 <= j < i && PaymentKey(before[j]) == k;
        assert after[j] == before[j];
      }
      if k in PaymentKeys(after) {
        var j :| 0 <= j <= i && PaymentKey(after[j]) == k;
        assert j < i ==> before[j] == after[j];
      }
      assert after[i] == ps[i];
    }
  }

  /** Among valid payments, a new key is a new pair. */
  lemma NewKeyIsNewPair(ps: seq<Payment>, i: nat)
    requires i < |ps| && PaymentOk(ps[i]) && forall j :: 0 <= j < i ==> PaymentOk(ps[j])
    ensures PaymentKey(ps[i]) !in PaymentKeys(ps[..i]) <==>
            forall j :: 0 <= j < i ==> ps[j].source != ps[i].source || ps[j].externalId != ps[i].externalId
  {
    var before := ps[..i];
    if PaymentKey(ps[i]) in PaymentKeys(before) {
      var j :| 0 <= j < i && PaymentKey(before[j]) == PaymentKey(ps[i]);
      KeyIsInjective(ps[j], ps[i]);
    } else {
      forall j | 0 <= j < i ensures ps[j].source != ps[i].source || ps[j].externalId != ps[i].externalId {
        assert PaymentKey(before[j]) in PaymentKeys(before);
      }
    }
  }

  lemma PaymentsNext(ps: seq<Payment>, i: nat)
    requires i < |ps|
    ensures PaymentKeys(ps[..i+1]) == PaymentKeys(ps[..i]) + {PaymentKey(ps[i])}
    ensures PaymentsGood(ps[..i+1]) <==>
            PaymentsGood(ps[..i]) && PaymentOk(ps[i]) && PaymentKey(ps[i]) !in PaymentKeys(ps[..i])
  {
    PaymentKeysNext(ps, i);
    var before, after := ps[..i], ps[..i+1];
    assert after == before + [ps[i]];
    if PaymentOk(ps[i]) && forall j :: 0 <= j < i ==> PaymentOk(before[j]) {
      assert forall j :: 0 <= j < i ==> before[j] == ps[j];
      NewKeyIsNewPair(ps, i);
    }
    PaymentsGoodNext(before, ps[i]);
  }

  lemma PaymentsGoodNext(ps: seq<Payment>, p: Payment)
    ensures PaymentsGood(ps + [p]) <==>
            PaymentsGood(ps) && PaymentOk(p) &&
            forall j :: 0 <= j < |ps| ==> ps[j].source != p.source || ps[j].externalId != p.externalId
  {
    var after := ps + [p];
    assert forall j :: 0 <= j < |ps| ==> after[j] == ps[j];
    assert after[|ps|] == p;
    if PaymentsGood(after) {
      assert forall j :: 0 <= j < |ps| ==> after[j].source != after[|ps|].source || after[j].externalId != after[|ps|].externalId;
    }
  }

  /** `Validate`: reports no error exactly if the state is good in every respect. */
  method Validate(g: GenesisState) returns (noError: bool)
    ensures noError <==> Good(g)
  {
    hide MarketsGood, OrdersGood, CommitmentsGood, PaymentsGood, MarketIds, IsMaxId;
    var errs := if g.paramsOk == Some(false) then 1 else 0;
    var marketErrs, marketIDs := CheckMarkets(g.markets);
    var orderErrs, maxOrderID := CheckOrders(g.orders, marketIDs);
    var lastErr := if g.lastOrderId < maxOrderID then 1 else 0;
    if orderErrs == 0 {
      MaxIsBound(g.orders, maxOrderID, g.lastOrderId);
    }
    var commitmentErrs := CheckCommitments(g.commitments, marketIDs);
    var paymentErrs := CheckPayments(g.payments);
    noError := errs + marketErrs + orderErrs + lastErr + commitmentErrs + paymentErrs == 0;
  }

  lemma MaxIsBound(orders: seq<Order>, max: nat, last: nat)
    requires IsMaxId(orders, max)
    ensures max <= last <==> forall i :: 0 <= i < |orders| ==> orders[i].orderId <= last
  {
  }
}
