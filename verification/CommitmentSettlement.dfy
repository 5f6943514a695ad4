/** The transfers of a commitment settlement, fees included, against the settlement they stand for
    (`BuildCommitmentTransfers`). */
module CommitmentSettlement {
  import opened SdkCoins
  import opened AccountAmounts
  import opened Transfers
  import opened Ledgers
  import opened Bank

  /** The market's share of the credits: all of the fees. */
  ghost function FeeCredit(fees: seq<AccountAmount>, market: Account, a: Account, d: Denom): int {
    if a == market then Total(fees, d) else 0
  }

  /** The transfers together take the inputs and the fees, and give the outputs and, to the market, the fees. */
  ghost predicate MovesWithFees(ts: seq<Transfer>, inputs: seq<AccountAmount>, outputs: seq<AccountAmount>,
                                fees: seq<AccountAmount>, market: Account) {
    && (forall a, d :: GivenBy(ts, a, d) == Of(inputs, a, d) + Of(fees, a, d))
    && (forall a, d :: ReceivedBy(ts, a, d) == Of(outputs, a, d) + FeeCredit(fees, market, a, d))
  }

  /** The same, in proper transfers. */
  ghost predicate Settles(ts: seq<Transfer>, inputs: seq<AccountAmount>, outputs: seq<AccountAmount>,
                          fees: seq<AccountAmount>, market: Account) {
    (forall k :: 0 <= k < |ts| ==> Proper(ts[k])) && MovesWithFees(ts, inputs, outputs, fees, market)
  }

  /** `buildFeesTransfer`: all the fees go to the market, in one transfer. */
  method BuildFeesTransfer(market: Account, fees: seq<AccountAmount>) returns (r: Option<Transfer>)
    requires AllValid(fees)
    ensures r.None? <==> fees == []
    ensures r.Some? ==> PaysFees(r.value, fees, market) && Proper(r.value)
    ensures r.Some? ==> forall a, d :: Of(r.value.outputs, a, d) == FeeCredit(fees, market, a, d)
    ensures r.Some? && NoneEmpty(fees) ==> Filled(r.value)
  {
    if |fees| == 0 {
      return None;
    }
    var total := SumAccountAmounts(fees);
    var output := AccountAmount(market, total);
    SumIsValid(fees, total);
    forall a, d
      ensures Of([output], a, d) == FeeCredit(fees, market, a, d)
      ensures Total([output], d) == Total(fees, d)
    {
      assert [output][..0] == [];
      assert Of([output], a, d) == Of([output][..0], a, d) + if output.account == a then Amt(total, d) else 0;
    }
    SingleTotal(output, fees);
    if NoneEmpty(fees) {
      SumNotEmpty(fees, total);
    }
    return Some(Transfer(fees, [output]));
  }

  lemma SumIsValid(fees: seq<AccountAmount>, total: Coins)
    requires AllValid(fees)
    requires forall d :: Amt(total, d) == Total(fees, d)
    ensures Valid(total)
  {
    forall d | d in total ensures total[d] > 0 {
      assert Amt(total, d) == total[d];
      ValidTotal(fees, d);
    }
  }

  lemma SumNotEmpty(fees: seq<AccountAmount>, total: Coins)
    requires AllValid(fees) && NoneEmpty(fees) && fees != []
    requires forall d :: Amt(total, d) == Total(fees, d)
    ensures total != NoCoins
  {
    assert fees[0].amount != NoCoins;
    var d :| d in fees[0].amount;
    PrefixTotal(fees, 1, d);
    TotalNext(fees, 0, d);
    assert fees[..0] == [];
    assert Amt(total, d) > 0;
  }

  /** The transfers that `buildPrimaryTransfers` makes. */
  ghost predicate Primary(ts: seq<Transfer>, inputs: seq<AccountAmount>, outputs: seq<AccountAmount>) {
    if |inputs| == 1 || |outputs| == 1 then ts == [Transfer(inputs, outputs)]
    else if |inputs| > |outputs| then PaysInOrder(true, ts, outputs, inputs)
    else PaysInOrder(false, ts, inputs, outputs)
  }

  /** The transfer of all the fees to the market alone. */
  ghost predicate PaysFees(t: Transfer, fees: seq<AccountAmount>, market: Account) {
    && t.inputs == fees
    && |t.outputs| == 1 && t.outputs[0].account == market
    && forall d :: Amt(t.outputs[0].amount, d) == Total(fees, d)
  }

  /** The primary transfers in order and, if there are fees, the fees transfer last. */
  ghost predicate FeesLast(ts: seq<Transfer>, inputs: seq<AccountAmount>, outputs: seq<AccountAmount>,
                           fees: seq<AccountAmount>, market: Account) {
    if fees == [] then Primary(ts, inputs, outputs)
    else ts != [] && Primary(ts[..|ts|-1], inputs, outputs) && PaysFees(ts[|ts|-1], fees, market)
  }

  /** `BuildCommitmentTransfers`. */
  method BuildCommitmentTransfers(market: Account, inputs: seq<AccountAmount>, outputs: seq<AccountAmount>,
                                  fees: seq<AccountAmount>) returns (r: Option<seq<Transfer>>)
    requires AllValid(inputs) && AllValid(outputs) && AllValid(fees)
    ensures r.Some? <==> |inputs| == 1 || |outputs| == 1 || SameTotals(inputs, outputs)
    ensures r.Some? ==> FeesLast(r.value, inputs, outputs, fees, market)
    ensures r.Some? ==> MovesWithFees(r.value, inputs, outputs, fees, market)
    ensures SameTotals(inputs, outputs) ==> r.Some? && Settles(r.value, inputs, outputs, fees, market)
    ensures SameTotals(inputs, outputs) && NoneEmpty(inputs) && NoneEmpty(outputs) && NoneEmpty(fees) ==>
              forall k :: 0 <= k < |r.value| ==> Filled(r.value[k])
  {
    hide Proper, Filled, Serves, PaysInOrder, SameTotals, NoneEmpty, AllValid, Moves, MovesWithFees, Primary, PaysFees;
    var rv := BuildPrimaryTransfers(inputs, outputs);
    if rv.None? {
      return None;
    }
    IsPrimary(rv.value, inputs, outputs);
    var ft := BuildFeesTransfer(market, fees);
    if ft.None? {
      WithoutFeesMoves(rv.value, inputs, outputs, market);
      return rv;
    }
    var ts := rv.value + [ft.value];
    WithFees(rv.value, ft.value, inputs, outputs, fees, market);
    assert ts[..|ts|-1] == rv.value;
    return Some(ts);
  }

  lemma IsPrimary(ts: seq<Transfer>, inputs: seq<AccountAmount>, outputs: seq<AccountAmount>)
    requires |inputs| == 1 || |outputs| == 1 ==> ts == [Transfer(inputs, outputs)]
    requires |inputs| != 1 && |outputs| != 1 ==>
               if |inputs| > |outputs| then PaysInOrder(true, ts, outputs, inputs) else PaysInOrder(false, ts, inputs, outputs)
    ensures Primary(ts, inputs, outputs)
  {
    hide PaysInOrder;
  }

  lemma WithoutFeesMoves(ts: seq<Transfer>, inputs: seq<AccountAmount>, outputs: seq<AccountAmount>, market: Account)
    requires Moves(ts, inputs, outputs)
    ensures MovesWithFees(ts, inputs, outputs, [], market)
  {
  }

  lemma WithFees(primary: seq<Transfer>, ft: Transfer, inputs: seq<AccountAmount>, outputs: seq<AccountAmount>,
                 fees: seq<AccountAmount>, market: Account)
    requires Moves(primary, inputs, outputs)
    requires Proper(ft) && PaysFees(ft, fees, market)
    requires forall a, d :: Of(ft.outputs, a, d) == FeeCredit(fees, market, a, d)
    ensures MovesWithFees(primary + [ft], inputs, outputs, fees, market)
  {
    var ts := primary + [ft];
    assert ts[..|ts|-1] == primary;
    forall a, d
      ensures GivenBy(ts, a, d) == Of(inputs, a, d) + Of(fees, a, d)
      ensures ReceivedBy(ts, a, d) == Of(outputs, a, d) + FeeCredit(fees, market, a, d)
    {
      assert GivenBy(ts, a, d) == GivenBy(primary, a, d) + Of(fees, a, d);
      assert ReceivedBy(ts, a, d) == ReceivedBy(primary, a, d) + Of(ft.outputs, a, d);
    }
  }

  /** Refinement: on any ledger, if making the transfers one after the other is not refused, it leaves every balance as
      settling everything at once would; and if the transfers are proper and every account has its inputs and fees, it is
      not refused. */
  lemma TransfersRefineSettlement(l: Ledger<Account>, ts: seq<Transfer>, inputs: seq<AccountAmount>,
                                  outputs: seq<AccountAmount>, fees: seq<AccountAmount>, market: Account)
    requires MovesWithFees(ts, inputs, outputs, fees, market)
    ensures MakeTransfers(l, ts).Some? ==>
              forall a, d :: Bal(MakeTransfers(l, ts).value, a, d) ==
                             Bal(l, a, d) - Of(inputs, a, d) - Of(fees, a, d)
                             + Of(outputs, a, d) + FeeCredit(fees, market, a, d)
    ensures Settles(ts, inputs, outputs, fees, market) &&
            (forall a, d :: Of(inputs, a, d) + Of(fees, a, d) <= Bal(l, a, d)) ==>
              MakeTransfers(l, ts).Some?
  {
    if MakeTransfers(l, ts).Some? {
      forall a, d
        ensures Bal(MakeTransfers(l, ts).value, a, d) ==
                Bal(l, a, d) - Of(inputs, a, d) - Of(fees, a, d) + Of(outputs, a, d) + FeeCredit(fees, market, a, d)
      {
        MadeBal(l, ts, a, d);
      }
    }
    if Settles(ts, inputs, outputs, fees, market) && forall a, d :: Of(inputs, a, d) + Of(fees, a, d) <= Bal(l, a, d) {
      forall a, d ensures GivenBy(ts, a, d) <= Bal(l, a, d) {
        assert GivenBy(ts, a, d) == Of(inputs, a, d) + Of(fees, a, d);
      }
      FundedNeverRefused(l, ts);
    }
  }

  /** Since the fees come last, they can be paid out of what was received: if every account has its inputs, and its fees are
      within what it has after inputs and outputs, nothing is refused. */
  lemma FeesFromProceeds(l: Ledger<Account>, ts: seq<Transfer>, inputs: seq<AccountAmount>,
                         outputs: seq<AccountAmount>, fees: seq<AccountAmount>, market: Account)
    requires AllValid(fees) && Settles(ts, inputs, outputs, fees, market) && FeesLast(ts, inputs, outputs, fees, market)
    requires forall a, d :: Of(inputs, a, d) <= Bal(l, a, d)
    requires forall a, d :: Of(fees, a, d) <= Bal(l, a, d) - Of(inputs, a, d) + Of(outputs, a, d)
    ensures MakeTransfers(l, ts).Some?
  {
    hide Primary, Proper, PaysInOrder;
    var primary := if fees == [] then ts else ts[..|ts|-1];
    forall a, d ensures GivenBy(primary, a, d) == Of(inputs, a, d) && ReceivedBy(primary, a, d) == Of(outputs, a, d) {
      WithoutFees(ts, inputs, outputs, fees, market, a, d);
    }
    FundedNeverRefused(l, primary);
    if fees != [] {
      var after := MakeTransfers(l, primary).value;
      forall a, d ensures Of(fees, a, d) <= Bal(after, a, d) {
        MadeBal(l, primary, a, d);
      }
      CoveredIsDebitable(after, fees);
    }
  }

  /** Without the fees transfer, the transfers move the inputs and the outputs. */
  lemma WithoutFees(ts: seq<Transfer>, inputs: seq<AccountAmount>, outputs: seq<AccountAmount>,
                    fees: seq<AccountAmount>, market: Account, a: Account, d: Denom)
    requires MovesWithFees(ts, inputs, outputs, fees, market)
    requires fees != [] ==> ts != [] && PaysFees(ts[|ts|-1], fees, market)
    ensures var primary := if fees == [] then ts else ts[..|ts|-1];
      GivenBy(primary, a, d) == Of(inputs, a, d) && ReceivedBy(primary, a, d) == Of(outputs, a, d)
  {
    assert GivenBy(ts, a, d) == Of(inputs, a, d) + Of(fees, a, d);
    assert ReceivedBy(ts, a, d) == Of(outputs, a, d) + FeeCredit(fees, market, a, d);
    if fees != [] {
      var out := ts[|ts|-1].outputs;
      assert out[..0] == [];
      assert Of(out, a, d) == Of(out[..0], a, d) + if out[0].account == a then Amt(out[0].amount, d) else 0;
    }
  }
}
