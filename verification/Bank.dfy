/** Account balances, and moving coins between accounts the way the bank does it: the senders are
    debited one after the other, each debit is refused if the balance does not cover it, and only then
    are the receivers credited. */
module Bank {
  import opened SdkCoins
  import opened AccountAmounts
  import opened Ledgers
  import opened Transfers

  ghost function Debited(l: Ledger<Account>, es: seq<AccountAmount>): Ledger<Account> {
    if es == [] then l
    else
      var before, last := Debited(l, es[..|es|-1]), es[|es|-1];
      before[last.account := Sub(Balance(before, last.account), last.amount)]
  }

  ghost function Credited(l: Ledger<Account>, es: seq<AccountAmount>): Ledger<Account> {
    if es == [] then l
    else
      var before, last := Credited(l, es[..|es|-1]), es[|es|-1];
      before[last.account := Add(Balance(before, last.account), last.amount)]
  }

  /** No debit of the list is refused. */
  ghost predicate Debitable(l: Ledger<Account>, es: seq<AccountAmount>) {
    es == [] ||
    var init, last := es[..|es|-1], es[|es|-1];
    Debitable(l, init) && CoveredBy(last.amount, Balance(Debited(l, init), last.account))
  }

  /** Making the transfers in order; None as soon as a debit is refused. */
  ghost function MakeTransfers(l: Ledger<Account>, ts: seq<Transfer>): Option<Ledger<Account>> {
    if ts == [] then Some(l)
    else
      var before, last := MakeTransfers(l, ts[..|ts|-1]), ts[|ts|-1];
      if before.Some? && Debitable(before.value, last.inputs)
      then Some(Credited(Debited(before.value, last.inputs), last.outputs))
      else None
  }

  lemma {:induction false} DebitedBal(l: Ledger<Account>, es: seq<AccountAmount>, a: Account, d: Denom)
    ensures Bal(Debited(l, es), a, d) == Bal(l, a, d) - Of(es, a, d)
  {
    if es != [] {
      DebitedBal(l, es[..|es|-1], a, d);
    }
  }

  lemma {:induction false} CreditedBal(l: Ledger<Account>, es: seq<AccountAmount>, a: Account, d: Denom)
    ensures Bal(Credited(l, es), a, d) == Bal(l, a, d) + Of(es, a, d)
  {
    if es != [] {
      CreditedBal(l, es[..|es|-1], a, d);
    }
  }

  /** Accounts that can cover all their debits together can make them one by one. */
  lemma {:induction false} CoveredIsDebitable(l: Ledger<Account>, es: seq<AccountAmount>)
    requires AllValid(es)
    requires forall a, d :: Of(es, a, d) <= Bal(l, a, d)
    ensures Debitable(l, es)
  {
    if es != [] {
      var init, last := es[..|es|-1], es[|es|-1];
      forall a, d ensures Of(init, a, d) <= Bal(l, a, d) {
        assert Of(es, a, d) <= Bal(l, a, d);
        assert Amt(last.amount, d) >= 0;
      }
      CoveredIsDebitable(l, init);
      forall d | d in last.amount ensures last.amount[d] <= Amt(Balance(Debited(l, init), last.account), d) {
        assert Of(es, last.account, d) <= Bal(l, last.account, d);
        DebitedBal(l, init, last.account, d);
      }
    }
  }

  /** What a run of proper transfers that was not refused did to every balance. */
  lemma {:induction false} MadeBal(l: Ledger<Account>, ts: seq<Transfer>, a: Account, d: Denom)
    requires MakeTransfers(l, ts).Some?
    ensures Bal(MakeTransfers(l, ts).value, a, d) == Bal(l, a, d) - GivenBy(ts, a, d) + ReceivedBy(ts, a, d)
  {
    if ts != [] {
      MadeBal(l, ts[..|ts|-1], a, d);
      var before, last := MakeTransfers(l, ts[..|ts|-1]).value, ts[|ts|-1];
      DebitedBal(before, last.inputs, a, d);
      CreditedBal(Debited(before, last.inputs), last.outputs, a, d);
    }
  }

  lemma {:induction false} ReceivedNonNegative(ts: seq<Transfer>, a: Account, d: Denom)
    requires forall k :: 0 <= k < |ts| ==> Proper(ts[k])
    ensures ReceivedBy(ts, a, d) >= 0
  {
    if ts != [] {
      ReceivedNonNegative(ts[..|ts|-1], a, d);
      ValidNonNegative(ts[|ts|-1].outputs, a, d);
    }
  }

  lemma {:induction false} GivenMonotone(ts: seq<Transfer>, i: nat, a: Account, d: Denom)
    requires i <= |ts| && forall k :: 0 <= k < |ts| ==> Proper(ts[k])
    ensures GivenBy(ts[..i], a, d) <= GivenBy(ts, a, d)
    decreases |ts| - i
  {
    if i == |ts| {
      assert ts[..i] == ts;
    } else {
      GivenMonotone(ts, i + 1, a, d);
      assert ts[..i+1][..i] == ts[..i];
      ValidNonNegative(ts[i].inputs, a, d);
    }
  }

  /** If every account starts with all it is to give, no transfer of the run is ever refused. */
  lemma {:induction false} FundedNeverRefused(l: Ledger<Account>, ts: seq<Transfer>)
    requires forall k :: 0 <= k < |ts| ==> Proper(ts[k])
    requires forall a, d :: GivenBy(ts, a, d) <= Bal(l, a, d)
    ensures MakeTransfers(l, ts).Some?
  {
    if ts != [] {
      var init, last := ts[..|ts|-1], ts[|ts|-1];
      forall a, d ensures GivenBy(init, a, d) <= Bal(l, a, d) {
        GivenMonotone(ts, |ts| - 1, a, d);
      }
      FundedNeverRefused(l, init);
      var before := MakeTransfers(l, init).value;
      forall a, d ensures Of(last.inputs, a, d) <= Bal(before, a, d) {
        MadeBal(l, init, a, d);
        ReceivedNonNegative(init, a, d);
        assert GivenBy(ts, a, d) <= Bal(l, a, d);
      }
      CoveredIsDebitable(before, last.inputs);
    }
  }
}
