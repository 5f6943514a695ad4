/** Paying the recorded fees out of what remains of a transaction's fee: the distributions to their recipients,
    the rest to the fee collector. */
module FeePayout {
  import opened SdkCoins
  import opened CoinMaps
  import opened Ledgers
  import opened FeeMeter
  import opened MsgFees

  /** What the chain knows: the fee collector, the floor price, the fee schedule, the accounts that exist,
      the strings that are addresses, and whether fee grants are enabled. */
  datatype Env = Env(collector: string, collectorSet: bool, floorDenom: Denom, floorPrice: nat, schedule: Schedule,
                     accounts: set<string>, addresses: set<string>, grantsEnabled: bool)

  // ---------- paying out the distributions ----------

  /** What account a receives of denom d when the distributions are paid: its own, and the module's if it
      is the fee collector. */
  ghost function Paid(dist: Fees, collector: string, a: string, d: Denom): int {
    (if a != "" then Amt(Get(dist, a), d) else 0) + if a == collector then Amt(Get(dist, ""), d) else 0
  }

  /** The balance of a in d after the payer has sent the distributions in done. */
  ghost predicate BalAfter(l0: Ledger<string>, l: Ledger<string>, payer: string, collector: string, done: Fees, a: string, d: Denom) {
    Bal(l, a, d) == Bal(l0, a, d) - (if a == payer then MapTotal(done, d) else 0) + Paid(done, collector, a, d)
  }

  /** The distributions in done have been sent by the payer; sent is their sum. */
  ghost predicate PaidOut(l0: Ledger<string>, l: Ledger<string>, payer: string, collector: string, done: Fees, sent: Coins) {
    && (forall a, d :: BalAfter(l0, l, payer, collector, done, a, d))
    && (forall d :: Amt(sent, d) == MapTotal(done, d))
    && (forall d :: MapTotal(l, d) == MapTotal(l0, d))
  }

  /** The receiver of the distribution under a key. */
  function ReceiverOf(env: Env, key: string): string {
    if |key| == 0 then env.collector else key
  }

  lemma PaidNext(env: Env, done: Fees, key: string, coins: Coins, a: string, d: Denom)
    requires key !in done
    ensures Paid(done[key := coins], env.collector, a, d) ==
            Paid(done, env.collector, a, d) + if a == ReceiverOf(env, key) then Amt(coins, d) else 0
  {
    assert Amt(Get(done, key), d) == 0;
    assert forall k :: Get(done[key := coins], k) == if k == key then coins else Get(done, k);
  }

  lemma TotalNew(done: Fees, key: string, coins: Coins, d: Denom)
    requires key !in done
    ensures MapTotal(done[key := coins], d) == MapTotal(done, d) + Amt(coins, d)
  {
    SameAmounts(Add(Get(done, key), coins), coins);
    TotalAdd(done, key, coins, d);
  }

  lemma PayNextBal(l0: Ledger<string>, l: Ledger<string>, payer: string, env: Env, done: Fees, key: string, coins: Coins,
                   a: string, d: Denom)
    requires BalAfter(l0, l, payer, env.collector, done, a, d) && key !in done
    ensures BalAfter(l0, Moved(l, payer, ReceiverOf(env, key), coins), payer, env.collector, done[key := coins], a, d)
  {
    MovedBal(l, payer, ReceiverOf(env, key), coins, a, d);
    PaidNext(env, done, key, coins, a, d);
    TotalNew(done, key, coins, d);
  }

  lemma PayNextTotal(l: Ledger<string>, payer: string, env: Env, done: Fees, sent: Coins, key: string, coins: Coins, d: Denom)
    requires Amt(sent, d) == MapTotal(done, d) && key !in done
    ensures Amt(Add(sent, coins), d) == MapTotal(done[key := coins], d)
    ensures MapTotal(Moved(l, payer, ReceiverOf(env, key), coins), d) == MapTotal(l, d)
  {
    TotalNew(done, key, coins, d);
    MovedTotal(l, payer, ReceiverOf(env, key), coins, d);
  }

  lemma PayNext(l0: Ledger<string>, l: Ledger<string>, payer: string, env: Env, done: Fees, sent: Coins, key: string, coins: Coins)
    requires PaidOut(l0, l, payer, env.collector, done, sent)
    requires key !in done
    ensures PaidOut(l0, Moved(l, payer, ReceiverOf(env, key), coins), payer, env.collector,
                    done[key := coins], Add(sent, coins))
  {
    var l', done' := Moved(l, payer, ReceiverOf(env, key), coins), done[key := coins];
    forall a, d ensures BalAfter(l0, l', payer, env.collector, done', a, d) {
      assert BalAfter(l0, l, payer, env.collector, done, a, d);
      PayNextBal(l0, l, payer, env, done, key, coins, a, d);
    }
    forall d ensures Amt(Add(sent, coins), d) == MapTotal(done', d) && MapTotal(l', d) == MapTotal(l, d) {
      PayNextTotal(l, payer, env, done, sent, key, coins, d);
    }
  }

  /** The distributions but for the keys still to do. */
  ghost function DistExcept(dist: Fees, todo: set<string>): Fees {
    map k | k in dist && k !in todo :: dist[k]
  }

  /** A distribution the keeper accepts: valid amounts, to addresses. */
  ghost predicate Payables(env: Env, dist: Fees) {
    AllCoinsValid(dist) && forall k :: k in dist && k != "" ==> k in env.addresses
  }

  lemma DistExceptNext(dist: Fees, todo: set<string>, key: string)
    requires key in todo && todo <= dist.Keys
    ensures key !in DistExcept(dist, todo)
    ensures DistExcept(dist, todo - {key}) == DistExcept(dist, todo)[key := dist[key]]
  {
  }

  /** What the sweep does to the balance of a in d: the payer gives all that remains, the distributions are
      paid, and the collector gets the rest. */
  ghost predicate Swept(l0: Ledger<string>, l: Ledger<string>, payer: string, collector: string, remaining: Coins, dist: Fees,
                        a: string, d: Denom) {
    Bal(l, a, d) == Bal(l0, a, d) - (if a == payer then Amt(remaining, d) else 0) + Paid(dist, collector, a, d)
                    + if a == collector then Amt(remaining, d) - MapTotal(dist, d) else 0
  }

  ghost predicate AllSwept(l0: Ledger<string>, l: Ledger<string>, payer: string, collector: string, remaining: Coins, dist: Fees) {
    && (forall a, d :: Swept(l0, l, payer, collector, remaining, dist, a, d))
    && (forall d :: MapTotal(l, d) == MapTotal(l0, d))
  }

  /** A payer that can cover all that remains can cover the next distribution. */
  lemma CanPayNext(l0: Ledger<string>, l: Ledger<string>, payer: string, collector: string, dist: Fees, todo: set<string>,
                   sent: Coins, remaining: Coins, key: string)
    requires AllCoinsValid(dist) && key in todo && todo <= dist.Keys
    requires PaidOut(l0, l, payer, collector, DistExcept(dist, todo), sent)
    requires CoveredBy(remaining, Balance(l0, payer))
    requires Enough(dist, remaining)
    ensures CoveredBy(dist[key], Balance(l, payer))
  {
    var done := DistExcept(dist, todo);
    forall d | d in dist[key] ensures dist[key][d] <= Amt(Balance(l, payer), d) {
      assert BalAfter(l0, l, payer, collector, done, payer, d);
      DoneAndNext(dist, todo, key, d);
      KeySumNonNegative(done, done.Keys, d);
      PaidNonNegative(done, collector, payer, d);
      assert MapTotal(dist, d) <= Amt(remaining, d);
      assert d in remaining;
    }
  }

  lemma PaidNonNegative(dist: Fees, collector: string, a: string, d: Denom)
    requires AllCoinsValid(dist)
    ensures Paid(dist, collector, a, d) >= 0
  {
    assert Amt(Get(dist, a), d) >= 0 && Amt(Get(dist, ""), d) >= 0;
  }

  /** What is done and the next distribution are part of the whole. */
  lemma DoneAndNext(dist: Fees, todo: set<string>, key: string, d: Denom)
    requires AllCoinsValid(dist) && key in todo && todo <= dist.Keys
    ensures MapTotal(DistExcept(dist, todo), d) + Amt(dist[key], d) <= MapTotal(dist, d)
  {
    DistExceptNext(dist, todo, key);
    TotalNew(DistExcept(dist, todo), key, dist[key], d);
    DoneWithin(dist, todo - {key}, d);
  }

  lemma {:induction false} DoneWithin(dist: Fees, todo: set<string>, d: Denom)
    requires AllCoinsValid(dist) && todo <= dist.Keys
    ensures MapTotal(DistExcept(dist, todo), d) <= MapTotal(dist, d)
    decreases todo
  {
    if todo == {} {
      assert DistExcept(dist, todo) == dist;
    } else {
      var key :| key in todo;
      DistExceptNext(dist, todo, key);
      TotalNew(DistExcept(dist, todo), key, dist[key], d);
      DoneWithin(dist, todo - {key}, d);
    }
  }

  /** The distributions are no more than what remains. */
  ghost predicate Enough(dist: Fees, remaining: Coins) {
    forall d :: MapTotal(dist, d) <= Amt(remaining, d)
  }

  lemma EnoughLeft(dist: Fees, remaining: Coins, sent: Coins)
    requires forall d :: Amt(sent, d) == MapTotal(dist, d)
    ensures AnyNegative(Sub(remaining, sent)) <==> !Enough(dist, remaining)
    ensures Enough(dist, remaining) ==> Valid(Sub(remaining, sent))
  {
    var unsent := Sub(remaining, sent);
    assert forall d :: Amt(unsent, d) == Amt(remaining, d) - MapTotal(dist, d);
    if Enough(dist, remaining) {
      forall d | d in unsent ensures unsent[d] > 0 {
        assert Amt(unsent, d) == unsent[d];
      }
    }
  }

  lemma RestSwept(l0: Ledger<string>, l: Ledger<string>, env: Env, payer: string, remaining: Coins, dist: Fees, sent: Coins)
    requires PaidOut(l0, l, payer, env.collector, dist, sent)
    ensures AllSwept(l0, Moved(l, payer, env.collector, Sub(remaining, sent)), payer, env.collector, remaining, dist)
  {
    var unsent := Sub(remaining, sent);
    var l' := Moved(l, payer, env.collector, unsent);
    forall a, d ensures Swept(l0, l', payer, env.collector, remaining, dist, a, d) {
      assert BalAfter(l0, l, payer, env.collector, dist, a, d);
      MovedBal(l, payer, env.collector, unsent, a, d);
      assert Amt(sent, d) == MapTotal(dist, d);
    }
    forall d ensures MapTotal(l', d) == MapTotal(l, d) {
      MovedTotal(l, payer, env.collector, unsent, d);
    }
  }

  lemma NothingToSweep(l0: Ledger<string>, l: Ledger<string>, env: Env, payer: string, remaining: Coins, dist: Fees, sent: Coins)
    requires PaidOut(l0, l, payer, env.collector, dist, sent) && Sub(remaining, sent) == NoCoins
    ensures AllSwept(l0, l, payer, env.collector, remaining, dist)
  {
    forall a, d ensures Swept(l0, l, payer, env.collector, remaining, dist, a, d) {
      assert BalAfter(l0, l, payer, env.collector, dist, a, d);
      assert Amt(Sub(remaining, sent), d) == Amt(NoCoins, d);
    }
  }

  /** A payer that could cover all that remained can cover the rest. */
  lemma CanSweep(l0: Ledger<string>, l: Ledger<string>, payer: string, collector: string, dist: Fees, sent: Coins, remaining: Coins)
    requires AllCoinsValid(dist) && PaidOut(l0, l, payer, collector, dist, sent)
    requires CoveredBy(remaining, Balance(l0, payer))
    requires Enough(dist, remaining)
    ensures CoveredBy(Sub(remaining, sent), Balance(l, payer))
  {
    var unsent := Sub(remaining, sent);
    forall d | d in unsent ensures unsent[d] <= Amt(Balance(l, payer), d) {
      assert BalAfter(l0, l, payer, collector, dist, payer, d);
      PaidNonNegative(dist, collector, payer, d);
      KeySumNonNegative(dist, dist.Keys, d);
      assert Amt(unsent, d) == unsent[d] && MapTotal(dist, d) <= Amt(remaining, d);
      assert d in remaining;
    }
  }
}
