/** Turning a set of inputs and outputs into transfers that each have one input or one output
    (`buildPrimaryTransfers`, `buildFeesTransfer`, `BuildCommitmentTransfers`). */
module Transfers {
  import opened SdkCoins
  import opened AccountAmounts
  import opened DenomQueues
  import opened DenomSource

  datatype Transfer = Transfer(inputs: seq<AccountAmount>, outputs: seq<AccountAmount>)

  /** What account a gives of denom d over all the transfers. */
  ghost function GivenBy(ts: seq<Transfer>, a: Account, d: Denom): int {
    if ts == [] then 0 else GivenBy(ts[..|ts|-1], a, d) + Of(ts[|ts|-1].inputs, a, d)
  }

  /** What account a receives of denom d over all the transfers. */
  ghost function ReceivedBy(ts: seq<Transfer>, a: Account, d: Denom): int {
    if ts == [] then 0 else ReceivedBy(ts[..|ts|-1], a, d) + Of(ts[|ts|-1].outputs, a, d)
  }

  ghost predicate SameTotals(x: seq<AccountAmount>, y: seq<AccountAmount>) {
    forall d :: Total(x, d) == Total(y, d)
  }

  ghost predicate Balanced(t: Transfer) {
    SameTotals(t.inputs, t.outputs)
  }

  /** A transfer the bank can process: valid, balanced, one-to-many or many-to-one. */
  ghost predicate Proper(t: Transfer) {
    && AllValid(t.inputs) && AllValid(t.outputs)
    && Balanced(t)
    && (|t.inputs| == 1 || |t.outputs| == 1)
  }

  /** Nothing in the transfer is empty: it has inputs and outputs, and each of them has an amount. */
  ghost predicate Filled(t: Transfer) {
    t.inputs != [] && t.outputs != [] && NoneEmpty(t.inputs) && NoneEmpty(t.outputs)
  }

  /** Together the transfers take exactly the inputs and give exactly the outputs. */
  ghost predicate Moves(ts: seq<Transfer>, inputs: seq<AccountAmount>, outputs: seq<AccountAmount>) {
    && (forall a, d :: GivenBy(ts, a, d) == Of(inputs, a, d))
    && (forall a, d :: ReceivedBy(ts, a, d) == Of(outputs, a, d))
  }

  /** The same, in proper transfers. */
  ghost predicate Realises(ts: seq<Transfer>, inputs: seq<AccountAmount>, outputs: seq<AccountAmount>) {
    (forall k :: 0 <= k < |ts| ==> Proper(ts[k])) && Moves(ts, inputs, outputs)
  }

  // ---------- the allocation: cutting one line of units into consecutive stretches ----------

  /** The units of denom d that the entries bring, lined up in order. */
  ghost function Line(es: seq<AccountAmount>, d: Denom): seq<Account>
    requires AllValid(es)
  {
    QueueOfTotal(es, d);
    Units(QueueOf(es, d))
  }

  /** The number of units of account a in the stretch of the line from lo to hi. */
  ghost function Share(line: seq<Account>, lo: int, hi: int, a: Account): int {
    if 0 <= lo <= hi <= |line| then multiset(line[lo..hi])[a] else 0
  }

  /** sides[k] is what the split entries contribute to main[k]: in every denom, the stretch of their
      line that follows the stretches of the main entries before it, and as long as main[k] asks for. */
  ghost predicate Cut(split: seq<AccountAmount>, main: seq<AccountAmount>, sides: seq<seq<AccountAmount>>)
    requires AllValid(split) && |sides| <= |main|
  {
    forall k, a, d :: 0 <= k < |sides| ==>
                        Of(sides[k], a, d) == Share(Line(split, d), Total(main[..k], d), Total(main[..k+1], d), a)
  }

  /** Every side is a valid list of distinct accounts, none of them without an amount, that totals its main entry. */
  ghost predicate Fits(main: seq<AccountAmount>, sides: seq<seq<AccountAmount>>)
    requires |sides| <= |main|
  {
    forall k :: 0 <= k < |sides| ==>
                  && AllValid(sides[k]) && NoneEmpty(sides[k]) && Distinct(Accounts(sides[k]))
                  && SameTotals(sides[k], [main[k]])
  }

  ghost function SizeOf(sides: seq<seq<AccountAmount>>): nat {
    if sides == [] then 0 else SizeOf(sides[..|sides|-1]) + |sides[|sides|-1]|
  }

  /** What account a contributes of denom d over all the sides. */
  ghost function SidesOf(sides: seq<seq<AccountAmount>>, a: Account, d: Denom): int {
    if sides == [] then 0 else SidesOf(sides[..|sides|-1], a, d) + Of(sides[|sides|-1], a, d)
  }

  /** The state after i main entries: the queues hold the rest of each line. */
  ghost predicate Allocated(split: seq<AccountAmount>, main: seq<AccountAmount>, i: nat,
                            m: Queues, sides: seq<seq<AccountAmount>>)
    requires AllValid(split) && i <= |main|
  {
    && WellFormed(m)
    && |sides| == i
    && Cut(split, main, sides)
    && Fits(main, sides)
    && (forall d :: Holds(m, d, Line(split, d), Total(main[..i], d)))
    && SizeOf(sides) + Count(m) <= CoinCount(split) + CoinCount(main[..i])
  }

  lemma LineLength(es: seq<AccountAmount>, d: Denom)
    requires AllValid(es)
    ensures |Line(es, d)| == Total(es, d)
  {
    QueueOfTotal(es, d);
    TotalPositive(QueueOf(es, d));
  }

  lemma TotalNext(main: seq<AccountAmount>, i: nat, d: Denom)
    requires i < |main|
    ensures Total(main[..i+1], d) == Total(main[..i], d) + Amt(main[i].amount, d)
    ensures Total([main[i]], d) == Amt(main[i].amount, d)
  {
    assert main[..i+1][..i] == main[..i];
    assert [main[i]][..0] == [];
  }

  lemma CoinCountNext(main: seq<AccountAmount>, i: nat)
    requires i < |main|
    ensures CoinCount(main[..i+1]) == CoinCount(main[..i]) + |main[i].amount|
  {
    assert main[..i+1][..i] == main[..i];
  }

  /** Drawing n from a queue that holds the line from lo on takes the stretch of length n from lo. */
  lemma Stretch(line: seq<Account>, lo: int, q: seq<AccountInt>, n: int)
    requires 0 <= lo <= |line| && Positive(q) && Units(q) == line[lo..]
    requires 0 <= n <= QTotal(q)
    ensures lo + n <= |line|
    ensures Positive(Take(q, n).rest) && Units(Take(q, n).rest) == line[lo+n..]
    ensures Positive(Take(q, n).pieces) && Units(Take(q, n).pieces) == line[lo..lo+n]
  {
    TakeIsPrefix(q, n);
    assert line[lo..][..n] == line[lo..lo+n];
    assert line[lo..][n..] == line[lo+n..];
  }

  /** The queue of d holds the line from lo on. */
  ghost predicate Holds(m: Queues, d: Denom, line: seq<Account>, lo: int) {
    0 <= lo <= |line| && Positive(Queue(m, d)) && Units(Queue(m, d)) == line[lo..]
  }

  lemma StretchShare(m: Queues, d: Denom, line: seq<Account>, lo: int, n: int, a: Account)
    requires Holds(m, d, line, lo) && 0 <= n <= QTotal(Queue(m, d))
    ensures QOf(Take(Queue(m, d), n).pieces, a) == Share(line, lo, lo + n, a)
  {
    Stretch(line, lo, Queue(m, d), n);
    UnitsOf(Take(Queue(m, d), n).pieces, a);
  }

  lemma CutNext(split: seq<AccountAmount>, main: seq<AccountAmount>,
                sides: seq<seq<AccountAmount>>, splits: seq<AccountAmount>)
    requires AllValid(split) && |sides| < |main|
    requires Cut(split, main, sides)
    requires var i := |sides|;
             forall a, d :: Of(splits, a, d) == Share(Line(split, d), Total(main[..i], d), Total(main[..i+1], d), a)
    ensures Cut(split, main, sides + [splits])
  {
    var sides' := sides + [splits];
    forall k, a, d | 0 <= k < |sides'|
      ensures Of(sides'[k], a, d) == Share(Line(split, d), Total(main[..k], d), Total(main[..k+1], d), a)
    {
      if k < |sides| {
        assert sides'[k] == sides[k];
      }
    }
  }

  lemma StretchRest(m: Queues, m': Queues, d: Denom, line: seq<Account>, lo: int, n: int)
    requires Holds(m, d, line, lo) && 0 <= n <= QTotal(Queue(m, d))
    requires Queue(m', d) == Take(Queue(m, d), n).rest
    ensures Holds(m', d, line, lo + n)
  {
    Stretch(line, lo, Queue(m, d), n);
  }

  lemma FitsNext(main: seq<AccountAmount>, sides: seq<seq<AccountAmount>>, splits: seq<AccountAmount>)
    requires |sides| < |main| && Fits(main, sides)
    requires SameTotals(splits, [main[|sides|]])
    requires AllValid(splits) && NoneEmpty(splits) && Distinct(Accounts(splits))
    ensures Fits(main, sides + [splits])
  {
    var sides' := sides + [splits];
    forall k | 0 <= k < |sides'|
      ensures AllValid(sides'[k]) && NoneEmpty(sides'[k]) && Distinct(Accounts(sides'[k]))
      ensures SameTotals(sides'[k], [main[k]])
    {
      if k < |sides| {
        assert sides'[k] == sides[k];
      }
    }
  }

  lemma SizeNext(sides: seq<seq<AccountAmount>>, splits: seq<AccountAmount>)
    ensures SizeOf(sides + [splits]) == SizeOf(sides) + |splits|
  {
    assert (sides + [splits])[..|sides|] == sides;
  }

  /** One more main entry served from the queues. */
  lemma AllocateNext(split: seq<AccountAmount>, main: seq<AccountAmount>, i: nat,
                     m: Queues, sides: seq<seq<AccountAmount>>, m': Queues, splits: seq<AccountAmount>)
    requires AllValid(split) && AllValid(main) && i < |main|
    requires Allocated(split, main, i, m, sides)
    requires Drawn(m, main[i].amount, m', splits)
    requires Distinct(Accounts(splits)) && SameTotals(splits, [main[i]])
    requires |splits| + Count(m') <= Count(m) + |main[i].amount|
    ensures Allocated(split, main, i + 1, m', sides + [splits])
  {
    CoinCountNext(main, i);
    ServeNext(split, main, i, m, m', splits);
    CutNext(split, main, sides, splits);
    FitsNext(main, sides, splits);
    SizeNext(sides, splits);
  }

  lemma ServeNext(split: seq<AccountAmount>, main: seq<AccountAmount>, i: nat,
                  m: Queues, m': Queues, splits: seq<AccountAmount>)
    requires AllValid(split) && AllValid(main) && i < |main|
    requires forall d :: Holds(m, d, Line(split, d), Total(main[..i], d))
    requires Drawn(m, main[i].amount, m', splits)
    ensures forall d :: Holds(m', d, Line(split, d), Total(main[..i+1], d))
    ensures forall a, d :: Of(splits, a, d) == Share(Line(split, d), Total(main[..i], d), Total(main[..i+1], d), a)
  {
    hide *;
    forall d ensures Holds(m', d, Line(split, d), Total(main[..i+1], d)) {
      assert Holds(m, d, Line(split, d), Total(main[..i], d));
      TotalNext(main, i, d);
      ValidAmt(main, i, d);
      DrawnAt(m, main[i].amount, m', splits, d);
      StretchRest(m, m', d, Line(split, d), Total(main[..i], d), Amt(main[i].amount, d));
    }
    forall a, d
      ensures Of(splits, a, d) == Share(Line(split, d), Total(main[..i], d), Total(main[..i+1], d), a)
    {
      assert Holds(m, d, Line(split, d), Total(main[..i], d));
      TotalNext(main, i, d);
      ValidAmt(main, i, d);
      DrawnAt(m, main[i].amount, m', splits, d);
      StretchShare(m, d, Line(split, d), Total(main[..i], d), Amt(main[i].amount, d), a);
    }
  }

  lemma ValidAmt(es: seq<AccountAmount>, i: nat, d: Denom)
    requires AllValid(es) && i < |es|
    ensures Amt(es[i].amount, d) >= 0
  {
  }

  /** Consecutive stretches add up: the first i sides hold the units of the first stretch of the line. */
  lemma {:induction false} SidesAddUp(split: seq<AccountAmount>, main: seq<AccountAmount>,
                                      sides: seq<seq<AccountAmount>>, a: Account, d: Denom)
    requires AllValid(split) && AllValid(main) && |sides| <= |main|
    requires Cut(split, main, sides)
    requires Total(main[..|sides|], d) <= |Line(split, d)|
    ensures 0 <= Total(main[..|sides|], d)
    ensures SidesOf(sides, a, d) == multiset(Line(split, d)[..Total(main[..|sides|], d)])[a]
  {
    var n := |sides|;
    if n > 0 {
      assert main[..n][..n-1] == main[..n-1];
      var init := sides[..n-1];
      assert Amt(main[n-1].amount, d) >= 0;
      assert forall k :: 0 <= k < |init| ==> init[k] == sides[k];
      SidesAddUp(split, main, init, a, d);
      var line, lo, hi := Line(split, d), Total(main[..n-1], d), Total(main[..n], d);
      assert line[..hi] == line[..lo] + line[lo..hi];
    }
  }

  /** When the whole of every line is used, the sides hold exactly what the split entries had. */
  lemma SidesExhaust(split: seq<AccountAmount>, main: seq<AccountAmount>, sides: seq<seq<AccountAmount>>,
                     a: Account, d: Denom)
    requires AllValid(split) && AllValid(main) && |sides| == |main|
    requires Cut(split, main, sides) && Total(main, d) == Total(split, d)
    ensures SidesOf(sides, a, d) == Of(split, a, d)
  {
    LineLength(split, d);
    assert main[..|main|] == main;
    SidesAddUp(split, main, sides, a, d);
    assert Line(split, d)[..|Line(split, d)|] == Line(split, d);
    QueueOfAccount(split, a, d);
    QueueOfTotal(split, d);
    UnitsOf(QueueOf(split, d), a);
  }

  /** What the queues still hold is what the split entries had beyond the main entries served. */
  lemma LeftOver(split: seq<AccountAmount>, main: seq<AccountAmount>, i: nat,
                 m: Queues, sides: seq<seq<AccountAmount>>, d: Denom)
    requires AllValid(split) && i <= |main| && Allocated(split, main, i, m, sides)
    ensures QTotal(Queue(m, d)) == Total(split, d) - Total(main[..i], d)
  {
    LineLength(split, d);
    assert Holds(m, d, Line(split, d), Total(main[..i], d));
    TotalPositive(Queue(m, d));
  }

  lemma {:induction false} PrefixTotal(es: seq<AccountAmount>, i: nat, d: Denom)
    requires AllValid(es) && i <= |es|
    ensures Total(es[..i], d) <= Total(es, d)
    decreases |es| - i
  {
    if i == |es| {
      assert es[..i] == es;
    } else {
      TotalNext(es, i, d);
      assert Amt(es[i].amount, d) >= 0;
      PrefixTotal(es, i + 1, d);
    }
  }

  /** A main entry that cannot be served shows that the totals differ. */
  lemma ShortMeansDifferent(split: seq<AccountAmount>, main: seq<AccountAmount>, i: nat,
                            m: Queues, sides: seq<seq<AccountAmount>>)
    requires AllValid(split) && AllValid(main) && i < |main|
    requires Allocated(split, main, i, m, sides) && !Covers(m, main[i].amount)
    ensures !SameTotals(main, split)
  {
    var d :| Amt(main[i].amount, d) > QTotal(Queue(m, d));
    LeftOver(split, main, i, m, sides, d);
    TotalNext(main, i, d);
    PrefixTotal(main, i + 1, d);
  }

  /** Once every main entry is served, nothing is left exactly when the totals agree. */
  lemma NothingLeft(split: seq<AccountAmount>, main: seq<AccountAmount>,
                    m: Queues, sides: seq<seq<AccountAmount>>, unallocated: Coins)
    requires AllValid(split) && AllValid(main)
    requires Allocated(split, main, |main|, m, sides)
    requires forall d :: Amt(unallocated, d) == QTotal(Queue(m, d))
    ensures unallocated == NoCoins <==> SameTotals(main, split)
  {
    assert main[..|main|] == main;
    forall d ensures Amt(unallocated, d) == Total(split, d) - Total(main, d) {
      LeftOver(split, main, |main|, m, sides, d);
    }
    if SameTotals(main, split) {
      SameAmounts(unallocated, NoCoins);
    } else {
      var d :| Total(main, d) != Total(split, d);
      assert Amt(unallocated, d) != Amt(NoCoins, d);
    }
  }

  // ---------- first in, first out ----------

  /** The last entry's units stand behind those of all the entries before it. */
  lemma LineNext(es: seq<AccountAmount>, d: Denom)
    requires es != [] && AllValid(es)
    ensures Amt(es[|es|-1].amount, d) >= 0
    ensures Line(es, d) == Line(es[..|es|-1], d) + seq(Amt(es[|es|-1].amount, d), _ => es[|es|-1].account)
  {
    var init, last := es[..|es|-1], es[|es|-1];
    QueueOfTotal(init, d);
    if d in last.amount {
      UnitsSnoc(QueueOf(init, d), AccountInt(last.account, last.amount[d]));
    } else {
      assert QueueOf(es, d) == QueueOf(init, d);
    }
  }

  lemma InitValid(es: seq<AccountAmount>)
    requires AllValid(es)
    ensures forall i :: 0 <= i <= |es| ==> AllValid(es[..i])
  {
  }

  /** In the line, the units of entry i stand right behind those of the entries before it. */
  lemma {:induction false} LineIsFifo(es: seq<AccountAmount>, d: Denom, i: nat, k: nat)
    requires AllValid(es) && i < |es| && Total(es[..i], d) <= k < Total(es[..i+1], d)
    ensures k < |Line(es, d)| && Line(es, d)[k] == es[i].account
  {
    hide Line, AllValid, Total;
    var init, last := es[..|es|-1], es[|es|-1];
    InitValid(es);
    LineNext(es, d);
    LineLength(init, d);
    LineLength(es, d);
    ValidTotal(es[..i], d);
    if i < |init| {
      assert init[..i] == es[..i] && init[..i+1] == es[..i+1];
      LineIsFifo(init, d, i, k);
    } else {
      assert es[..i+1] == es && es[..i] == init;
      assert k < |Line(init, d) + seq(Amt(last.amount, d), _ => last.account)|;
    }
  }

  /** The length that the stretches from p to q and from lo to hi have in common. */
  function Overlap(p: int, q: int, lo: int, hi: int): int {
    var start, end := if p < lo then lo else p, if q < hi then q else hi;
    if start < end then end - start else 0
  }

  /** With all the entries' amounts of d laid end to end, what lies between lo and hi and belongs to a. */
  ghost function PartOf(es: seq<AccountAmount>, a: Account, d: Denom, lo: int, hi: int): int {
    if es == [] then 0
    else
      var init, last := es[..|es|-1], es[|es|-1];
      PartOf(init, a, d, lo, hi) + if last.account == a then Overlap(Total(init, d), Total(es, d), lo, hi) else 0
  }

  /** Only what lies within the entries counts. */
  lemma {:induction false} PartOfWithin(es: seq<AccountAmount>, a: Account, d: Denom, lo: int, hi: int, t: int)
    requires AllValid(es) && Total(es, d) <= t && lo <= hi
    ensures PartOf(es, a, d, lo, hi) == PartOf(es, a, d, if lo < t then lo else t, if hi < t then hi else t)
  {
    if es != [] {
      PrefixTotal(es, |es| - 1, d);
      PartOfWithin(es[..|es|-1], a, d, lo, hi, t);
    }
  }

  lemma ShareOfRun(u: seq<Account>, x: Account, n: nat, lo: int, hi: int, a: Account)
    requires 0 <= lo <= hi <= |u| + n
    ensures Share(u + seq(n, _ => x), lo, hi, a) ==
            Share(u, if lo < |u| then lo else |u|, if hi < |u| then hi else |u|, a)
            + if a == x then Overlap(|u|, |u| + n, lo, hi) else 0
  {
    var line := u + seq(n, _ => x);
    if hi <= |u| {
      assert line[lo..hi] == u[lo..hi];
    } else if lo >= |u| {
      assert line[lo..hi] == seq(hi - lo, _ => x);
      RepeatCount(hi - lo, x, a);
    } else {
      assert line[lo..hi] == u[lo..|u|] + seq(hi - |u|, _ => x);
      RepeatCount(hi - |u|, x, a);
    }
  }

  /** A stretch of the line holds of each account what its entries have there. */
  lemma {:induction false} ShareIsPart(es: seq<AccountAmount>, a: Account, d: Denom, lo: int, hi: int)
    requires AllValid(es) && 0 <= lo <= hi <= Total(es, d)
    ensures Share(Line(es, d), lo, hi, a) == PartOf(es, a, d, lo, hi)
  {
    LineLength(es, d);
    if es != [] {
      var init, last := es[..|es|-1], es[|es|-1];
      LineNext(es, d);
      LineLength(init, d);
      var t := Total(init, d);
      ShareOfRun(Line(init, d), last.account, Amt(last.amount, d), lo, hi, a);
      PartOfWithin(init, a, d, lo, hi, t);
      ShareIsPart(init, a, d, if lo < t then lo else t, if hi < t then hi else t);
    }
  }

  // ---------- the transfers ----------

  function AsTransfer(splitInputs: bool, entry: AccountAmount, side: seq<AccountAmount>): Transfer {
    if splitInputs then Transfer(side, [entry]) else Transfer([entry], side)
  }

  ghost function Sides(splitInputs: bool, ts: seq<Transfer>): (r: seq<seq<AccountAmount>>)
    ensures |r| == |ts|
  {
    seq(|ts|, k requires 0 <= k < |ts| => if splitInputs then ts[k].inputs else ts[k].outputs)
  }

  /** One transfer for each main entry, served by the split entries in turn, and not too many pieces. */
  ghost predicate Serves(splitInputs: bool, ts: seq<Transfer>, main: seq<AccountAmount>, split: seq<AccountAmount>)
    requires AllValid(split)
  {
    var sides := Sides(splitInputs, ts);
    && Made(splitInputs, ts, main, |main|)
    && Cut(split, main, sides)
    && Fits(main, sides)
    && SizeOf(sides) <= CoinCount(split) + CoinCount(main)
  }

  lemma {:induction false} TransferSums(splitInputs: bool, ts: seq<Transfer>, main: seq<AccountAmount>,
                                        a: Account, d: Denom)
    requires |ts| <= |main| && Made(splitInputs, ts, main, |ts|)
    ensures (if splitInputs then GivenBy(ts, a, d) else ReceivedBy(ts, a, d)) == SidesOf(Sides(splitInputs, ts), a, d)
    ensures (if splitInputs then ReceivedBy(ts, a, d) else GivenBy(ts, a, d)) == Of(main[..|ts|], a, d)
  {
    var n := |ts|;
    if n > 0 {
      MadeBefore(splitInputs, ts, main);
      TransferSums(splitInputs, ts[..n-1], main, a, d);
      OfNext(main, n - 1, a, d);
    }
  }

  /** Without the last transfer, the transfers before it are as they were. */
  lemma MadeBefore(splitInputs: bool, ts: seq<Transfer>, main: seq<AccountAmount>)
    requires 0 < |ts| <= |main| && Made(splitInputs, ts, main, |ts|)
    ensures var n := |ts| - 1;
      && Made(splitInputs, ts[..n], main, n)
      && Sides(splitInputs, ts)[..n] == Sides(splitInputs, ts[..n])
      && ts[n] == AsTransfer(splitInputs, main[n], Sides(splitInputs, ts)[n])
  {
    var n := |ts| - 1;
    forall k | 0 <= k < n ensures ts[..n][k] == AsTransfer(splitInputs, main[k], Sides(splitInputs, ts[..n])[k]) {
      assert ts[k] == AsTransfer(splitInputs, main[k], Sides(splitInputs, ts)[k]);
    }
  }

  lemma OfNext(es: seq<AccountAmount>, i: nat, a: Account, d: Denom)
    requires i < |es|
    ensures Of(es[..i+1], a, d) == Of(es[..i], a, d) + Of([es[i]], a, d)
  {
    assert es[..i+1] == es[..i] + [es[i]];
    OfConcat(es[..i], [es[i]], a, d);
  }

  /** With equal totals the transfers move exactly the inputs to exactly the outputs. */
  lemma ServingRealises(inputs: seq<AccountAmount>, outputs: seq<AccountAmount>, splitInputs: bool, ts: seq<Transfer>)
    requires AllValid(inputs) && AllValid(outputs) && SameTotals(inputs, outputs)
    requires splitInputs ==> Serves(true, ts, outputs, inputs)
    requires !splitInputs ==> Serves(false, ts, inputs, outputs)
    ensures Realises(ts, inputs, outputs)
  {
    var main, split := if splitInputs then outputs else inputs, if splitInputs then inputs else outputs;
    var sides := Sides(splitInputs, ts);
    assert main[..|ts|] == main;
    forall a, d ensures GivenBy(ts, a, d) == Of(inputs, a, d) && ReceivedBy(ts, a, d) == Of(outputs, a, d) {
      TransferSums(splitInputs, ts, main, a, d);
      SidesExhaust(split, main, sides, a, d);
    }
    forall k | 0 <= k < |ts| ensures Proper(ts[k]) {
      assert AllValid(sides[k]) && SameTotals(sides[k], [main[k]]);
    }
  }

  function WholeSide(splitInputs: bool, t: Transfer): seq<AccountAmount> {
    if splitInputs then t.outputs else t.inputs
  }

  function SplitSide(splitInputs: bool, t: Transfer): seq<AccountAmount> {
    if splitInputs then t.inputs else t.outputs
  }

  /** Transfer k carries main entry k alone on its side; on the other side, lay the amounts of the split entries end to end
      and the amounts of the main entries too: each account gives or gets exactly what lies opposite main entry k. */
  ghost predicate PaysInOrder(splitInputs: bool, ts: seq<Transfer>, main: seq<AccountAmount>, split: seq<AccountAmount>) {
    && |ts| == |main|
    && (forall k :: 0 <= k < |ts| ==> WholeSide(splitInputs, ts[k]) == [main[k]])
    && (forall k, a, d :: 0 <= k < |ts| ==>
                            Of(SplitSide(splitInputs, ts[k]), a, d) ==
                            PartOf(split, a, d, Total(main[..k], d), Total(main[..k+1], d)))
  }

  lemma ServingInOrder(splitInputs: bool, ts: seq<Transfer>, main: seq<AccountAmount>, split: seq<AccountAmount>)
    requires AllValid(main) && AllValid(split) && SameTotals(main, split) && Serves(splitInputs, ts, main, split)
    ensures PaysInOrder(splitInputs, ts, main, split)
  {
    hide Share, Line, PartOf, Fits, SizeOf;
    var sides := Sides(splitInputs, ts);
    forall k, a, d | 0 <= k < |ts|
      ensures Of(SplitSide(splitInputs, ts[k]), a, d) ==
              PartOf(split, a, d, Total(main[..k], d), Total(main[..k+1], d))
    {
      assert Of(sides[k], a, d) == Share(Line(split, d), Total(main[..k], d), Total(main[..k+1], d), a);
      ValidTotal(main[..k], d);
      TotalNext(main, k, d);
      ValidAmt(main, k, d);
      PrefixTotal(main, k + 1, d);
      ShareIsPart(split, a, d, Total(main[..k], d), Total(main[..k+1], d));
    }
  }

  /** What totals the same as a list with amounts is not empty. */
  lemma NotEmptyEither(x: seq<AccountAmount>, y: seq<AccountAmount>)
    requires SameTotals(x, y) && x != [] && AllValid(x) && NoneEmpty(x)
    ensures y != []
  {
    assert x[0].amount != NoCoins;
    var d :| d in x[0].amount;
    PrefixTotal(x, 1, d);
    TotalNext(x, 0, d);
    assert x[..0] == [];
    assert Total(x, d) > 0;
  }

  /** Without empty amounts in inputs and outputs there are none in the transfers. */
  lemma ServingFills(splitInputs: bool, ts: seq<Transfer>, main: seq<AccountAmount>, split: seq<AccountAmount>)
    requires AllValid(main) && AllValid(split) && NoneEmpty(main) && Serves(splitInputs, ts, main, split)
    ensures forall k :: 0 <= k < |ts| ==> Filled(ts[k])
  {
    hide Cut, SizeOf;
    forall k | 0 <= k < |ts| ensures Filled(ts[k]) {
      var side := Sides(splitInputs, ts)[k];
      assert AllValid(side) && NoneEmpty(side) && SameTotals(side, [main[k]]);
      assert SameTotals([main[k]], side);
      NotEmptyEither([main[k]], side);
    }
  }

  lemma OneTransferFilled(inputs: seq<AccountAmount>, outputs: seq<AccountAmount>)
    requires AllValid(inputs) && AllValid(outputs) && SameTotals(inputs, outputs)
    requires |inputs| == 1 || |outputs| == 1
    requires NoneEmpty(inputs) && NoneEmpty(outputs)
    ensures Filled(Transfer(inputs, outputs))
  {
    assert SameTotals(outputs, inputs);
    if |inputs| == 1 {
      NotEmptyEither(inputs, outputs);
    } else {
      NotEmptyEither(outputs, inputs);
    }
  }

  /** `buildPrimaryTransfers`. */
  method BuildPrimaryTransfers(inputs: seq<AccountAmount>, outputs: seq<AccountAmount>)
    returns (r: Option<seq<Transfer>>)
    requires AllValid(inputs) && AllValid(outputs)
    ensures |inputs| == 1 || |outputs| == 1 ==> r == Some([Transfer(inputs, outputs)])
    ensures |inputs| != 1 && |outputs| != 1 ==> (r.Some? <==> SameTotals(inputs, outputs))
    ensures |inputs| != 1 && |outputs| != 1 && r.Some? ==>
              if |inputs| > |outputs| then Serves(true, r.value, outputs, inputs)
              else Serves(false, r.value, inputs, outputs)
    ensures |inputs| != 1 && |outputs| != 1 && r.Some? ==>
              if |inputs| > |outputs| then PaysInOrder(true, r.value, outputs, inputs)
              else PaysInOrder(false, r.value, inputs, outputs)
    ensures r.Some? ==> Moves(r.value, inputs, outputs)
    ensures r.Some? && SameTotals(inputs, outputs) ==> Realises(r.value, inputs, outputs)
    ensures r.Some? && SameTotals(inputs, outputs) && NoneEmpty(inputs) && NoneEmpty(outputs) ==>
              forall k :: 0 <= k < |r.value| ==> Filled(r.value[k])
  {
    if |inputs| == 1 || |outputs| == 1 {
      OneTransferRealises(inputs, outputs);
      if SameTotals(inputs, outputs) && NoneEmpty(inputs) && NoneEmpty(outputs) {
        OneTransferFilled(inputs, outputs);
      }
      return Some([Transfer(inputs, outputs)]);
    }
    var splitInputs := |inputs| > |outputs|;
    var mainEntries, splittableEntries := inputs, outputs;
    if splitInputs {
      mainEntries, splittableEntries := outputs, inputs;
    }
    r := ServeEach(splitInputs, mainEntries, splittableEntries);
    if r.Some? {
      ServingRealises(inputs, outputs, splitInputs, r.value);
      ServingInOrder(splitInputs, r.value, mainEntries, splittableEntries);
      if NoneEmpty(mainEntries) {
        ServingFills(splitInputs, r.value, mainEntries, splittableEntries);
      }
    }
  }

  /** The loop of `buildPrimaryTransfers`: each main entry in turn is served from the split entries. */
  method ServeEach(splitInputs: bool, mainEntries: seq<AccountAmount>, splittableEntries: seq<AccountAmount>)
    returns (r: Option<seq<Transfer>>)
    requires AllValid(mainEntries) && AllValid(splittableEntries)
    ensures r.Some? <==> SameTotals(mainEntries, splittableEntries)
    ensures r.Some? ==> Serves(splitInputs, r.value, mainEntries, splittableEntries)
  {
    var funds := new DenomSourceMap(splittableEntries);
    StartAllocation(splittableEntries, mainEntries, funds.m);
    var rv: seq<Transfer> := [];
    for i := 0 to |mainEntries|
      invariant Made(splitInputs, rv, mainEntries, i)
      invariant Allocated(splittableEntries, mainEntries, i, funds.m, Sides(splitInputs, rv))
    {
      var entry := mainEntries[i];
      ghost var before := funds.m;
      var splits := funds.UseCoins(entry.amount);
      if splits.None? {
        ShortMeansDifferent(splittableEntries, mainEntries, i, before, Sides(splitInputs, rv));
        return None;
      }
      SimplifiedOfDistinct(splits.value);
      var simplified := SimplifyAccountAmounts(splits.value);
      SingleTotal(entry, simplified);
      AllocateNext(splittableEntries, mainEntries, i, before, Sides(splitInputs, rv), funds.m, simplified);
      MadeNext(splitInputs, rv, mainEntries, i, simplified);
      if !splitInputs {
        rv := rv + [Transfer([entry], simplified)];
      } else {
        rv := rv + [Transfer(simplified, [entry])];
      }
    }
    var unallocated := funds.Sum();
    NothingLeft(splittableEntries, mainEntries, funds.m, Sides(splitInputs, rv), unallocated);
    if unallocated != NoCoins {
      return None;
    }
    CountNonNegative(funds.m, funds.m.Keys);
    assert mainEntries[..|mainEntries|] == mainEntries;
    return Some(rv);
  }

  /** The first i transfers each carry their main entry on its own side. */
  ghost predicate Made(splitInputs: bool, ts: seq<Transfer>, main: seq<AccountAmount>, i: nat)
    requires i <= |main|
  {
    && |ts| == i
    && forall k :: 0 <= k < |ts| ==> ts[k] == AsTransfer(splitInputs, main[k], Sides(splitInputs, ts)[k])
  }

  lemma MadeNext(splitInputs: bool, ts: seq<Transfer>, main: seq<AccountAmount>, i: nat, side: seq<AccountAmount>)
    requires i < |main| && Made(splitInputs, ts, main, i)
    ensures var ts' := ts + [AsTransfer(splitInputs, main[i], side)];
      Made(splitInputs, ts', main, i + 1) && Sides(splitInputs, ts') == Sides(splitInputs, ts) + [side]
  {
    var ts' := ts + [AsTransfer(splitInputs, main[i], side)];
    forall k | 0 <= k < |ts'| ensures ts'[k] == AsTransfer(splitInputs, main[k], Sides(splitInputs, ts')[k]) {
      if k < i {
        assert ts'[k] == ts[k] && Sides(splitInputs, ts')[k] == Sides(splitInputs, ts)[k];
      }
    }
  }

  lemma SingleTotal(entry: AccountAmount, side: seq<AccountAmount>)
    requires forall d :: Total(side, d) == Amt(entry.amount, d)
    ensures SameTotals(side, [entry])
  {
    forall d ensures Total([entry], d) == Amt(entry.amount, d) {
      TotalNext([entry], 0, d);
    }
  }

  lemma OneTransferRealises(inputs: seq<AccountAmount>, outputs: seq<AccountAmount>)
    requires AllValid(inputs) && AllValid(outputs)
    requires |inputs| == 1 || |outputs| == 1
    ensures Moves([Transfer(inputs, outputs)], inputs, outputs)
    ensures SameTotals(inputs, outputs) ==> Realises([Transfer(inputs, outputs)], inputs, outputs)
  {
    var ts := [Transfer(inputs, outputs)];
    assert ts[..0] == [];
    forall a, d ensures GivenBy(ts, a, d) == Of(inputs, a, d) && ReceivedBy(ts, a, d) == Of(outputs, a, d) {
      assert GivenBy(ts, a, d) == GivenBy(ts[..0], a, d) + Of(inputs, a, d);
      assert ReceivedBy(ts, a, d) == ReceivedBy(ts[..0], a, d) + Of(outputs, a, d);
    }
  }

  lemma StartAllocation(split: seq<AccountAmount>, main: seq<AccountAmount>, m: Queues)
    requires AllValid(split) && WellFormed(m)
    requires forall d :: Queue(m, d) == QueueOf(split, d)
    requires Count(m) == CoinCount(split)
    ensures Allocated(split, main, 0, m, [])
  {
    assert main[..0] == [];
    forall d ensures Holds(m, d, Line(split, d), Total(main[..0], d)) {
      QueueOfTotal(split, d);
      assert Line(split, d)[0..] == Line(split, d);
    }
  }
}
