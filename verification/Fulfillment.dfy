/** Matching ask orders with bid orders: who delivers assets to whom, and how the price the bids pay is divided among
    the asks (`allocateAssets`, `allocatePrice`). The fulfillments of each side are kept as lists of amounts. */
module Fulfillment {

  // ---------- sums of lists ----------

  ghost function Sum(s: seq<int>): int {
    if s == [] then 0 else Sum(s[..|s|-1]) + s[|s|-1]
  }

  lemma {:induction false} SumUpdate(s: seq<int>, i: nat, v: int)
    requires i < |s|
    ensures Sum(s[i := v]) == Sum(s) - s[i] + v
  {
    var n := |s| - 1;
    if i < n {
      SumUpdate(s[..n], i, v);
      assert s[i := v][..n] == s[..n][i := v];
    } else {
      assert s[i := v][..n] == s[..n];
    }
  }

  ghost predicate NonNegative(s: seq<int>) {
    forall i :: 0 <= i < |s| ==> s[i] >= 0
  }

  ghost predicate AllPositive(s: seq<int>) {
    forall i :: 0 <= i < |s| ==> s[i] > 0
  }

  lemma {:induction false} SumAtLeast(s: seq<int>, i: nat)
    requires NonNegative(s) && i < |s|
    ensures Sum(s) >= s[i] >= 0
  {
    var n := |s| - 1;
    if i < n {
      SumAtLeast(s[..n], i);
    } else {
      SumNonNegative(s[..n]);
    }
  }

  lemma {:induction false} SumNonNegative(s: seq<int>)
    requires NonNegative(s)
    ensures Sum(s) >= 0
  {
    if s != [] {
      SumNonNegative(s[..|s|-1]);
    }
  }

  lemma {:induction false} SumOfZeros(s: seq<int>)
    requires forall i :: 0 <= i < |s| ==> s[i] == 0
    ensures Sum(s) == 0
  {
    if s != [] {
      SumOfZeros(s[..|s|-1]);
    }
  }

  /** First come, first served: the orders before k have nothing left, the one at k has something left or has not
      been touched, and those behind it have not been touched. */
  ghost predicate Front(orders: seq<int>, left: seq<int>, k: nat) {
    && |left| == |orders| && k <= |left|
    && (forall i :: 0 <= i < k ==> left[i] == 0)
    && (k < |left| ==> left[k] == orders[k] || 0 < left[k] < orders[k])
    && (forall i :: k < i < |left| ==> left[i] == orders[i])
  }

  lemma FrontSum(orders: seq<int>, left: seq<int>, k: nat)
    requires AllPositive(orders) && Front(orders, left, k)
    ensures NonNegative(left) && Sum(left) >= 0
    ensures Sum(left) > 0 <==> k < |left|
  {
    SumNonNegative(left);
    if k < |left| {
      SumAtLeast(left, k);
    } else {
      SumOfZeros(left);
    }
  }

  /** Taking some of what the order in front has left. */
  lemma FrontTake(orders: seq<int>, left: seq<int>, k: nat, amount: int)
    requires Front(orders, left, k) && k < |left| && 0 < amount <= left[k]
    ensures var left' := left[k := left[k] - amount];
      && Front(orders, left', if amount == left[k] then k + 1 else k)
      && Sum(left') == Sum(left) - amount
  {
    SumUpdate(left, k, left[k] - amount);
  }

  /** As long as an ask has something left, so has a bid, if the bids have enough in all. */
  lemma BidsRemain(asks: seq<int>, askLeft: seq<int>, k: nat, bids: seq<int>, bidLeft: seq<int>, b: nat)
    requires AllPositive(asks) && Front(asks, askLeft, k) && AllPositive(bids) && Front(bids, bidLeft, b)
    requires Sum(asks) <= Sum(bids) && Sum(asks) - Sum(askLeft) == Sum(bids) - Sum(bidLeft)
    ensures k < |asks| ==> b < |bids|
  {
    FrontSum(asks, askLeft, k);
    FrontSum(bids, bidLeft, b);
  }

  // ---------- shares of the leftovers ----------

  method SumOf(s: seq<int>) returns (total: int)
    ensures total == Sum(s)
  {
    total := 0;
    for i := 0 to |s|
      invariant total == Sum(s[..i])
    {
      assert s[..i+1][..i] == s[..i];
      total := total + s[i];
    }
    assert s[..|s|] == s;
  }

  /** The share of an amount that goes to ask i by its assets, truncated. */
  ghost function ShareOf(amount: int, assets: seq<int>, i: nat): int
    requires AllPositive(assets) && i < |assets|
  {
    SumAtLeast(assets, i);
    amount * assets[i] / Sum(assets)
  }

  /** The shares of the first k asks. */
  ghost function SharesUpTo(amount: int, assets: seq<int>, k: nat): int
    requires AllPositive(assets) && k <= |assets|
  {
    if k == 0 then 0 else SharesUpTo(amount, assets, k - 1) + ShareOf(amount, assets, k - 1)
  }

  lemma {:induction false} PrefixSum(s: seq<int>, k: nat)
    requires AllPositive(s) && k <= |s|
    ensures Sum(s[..k]) <= Sum(s)
    decreases |s| - k
  {
    if k == |s| {
      assert s[..k] == s;
    } else {
      PrefixSum(s, k + 1);
      assert s[..k+1][..k] == s[..k];
    }
  }

  lemma ShareBound(amount: int, assets: seq<int>, i: nat)
    requires AllPositive(assets) && i < |assets| && amount >= 0
    ensures 0 <= ShareOf(amount, assets, i) && ShareOf(amount, assets, i) * Sum(assets) <= amount * assets[i]
  {
    SumAtLeast(assets, i);
    DivBound(amount * assets[i], Sum(assets));
    assert amount * assets[i] >= 0;
  }

  lemma DivBound(x: int, t: int)
    requires t > 0
    ensures x / t * t <= x && (x >= 0 ==> x / t >= 0)
  {
  }

  /** The truncated shares of the first k asks are within the amount's part for their assets. */
  lemma {:induction false} SharesBound(amount: int, assets: seq<int>, k: nat)
    requires AllPositive(assets) && k <= |assets| && amount >= 0
    ensures SharesUpTo(amount, assets, k) * Sum(assets) <= amount * Sum(assets[..k])
  {
    if k > 0 {
      SharesBound(amount, assets, k - 1);
      ShareBound(amount, assets, k - 1);
      assert assets[..k][..k-1] == assets[..k-1];
      Distributes(SharesUpTo(amount, assets, k - 1), ShareOf(amount, assets, k - 1), Sum(assets));
      Distributes(Sum(assets[..k-1]), assets[k-1], amount);
    }
  }

  lemma Distributes(x: int, y: int, z: int)
    ensures (x + y) * z == x * z + y * z && z * (x + y) == z * x + z * y
  {
  }

  /** Together the shares never exceed the amount. */
  lemma SharesWithin(amount: int, assets: seq<int>, k: nat)
    requires AllPositive(assets) && 0 < |assets| && k <= |assets| && amount >= 0
    ensures SharesUpTo(amount, assets, k) <= amount
  {
    SharesBound(amount, assets, k);
    PrefixSum(assets, k);
    SumAtLeast(assets, 0);
    var t, x := Sum(assets), SharesUpTo(amount, assets, k);
    MulMonotone(Sum(assets[..k]), t, amount);
    if x > amount {
      MulMonotone(amount + 1, x, t);
      Distributes(amount, 1, t);
      assert false;
    }
  }

  lemma MulMonotone(x: int, y: int, z: int)
    requires x <= y && z >= 0
    ensures x * z <= y * z && z * x <= z * y
  {
  }

  /** The share of the next ask, and what is still there for it. */
  lemma ShareFits(amount: int, assets: seq<int>, a: nat)
    requires AllPositive(assets) && a < |assets| && amount >= 0
    ensures Sum(assets) > 0
    ensures 0 <= ShareOf(amount, assets, a) == amount * assets[a] / Sum(assets)
    ensures SharesUpTo(amount, assets, a + 1) == SharesUpTo(amount, assets, a) + ShareOf(amount, assets, a) <= amount
  {
    SumAtLeast(assets, a);
    ShareBound(amount, assets, a);
    SharesWithin(amount, assets, a + 1);
  }

  /** Truncation loses less than one unit per ask. */
  lemma {:induction false} SharesLoseLittle(amount: int, assets: seq<int>, k: nat)
    requires AllPositive(assets) && k <= |assets| && amount >= 0
    ensures amount * Sum(assets[..k]) <= SharesUpTo(amount, assets, k) * Sum(assets) + k * (Sum(assets) - 1)
  {
    if k > 0 {
      SharesLoseLittle(amount, assets, k - 1);
      SumAtLeast(assets, k - 1);
      DivLoses(amount * assets[k-1], Sum(assets));
      assert assets[..k][..k-1] == assets[..k-1];
      Distributes(SharesUpTo(amount, assets, k - 1), ShareOf(amount, assets, k - 1), Sum(assets));
      Distributes(Sum(assets[..k-1]), assets[k-1], amount);
      Distributes(k - 1, 1, Sum(assets) - 1);
    }
  }

  lemma DivLoses(x: int, t: int)
    requires t > 0
    ensures x <= x / t * t + (t - 1)
  {
  }

  /** What the truncated shares leave over is less than one unit per ask. */
  lemma RestIsSmall(amount: int, assets: seq<int>)
    requires AllPositive(assets) && 0 < |assets| && amount >= 0
    ensures 0 <= Rest(amount, assets) < |assets|
  {
    SharesWithin(amount, assets, |assets|);
    SharesLoseLittle(amount, assets, |assets|);
    assert assets[..|assets|] == assets;
    SumAtLeast(assets, 0);
    var n, t, r := |assets|, Sum(assets), Rest(amount, assets);
    Distributes(SharesUpTo(amount, assets, n), r, t);
    Distributes(t - 1, 1, n);
    if r >= n {
      MulMonotone(n, r, t);
    }
  }

  // ---------- who gets the leftover ----------

  /** What is left of the amount when every ask has had its truncated share. */
  ghost function Rest(amount: int, assets: seq<int>): int
    requires AllPositive(assets)
  {
    amount - SharesUpTo(amount, assets, |assets|)
  }

  /** The most that ask i can get on top of its share: its share again, or one unit if it has none. */
  ghost function More(amount: int, assets: seq<int>, i: nat): int
    requires AllPositive(assets) && i < |assets|
  {
    if ShareOf(amount, assets, i) == 0 then 1 else ShareOf(amount, assets, i)
  }

  ghost function MoreUpTo(amount: int, assets: seq<int>, k: nat): int
    requires AllPositive(assets) && k <= |assets|
  {
    if k == 0 then 0 else MoreUpTo(amount, assets, k - 1) + More(amount, assets, k - 1)
  }

  /** What is left of the rest when the first k asks have had more. */
  ghost function RestAfter(amount: int, assets: seq<int>, k: nat): int
    requires AllPositive(assets) && k <= |assets|
  {
    var left := Rest(amount, assets) - MoreUpTo(amount, assets, k);
    if left > 0 then left else 0
  }

  /** What ask i gets on top of its share: as much as it can out of what the asks before it left of the rest. */
  ghost function Extra(amount: int, assets: seq<int>, i: nat): int
    requires AllPositive(assets) && i < |assets|
  {
    var left, most := RestAfter(amount, assets, i), More(amount, assets, i);
    if most <= left then most else left
  }

  /** What ask i gets of the amount. */
  ghost function LeftoverFor(amount: int, assets: seq<int>, i: nat): int
    requires AllPositive(assets) && i < |assets|
  {
    ShareOf(amount, assets, i) + Extra(amount, assets, i)
  }

  ghost function LeftoverUpTo(amount: int, assets: seq<int>, k: nat): int
    requires AllPositive(assets) && k <= |assets|
  {
    if k == 0 then 0 else LeftoverUpTo(amount, assets, k - 1) + LeftoverFor(amount, assets, k - 1)
  }

  /** No ask gets anything on top of its share before all the asks ahead of it have got as much as they can. */
  lemma {:induction false} LeftoverInOrder(amount: int, assets: seq<int>, i: nat, j: nat)
    requires AllPositive(assets) && i < j < |assets| && amount >= 0
    ensures var share := ShareOf(amount, assets, i);
      LeftoverFor(amount, assets, j) > ShareOf(amount, assets, j) ==>
        LeftoverFor(amount, assets, i) == share + if share == 0 then 1 else share
  {
    hide ShareOf;
    RestShrinks(amount, assets, i + 1, j);
    ExtraNext(amount, assets, i);
    ExtraNext(amount, assets, j);
  }

  lemma {:induction false} RestShrinks(amount: int, assets: seq<int>, i: nat, j: nat)
    requires AllPositive(assets) && i <= j <= |assets| && amount >= 0
    ensures RestAfter(amount, assets, j) <= RestAfter(amount, assets, i)
    decreases j
  {
    if i < j {
      RestShrinks(amount, assets, i, j - 1);
      ExtraNext(amount, assets, j - 1);
    }
  }

  lemma ExtraNext(amount: int, assets: seq<int>, i: nat)
    requires AllPositive(assets) && i < |assets| && amount >= 0
    ensures 0 <= Extra(amount, assets, i) <= More(amount, assets, i)
    ensures RestAfter(amount, assets, i + 1) == RestAfter(amount, assets, i) - Extra(amount, assets, i)
  {
    ShareBound(amount, assets, i);
  }

  lemma {:induction false} MoreAtLeast(amount: int, assets: seq<int>, k: nat)
    requires AllPositive(assets) && k <= |assets| && amount >= 0
    ensures MoreUpTo(amount, assets, k) >= k
  {
    if k > 0 {
      MoreAtLeast(amount, assets, k - 1);
      ShareBound(amount, assets, k - 1);
    }
  }

  /** Once every ask has had more, nothing is left: the asks are gone through at most twice. */
  lemma TwoPassesDo(amount: int, assets: seq<int>)
    requires AllPositive(assets) && 0 < |assets| && amount >= 0
    ensures RestAfter(amount, assets, |assets|) == 0
    ensures RestAfter(amount, assets, 0) == Rest(amount, assets) >= 0
  {
    RestIsSmall(amount, assets);
    MoreAtLeast(amount, assets, |assets|);
  }

  lemma {:induction false} LeftoverSums(amount: int, assets: seq<int>, k: nat)
    requires AllPositive(assets) && 0 < |assets| && k <= |assets| && amount >= 0
    ensures LeftoverUpTo(amount, assets, k) ==
            SharesUpTo(amount, assets, k) + Rest(amount, assets) - RestAfter(amount, assets, k)
  {
    if k == 0 {
      TwoPassesDo(amount, assets);
    } else {
      LeftoverSums(amount, assets, k - 1);
      ExtraNext(amount, assets, k - 1);
    }
  }

  /** The leftover is given out exactly, and each ask gets its truncated share and at most that, or one unit, more. */
  lemma LeftoverIsFair(amount: int, assets: seq<int>, i: nat)
    requires AllPositive(assets) && i < |assets| && amount >= 0
    ensures LeftoverUpTo(amount, assets, |assets|) == amount
    ensures var share := ShareOf(amount, assets, i);
      share <= LeftoverFor(amount, assets, i) <= share + (if share == 0 then 1 else share)
  {
    LeftoverSums(amount, assets, |assets|);
    TwoPassesDo(amount, assets);
    ExtraNext(amount, assets, i);
  }

  /** What ask i has got when the asks up to a have had their turn in the first or in the second pass. */
  ghost function GotSoFar(amount: int, assets: seq<int>, a: int, firstPass: bool, i: nat): int
    requires AllPositive(assets) && i < |assets|
  {
    if firstPass then (if i <= a then ShareOf(amount, assets, i) else 0)
    else if i <= a then LeftoverFor(amount, assets, i)
    else ShareOf(amount, assets, i)
  }

  ghost function LeftSoFar(amount: int, assets: seq<int>, a: int, firstPass: bool): int
    requires AllPositive(assets) && -1 <= a < |assets|
  {
    if firstPass then amount - SharesUpTo(amount, assets, a + 1) else RestAfter(amount, assets, a + 1)
  }

  ghost predicate GivenSoFar(askLeft: seq<int>, amount: int, assets: seq<int>, a: int, firstPass: bool)
    requires AllPositive(assets)
  {
    |askLeft| == |assets| &&
    forall i :: 0 <= i < |assets| ==> askLeft[i] == -GotSoFar(amount, assets, a, firstPass, i)
  }

  /** What the ask whose turn it is gets: its share, or in the second pass as much more as it can. */
  ghost function Turn(amount: int, assets: seq<int>, a: nat, firstPass: bool): int
    requires AllPositive(assets) && a < |assets|
  {
    if firstPass then ShareOf(amount, assets, a) else Extra(amount, assets, a)
  }

  lemma TurnTaken(askLeft: seq<int>, amount: int, assets: seq<int>, a: nat, firstPass: bool)
    requires AllPositive(assets) && a < |assets| && amount >= 0
    requires GivenSoFar(askLeft, amount, assets, a - 1, firstPass)
    ensures GivenSoFar(askLeft[a := askLeft[a] - Turn(amount, assets, a, firstPass)], amount, assets, a, firstPass)
    ensures Turn(amount, assets, a, firstPass) == 0 ==> GivenSoFar(askLeft, amount, assets, a, firstPass)
    ensures LeftSoFar(amount, assets, a, firstPass) ==
            LeftSoFar(amount, assets, a - 1, firstPass) - Turn(amount, assets, a, firstPass) >= 0
  {
    hide ShareOf, Sum;
    ShareFits(amount, assets, a);
    ExtraNext(amount, assets, a);
    var n := Turn(amount, assets, a, firstPass);
    assert n == 0 ==> askLeft[a := askLeft[a] - n] == askLeft;
  }

  /** After the first pass comes the second, and after the second nothing is left. */
  lemma PassOver(askLeft: seq<int>, amount: int, assets: seq<int>, firstPass: bool)
    requires AllPositive(assets) && 0 < |assets| && amount >= 0
    requires GivenSoFar(askLeft, amount, assets, |assets| - 1, firstPass)
    ensures firstPass ==> GivenSoFar(askLeft, amount, assets, -1, false)
    ensures firstPass ==> LeftSoFar(amount, assets, -1, false) == LeftSoFar(amount, assets, |assets| - 1, true)
    ensures !firstPass ==> LeftSoFar(amount, assets, |assets| - 1, false) == 0
  {
    hide ShareOf, Sum;
    TwoPassesDo(amount, assets);
  }

  lemma AllGiven(askLeft: seq<int>, amount: int, assets: seq<int>)
    requires AllPositive(assets) && GivenSoFar(askLeft, amount, assets, |assets| - 1, false)
    ensures |askLeft| == |assets|
    ensures forall i :: 0 <= i < |askLeft| ==> -askLeft[i] == LeftoverFor(amount, assets, i)
  {
    hide LeftoverFor, ShareOf;
  }

  /** The turn in the program's terms: the share, or one unit in its place in the second pass, but no more than is left. */
  lemma TurnIs(amount: int, assets: seq<int>, a: nat, firstPass: bool)
    requires AllPositive(assets) && a < |assets| && amount >= 0
    ensures var share, left := ShareOf(amount, assets, a), LeftSoFar(amount, assets, a - 1, firstPass);
      var wanted := if share == 0 && !firstPass then 1 else share;
      Turn(amount, assets, a, firstPass) == if left < wanted then left else wanted
  {
    hide ShareOf, Sum;
    ShareFits(amount, assets, a);
  }

  lemma StartGiving(askLeft: seq<int>, amount: int, assets: seq<int>)
    requires AllPositive(assets) && 0 < |assets| == |askLeft|
    requires forall i :: 0 <= i < |askLeft| ==> askLeft[i] == 0
    ensures GivenSoFar(askLeft, amount, assets, -1, true) && LeftSoFar(amount, assets, -1, true) == amount
  {
  }

  /** When nothing is left, the asks whose turn has not come get nothing more. */
  lemma {:induction false} NothingMore(askLeft: seq<int>, amount: int, assets: seq<int>, a: int, firstPass: bool)
    requires AllPositive(assets) && 0 < |assets| && -1 <= a < |assets| && amount >= 0
    requires GivenSoFar(askLeft, amount, assets, a, firstPass) && LeftSoFar(amount, assets, a, firstPass) == 0
    ensures GivenSoFar(askLeft, amount, assets, |assets| - 1, false)
    decreases firstPass, |assets| - a
  {
    hide ShareOf, Sum;
    if a + 1 < |assets| {
      TurnTaken(askLeft, amount, assets, a + 1, firstPass);
      ShareFits(amount, assets, a + 1);
      ExtraNext(amount, assets, a + 1);
      NothingMore(askLeft, amount, assets, a + 1, firstPass);
    } else if firstPass {
      PassOver(askLeft, amount, assets, true);
      NothingMore(askLeft, amount, assets, -1, false);
    }
  }

  // ---------- distributions ----------

  /** An amount that goes between the ask and the bid at these positions. */
  datatype Dist = Dist(ask: nat, bid: nat, amount: int)

  ghost function AskShare(dists: seq<Dist>, i: nat): int {
    if dists == [] then 0
    else AskShare(dists[..|dists|-1], i) + if dists[|dists|-1].ask == i then dists[|dists|-1].amount else 0
  }

  ghost function BidShare(dists: seq<Dist>, j: nat): int {
    if dists == [] then 0
    else BidShare(dists[..|dists|-1], j) + if dists[|dists|-1].bid == j then dists[|dists|-1].amount else 0
  }

  /** Positive amounts, between orders that exist. */
  ghost predicate AllBetween(dists: seq<Dist>, asks: nat, bids: nat) {
    forall k :: 0 <= k < |dists| ==> dists[k].amount > 0 && dists[k].ask < asks && dists[k].bid < bids
  }

  ghost function DistTotal(dists: seq<Dist>): int {
    if dists == [] then 0 else DistTotal(dists[..|dists|-1]) + dists[|dists|-1].amount
  }

  /** What the asks get in all, and what the bids give in all, is what is distributed in all. */
  lemma {:induction false} SidesAgree(dists: seq<Dist>, askFilled: seq<int>, bidFilled: seq<int>)
    requires AllBetween(dists, |askFilled|, |bidFilled|)
    requires forall i :: 0 <= i < |askFilled| ==> askFilled[i] == AskShare(dists, i)
    requires forall j :: 0 <= j < |bidFilled| ==> bidFilled[j] == BidShare(dists, j)
    ensures Sum(askFilled) == DistTotal(dists) == Sum(bidFilled)
  {
    if dists == [] {
      SumOfZeros(askFilled);
      SumOfZeros(bidFilled);
    } else {
      var init, last := dists[..|dists|-1], dists[|dists|-1];
      var asks := askFilled[last.ask := askFilled[last.ask] - last.amount];
      var bids := bidFilled[last.bid := bidFilled[last.bid] - last.amount];
      SidesAgree(init, asks, bids);
      SumUpdate(askFilled, last.ask, asks[last.ask]);
      SumUpdate(bidFilled, last.bid, bids[last.bid]);
    }
  }

  // ---------- who deals with whom ----------

  /** With the orders laid end to end, the stretch from lo to hi lies within order i. */
  ghost predicate Within(orders: seq<int>, i: nat, lo: int, hi: int) {
    i < |orders| && Sum(orders[..i]) <= lo && hi <= Sum(orders[..i+1])
  }

  /** Laid end to end, the distributions lie within the bids they come from. */
  ghost predicate BidsInTurn(bids: seq<int>, dists: seq<Dist>) {
    forall k :: 0 <= k < |dists| ==> Within(bids, dists[k].bid, DistTotal(dists[..k]), DistTotal(dists[..k+1]))
  }

  /** Laid end to end, the distributions lie within the asks they go to. */
  ghost predicate AsksInTurn(asks: seq<int>, dists: seq<Dist>) {
    forall k :: 0 <= k < |dists| ==> Within(asks, dists[k].ask, DistTotal(dists[..k]), DistTotal(dists[..k+1]))
  }

  /** What has been distributed is what the bids have given, in turn. */
  ghost predicate BidsTaken(bids: seq<int>, bidLeft: seq<int>, dists: seq<Dist>) {
    DistTotal(dists) == Sum(bids) - Sum(bidLeft) && BidsInTurn(bids, dists)
  }

  ghost predicate AsksGiven(asks: seq<int>, askLeft: seq<int>, dists: seq<Dist>) {
    DistTotal(dists) == Sum(asks) - Sum(askLeft) && AsksInTurn(asks, dists)
  }

  lemma {:induction false} SumConcat(x: seq<int>, y: seq<int>)
    ensures Sum(x + y) == Sum(x) + Sum(y)
  {
    if y == [] {
      assert x + y == x;
    } else {
      SumConcat(x, y[..|y|-1]);
      assert (x + y)[..|x + y|-1] == x + y[..|y|-1];
    }
  }

  /** What the front order has taken stands right behind the orders before it. */
  lemma FrontPosition(orders: seq<int>, left: seq<int>, k: nat)
    requires Front(orders, left, k) && k < |orders|
    ensures Sum(orders) - Sum(left) == Sum(orders[..k]) + orders[k] - left[k]
    ensures Sum(orders[..k+1]) == Sum(orders[..k]) + orders[k]
  {
    hide Sum;
    SumAround(orders, k);
    SumAround(left, k);
    SumOfZeros(left[..k]);
    assert orders[k+1..] == left[k+1..];
  }

  lemma SumAround(s: seq<int>, k: nat)
    requires k < |s|
    ensures Sum(s[..k+1]) == Sum(s[..k]) + s[k]
    ensures Sum(s) == Sum(s[..k]) + s[k] + Sum(s[k+1..])
  {
    assert s[..k+1][..k] == s[..k];
    assert s == s[..k+1] + s[k+1..];
    SumConcat(s[..k+1], s[k+1..]);
  }

  lemma DistTotalNext(dists: seq<Dist>, d: Dist)
    ensures DistTotal(dists + [d]) == DistTotal(dists) + d.amount
    ensures forall k :: 0 <= k <= |dists| ==> (dists + [d])[..k] == dists[..k]
  {
    assert (dists + [d])[..|dists|] == dists;
  }

  lemma BidsTakenNext(bids: seq<int>, left: seq<int>, b: nat, dists: seq<Dist>, d: Dist)
    requires Front(bids, left, b) && b < |bids| && d.bid == b && 0 < d.amount <= left[b]
    requires BidsTaken(bids, left, dists)
    ensures BidsTaken(bids, left[b := left[b] - d.amount], dists + [d])
  {
    hide Sum, DistTotal;
    FrontPosition(bids, left, b);
    FrontTake(bids, left, b, d.amount);
    DistTotalNext(dists, d);
    var dists' := dists + [d];
    assert dists'[..|dists'|] == dists' && dists[..|dists|] == dists;
    forall k | 0 <= k < |dists'| ensures Within(bids, dists'[k].bid, DistTotal(dists'[..k]), DistTotal(dists'[..k+1])) {
      if k < |dists| {
        assert Within(bids, dists[k].bid, DistTotal(dists[..k]), DistTotal(dists[..k+1]));
      }
    }
  }

  lemma AsksGivenNext(asks: seq<int>, left: seq<int>, a: nat, dists: seq<Dist>, d: Dist)
    requires Front(asks, left, a) && a < |asks| && d.ask == a && 0 < d.amount <= left[a]
    requires AsksGiven(asks, left, dists)
    ensures AsksGiven(asks, left[a := left[a] - d.amount], dists + [d])
  {
    hide Sum, DistTotal;
    FrontPosition(asks, left, a);
    FrontTake(asks, left, a, d.amount);
    DistTotalNext(dists, d);
    var dists' := dists + [d];
    assert dists'[..|dists'|] == dists' && dists[..|dists|] == dists;
    forall k | 0 <= k < |dists'| ensures Within(asks, dists'[k].ask, DistTotal(dists'[..k]), DistTotal(dists'[..k+1])) {
      if k < |dists| {
        assert Within(asks, dists[k].ask, DistTotal(dists[..k]), DistTotal(dists[..k+1]));
      }
    }
  }

  /** More was distributed, all of it to ask a. */
  ghost predicate MoreFor(a: nat, d0: seq<Dist>, d1: seq<Dist>) {
    d0 <= d1 && forall k :: |d0| <= k < |d1| ==> d1[k].ask == a
  }

  lemma {:induction false} DistTotalGrows(dists: seq<Dist>, i: nat, j: nat)
    requires i <= j <= |dists| && forall k :: 0 <= k < |dists| ==> dists[k].amount > 0
    ensures DistTotal(dists[..i]) <= DistTotal(dists[..j])
    ensures i < j ==> DistTotal(dists[..i]) < DistTotal(dists[..j])
    decreases j
  {
    if i < j {
      DistTotalGrows(dists, i, j - 1);
      assert dists[..j][..j-1] == dists[..j-1];
    }
  }

  /** The stretch of the leftover from lo to hi lies within what ask i gets as its share, or within what it gets on top. */
  ghost predicate LeftoverTurn(amount: int, assets: seq<int>, i: nat, lo: int, hi: int)
    requires AllPositive(assets)
  {
    i < |assets| &&
    ((SharesUpTo(amount, assets, i) <= lo && hi <= SharesUpTo(amount, assets, i + 1)) ||
     (amount - RestAfter(amount, assets, i) <= lo && hi <= amount - RestAfter(amount, assets, i + 1)))
  }

  /** From distribution n on, and counted from base, the distributions lie within the parts of the leftover they belong to. */
  ghost predicate LeftoverInTurn(dists: seq<Dist>, n: nat, base: int, amount: int, assets: seq<int>)
    requires AllPositive(assets)
  {
    forall k :: n <= k < |dists| ==>
                  LeftoverTurn(amount, assets, dists[k].ask, DistTotal(dists[..k]) - base, DistTotal(dists[..k+1]) - base)
  }

  lemma LeftoverTurnNext(d0: seq<Dist>, d1: seq<Dist>, n: nat, base: int, amount: int, assets: seq<int>, a: nat,
                         firstPass: bool)
    requires AllPositive(assets) && a < |assets| && n <= |d0|
    requires LeftoverInTurn(d0, n, base, amount, assets) && MoreFor(a, d0, d1)
    requires forall k :: 0 <= k < |d1| ==> d1[k].amount > 0
    requires DistTotal(d0) - base == amount - LeftSoFar(amount, assets, a - 1, firstPass)
    requires DistTotal(d1) - base == amount - LeftSoFar(amount, assets, a, firstPass)
    ensures LeftoverInTurn(d1, n, base, amount, assets) && d0 <= d1
  {
    hide SharesUpTo, RestAfter, DistTotal;
    assert d1[..|d1|] == d1 && d1[..|d0|] == d0;
    forall k | n <= k < |d1|
      ensures LeftoverTurn(amount, assets, d1[k].ask, DistTotal(d1[..k]) - base, DistTotal(d1[..k+1]) - base)
    {
      if k < |d0| {
        assert d1[k] == d0[k] && d1[..k] == d0[..k] && d1[..k+1] == d0[..k+1];
      } else {
        DistTotalGrows(d1, |d0|, k);
        DistTotalGrows(d1, k + 1, |d1|);
      }
    }
  }

  lemma NoLeftoverYet(dists: seq<Dist>, base: int, amount: int, assets: seq<int>)
    requires AllPositive(assets)
    ensures LeftoverInTurn(dists, |dists|, base, amount, assets)
  {
  }

  lemma TakenSum(bids: seq<int>, bidLeft: seq<int>, dists: seq<Dist>)
    requires BidsTaken(bids, bidLeft, dists)
    ensures DistTotal(dists) == Sum(bids) - Sum(bidLeft)
  {
  }

  /** The distributions of a price, laid end to end: first the prices of the asks in order, then the leftover in turn. */
  ghost predicate PricesInTurn(asks: seq<int>, dists: seq<Dist>, amount: int, assets: seq<int>)
    requires AllPositive(assets)
  {
    forall k :: 0 <= k < |dists| ==>
                  var lo, hi := DistTotal(dists[..k]), DistTotal(dists[..k+1]);
                  if lo < Sum(asks) then Within(asks, dists[k].ask, lo, hi)
                  else LeftoverTurn(amount, assets, dists[k].ask, lo - Sum(asks), hi - Sum(asks))
  }

  lemma BothPasses(asks: seq<int>, d0: seq<Dist>, d1: seq<Dist>, amount: int, assets: seq<int>)
    requires AllPositive(assets) && d0 <= d1 && forall k :: 0 <= k < |d1| ==> d1[k].amount > 0
    requires DistTotal(d0) == Sum(asks) && AsksInTurn(asks, d0)
    requires LeftoverInTurn(d1, |d0|, Sum(asks), amount, assets)
    ensures PricesInTurn(asks, d1, amount, assets)
  {
    hide Sum, DistTotal, LeftoverTurn, Within;
    assert d1[..|d0|] == d0;
    forall k | 0 <= k < |d1|
      ensures var lo, hi := DistTotal(d1[..k]), DistTotal(d1[..k+1]);
        if lo < Sum(asks) then Within(asks, d1[k].ask, lo, hi)
        else LeftoverTurn(amount, assets, d1[k].ask, lo - Sum(asks), hi - Sum(asks))
    {
      if k < |d0| {
        assert d1[k] == d0[k] && d1[..k] == d0[..k] && d1[..k+1] == d0[..k+1];
        DistTotalGrows(d1, k, |d0|);
      } else {
        DistTotalGrows(d1, |d0|, k);
      }
    }
  }

  lemma NothingDealt(asks: seq<int>, bids: seq<int>)
    ensures BidsTaken(bids, bids, []) && AsksGiven(asks, asks, [])
  {
  }

  /** One kind of thing (assets or price) being distributed between the asks and the bids: what each had to fill, what
      has been filled and what is left. */
  class Pool {
    const asks: seq<int>
    const bids: seq<int>
    var askFilled: seq<int>
    var askLeft: seq<int>
    var bidFilled: seq<int>
    var bidLeft: seq<int>
    var dists: seq<Dist>

    /** Filled and left add up to what there was, and what is filled is what has been distributed, all of it positive. */
    ghost predicate Valid()
      reads this
    {
      && |askFilled| == |askLeft| == |asks| && |bidFilled| == |bidLeft| == |bids|
      && (forall i :: 0 <= i < |asks| ==> askFilled[i] + askLeft[i] == asks[i] && askFilled[i] == AskShare(dists, i))
      && (forall j :: 0 <= j < |bids| ==> bidFilled[j] + bidLeft[j] == bids[j] && bidFilled[j] == BidShare(dists, j))
      && AllBetween(dists, |asks|, |bids|)
    }

    constructor (asks: seq<int>, bids: seq<int>)
      ensures Valid() && this.asks == asks && this.bids == bids
      ensures askLeft == asks && bidLeft == bids && dists == []
    {
      this.asks, this.bids, askLeft, bidLeft, dists := asks, bids, asks, bids, [];
      askFilled, bidFilled := seq(|asks|, _ => 0), seq(|bids|, _ => 0);
    }

    /** `distributeAssets`, `distributePrice`: the amount is recorded on both sides. */
    method Distribute(a: nat, b: nat, amount: int)
      requires Valid() && a < |asks| && b < |bids| && amount > 0
      modifies this
      ensures Valid()
      ensures askLeft == old(askLeft)[a := old(askLeft)[a] - amount]
      ensures bidLeft == old(bidLeft)[b := old(bidLeft)[b] - amount]
      ensures dists == old(dists) + [Dist(a, b, amount)]
    {
      askLeft := askLeft[a := askLeft[a] - amount];
      askFilled := askFilled[a := askFilled[a] + amount];
      bidLeft := bidLeft[b := bidLeft[b] - amount];
      bidFilled := bidFilled[b := bidFilled[b] + amount];
      dists := dists + [Dist(a, b, amount)];
      assert dists[..|dists|-1] == old(dists);
    }

    /** As much as both orders have left goes between them, so that one of them has nothing left. */
    method Match(a: nat, b: nat)
      requires Valid() && Front(asks, askLeft, a) && Front(bids, bidLeft, b)
      requires a < |asks| && b < |bids| && askLeft[a] > 0 && bidLeft[b] > 0
      requires AsksGiven(asks, askLeft, dists) && BidsTaken(bids, bidLeft, dists)
      modifies this
      ensures Valid()
      ensures AsksGiven(asks, askLeft, dists) && BidsTaken(bids, bidLeft, dists)
      ensures Front(asks, askLeft, if askLeft[a] == 0 then a + 1 else a)
      ensures Front(bids, bidLeft, if bidLeft[b] == 0 then b + 1 else b)
      ensures Sum(askLeft) - Sum(bidLeft) == old(Sum(askLeft) - Sum(bidLeft))
      ensures askLeft[a] >= 0 && bidLeft[b] >= 0 && (askLeft[a] == 0 || bidLeft[b] == 0)
    {
      hide AskShare, BidShare, Sum, AsksGiven, BidsTaken;
      var amount := if askLeft[a] <= bidLeft[b] then askLeft[a] else bidLeft[b];
      AsksGivenNext(asks, askLeft, a, dists, Dist(a, b, amount));
      BidsTakenNext(bids, bidLeft, b, dists, Dist(a, b, amount));
      FrontTake(asks, askLeft, a, amount);
      FrontTake(bids, bidLeft, b, amount);
      Distribute(a, b, amount);
    }

    /** `allocateAssets`: fails only on an order without a positive amount. Otherwise one side ends up filled completely,
        and both sides are filled first come, first served. */
    method AllocateAssets() returns (ok: bool, a: nat, b: nat)
      requires Valid() && askLeft == asks && bidLeft == bids && dists == []
      modifies this
      ensures Valid()
      ensures Front(asks, askLeft, a) && Front(bids, bidLeft, b)
      ensures AsksInTurn(asks, dists) && BidsInTurn(bids, dists)
      ensures ok ==> a == |asks| || b == |bids|
      ensures !ok ==> a < |asks| && b < |bids| && (asks[a] <= 0 || bids[b] <= 0)
      ensures Sum(asks) - Sum(askLeft) == Sum(bids) - Sum(bidLeft)
    {
      hide AskShare, BidShare, Sum, AsksInTurn, BidsInTurn;
      ok, a, b := true, 0, 0;
      NothingDealt(asks, bids);
      while a < |asks| && b < |bids|
        invariant Valid()
        invariant AsksGiven(asks, askLeft, dists) && BidsTaken(bids, bidLeft, dists)
        invariant Front(asks, askLeft, a) && Front(bids, bidLeft, b)
        invariant Sum(asks) - Sum(askLeft) == Sum(bids) - Sum(bidLeft)
        decreases |asks| - a + |bids| - b
      {
        if askLeft[a] <= 0 || bidLeft[b] <= 0 {
          return false, a, b;
        }
        Match(a, b);
        var askDone, bidDone := askLeft[a] == 0, bidLeft[b] == 0;
        if askDone {
          a := a + 1;
        }
        if bidDone {
          b := b + 1;
        }
      }
    }

    /** The first pass of `allocatePrice`: every ask gets its price. */
    method GiveAskPrices() returns (b: nat)
      requires Valid() && AllPositive(asks) && AllPositive(bids) && askLeft == asks && bidLeft == bids && dists == []
      requires Sum(asks) <= Sum(bids)
      modifies this
      ensures Valid()
      ensures BidsTaken(bids, bidLeft, dists) && AsksInTurn(asks, dists) && DistTotal(dists) == Sum(asks)
      ensures Front(bids, bidLeft, b)
      ensures forall i :: 0 <= i < |asks| ==> askLeft[i] == 0
      ensures Sum(bidLeft) == Sum(bids) - Sum(asks)
    {
      hide AskShare, BidShare, Sum, AsksInTurn, BidsTaken;
      b := 0;
      NothingDealt(asks, bids);
      for a := 0 to |asks|
        invariant Valid()
        invariant AsksGiven(asks, askLeft, dists) && BidsTaken(bids, bidLeft, dists)
        invariant Front(asks, askLeft, a) && Front(bids, bidLeft, b)
        invariant Sum(asks) - Sum(askLeft) == Sum(bids) - Sum(bidLeft)
      {
        b := GivePrice(a, b);
      }
      SumOfZeros(askLeft);
    }

    /** The inner loop of the first pass: one ask gets its price from the bids that have any left, in order. */
    method GivePrice(a: nat, from: nat) returns (b: nat)
      requires Valid() && AllPositive(asks) && AllPositive(bids) && a < |asks|
      requires Front(asks, askLeft, a) && Front(bids, bidLeft, from)
      requires Sum(asks) <= Sum(bids) && Sum(asks) - Sum(askLeft) == Sum(bids) - Sum(bidLeft)
      requires AsksGiven(asks, askLeft, dists) && BidsTaken(bids, bidLeft, dists)
      modifies this
      ensures Valid()
      ensures AsksGiven(asks, askLeft, dists) && BidsTaken(bids, bidLeft, dists)
      ensures Front(asks, askLeft, a + 1) && Front(bids, bidLeft, b)
      ensures Sum(asks) - Sum(askLeft) == Sum(bids) - Sum(bidLeft)
    {
      hide AskShare, BidShare, Sum, AsksGiven, BidsTaken;
      b := from;
      BidsRemain(asks, askLeft, a, bids, bidLeft, b);
      while askLeft[a] > 0 && bidLeft[b] > 0
        invariant Valid()
        invariant AsksGiven(asks, askLeft, dists) && BidsTaken(bids, bidLeft, dists)
        invariant Front(bids, bidLeft, b)
        invariant Front(asks, askLeft, if askLeft[a] == 0 then a + 1 else a)
        invariant askLeft[a] > 0 ==> b < |bids|
        invariant Sum(asks) - Sum(askLeft) == Sum(bids) - Sum(bidLeft)
        invariant askLeft[a] >= 0
        decreases |bids| - b, askLeft[a]
      {
        Match(a, b);
        if bidLeft[b] <= 0 {
          b := b + 1;
        }
        BidsRemain(asks, askLeft, if askLeft[a] == 0 then a + 1 else a, bids, bidLeft, b);
      }
    }

    /** Takes the given amount for one ask from the bids that have any left, in order (the inner part of the second
        pass of `allocatePrice`). */
    method GiveTo(a: nat, amount: int, from: nat) returns (b: nat)
      requires Valid() && AllPositive(bids) && a < |asks|
      requires Front(bids, bidLeft, from) && 0 < amount <= Sum(bidLeft)
      requires BidsTaken(bids, bidLeft, dists)
      modifies this
      ensures Valid()
      ensures BidsTaken(bids, bidLeft, dists) && MoreFor(a, old(dists), dists)
      ensures Front(bids, bidLeft, b)
      ensures askLeft == old(askLeft)[a := old(askLeft)[a] - amount]
      ensures Sum(bidLeft) == old(Sum(bidLeft)) - amount
    {
      hide AskShare, BidShare, Sum, BidsTaken;
      b := from;
      var addPriceAmt := amount;
      while addPriceAmt != 0 && b < |bids| && bidLeft[b] <= addPriceAmt
        invariant Valid() && Front(bids, bidLeft, b)
        invariant BidsTaken(bids, bidLeft, dists) && MoreFor(a, old(dists), dists)
        invariant 0 <= addPriceAmt <= amount && addPriceAmt <= Sum(bidLeft)
        invariant Sum(bidLeft) == old(Sum(bidLeft)) - (amount - addPriceAmt)
        invariant askLeft == old(askLeft)[a := old(askLeft)[a] - (amount - addPriceAmt)]
        decreases |bids| - b
      {
        var bidPriceLeft := bidLeft[b];
        FrontTake(bids, bidLeft, b, bidPriceLeft);
        BidsTakenNext(bids, bidLeft, b, dists, Dist(a, b, bidPriceLeft));
        Distribute(a, b, bidPriceLeft);
        addPriceAmt := addPriceAmt - bidPriceLeft;
        b := b + 1;
      }
      FrontSum(bids, bidLeft, b);
      if addPriceAmt != 0 {
        FrontTake(bids, bidLeft, b, addPriceAmt);
        BidsTakenNext(bids, bidLeft, b, dists, Dist(a, b, addPriceAmt));
        Distribute(a, b, addPriceAmt);
        // The bid had more than this, so the program's step to the next bid at this point is never taken.
        assert bidLeft[b] > 0;
      }
    }

    /** The second pass of `allocatePrice`: what the bids pay beyond the ask prices goes to the asks by their assets.
        It comes to an end, takes everything the bids have left, and gives every ask exactly its part of it. */
    method GiveLeftovers(assets: seq<int>, from: nat)
      requires Valid() && AllPositive(bids) && Front(bids, bidLeft, from)
      requires |assets| == |asks| > 0 && AllPositive(assets)
      requires forall i :: 0 <= i < |asks| ==> askLeft[i] == 0
      requires BidsTaken(bids, bidLeft, dists)
      modifies this
      ensures Valid()
      ensures BidsTaken(bids, bidLeft, dists) && old(dists) <= dists
      ensures LeftoverInTurn(dists, |old(dists)|, old(DistTotal(dists)), old(Sum(bidLeft)), assets)
      ensures forall j :: 0 <= j < |bids| ==> bidLeft[j] == 0
      ensures forall i :: 0 <= i < |asks| ==> -askLeft[i] == LeftoverFor(old(Sum(bidLeft)), assets, i)
    {
      hide AskShare, BidShare, Sum, ShareOf, LeftoverFor, Extra, LeftSoFar, BidsTaken, LeftoverInTurn, DistTotal, MoreFor,
           GivenSoFar;
      ghost var total, n, base := Sum(bidLeft), |dists|, DistTotal(dists);
      TakenSum(bids, bidLeft, dists);
      NoLeftoverYet(dists, base, total, assets);
      FrontSum(bids, bidLeft, from);
      SumAtLeast(assets, 0);
      StartGiving(askLeft, total, assets);
      var totalAssetsAmt := SumOf(assets);
      var totalLeftoverPriceAmt := SumOf(bidLeft);
      var leftoverPriceAmt := totalLeftoverPriceAmt;
      var b: nat := from;
      var a, firstPass := -1, true;
      while leftoverPriceAmt != 0
        invariant Valid() && Front(bids, bidLeft, b)
        invariant leftoverPriceAmt == Sum(bidLeft) >= 0
        invariant -1 <= a < |asks|
        invariant leftoverPriceAmt == LeftSoFar(total, assets, a, firstPass)
        invariant GivenSoFar(askLeft, total, assets, a, firstPass)
        invariant BidsTaken(bids, bidLeft, dists) && old(dists) <= dists
        invariant LeftoverInTurn(dists, n, base, total, assets)
        decreases firstPass, |asks| - a
      {
        if a == |asks| - 1 {
          PassOver(askLeft, total, assets, firstPass);
        }
        a := a + 1;
        if a == |asks| {
          a := 0;
          firstPass := false;
        }
        FrontSum(bids, bidLeft, b);
        assert b < |bids|;
        var addPriceAmt := totalLeftoverPriceAmt * assets[a] / totalAssetsAmt;
        ShareFits(total, assets, a);
        TurnTaken(askLeft, total, assets, a, firstPass);
        TurnIs(total, assets, a, firstPass);
        ghost var before := dists;
        TakenSum(bids, bidLeft, dists);
        if addPriceAmt != 0 || !firstPass {
          if addPriceAmt == 0 {
            addPriceAmt := 1;
          }
          if leftoverPriceAmt < addPriceAmt {
            addPriceAmt := leftoverPriceAmt;
          }
          b := GiveTo(a, addPriceAmt, b);
          leftoverPriceAmt := leftoverPriceAmt - addPriceAmt;
          TakenSum(bids, bidLeft, dists);
          LeftoverTurnNext(before, dists, n, base, total, assets, a, firstPass);
        }
      }
      FrontSum(bids, bidLeft, b);
      NothingMore(askLeft, total, assets, a, firstPass);
      AllGiven(askLeft, total, assets);
    }

    /** `allocatePrice`: fails exactly if the asks want more than the bids offer. Otherwise it neither panics nor runs
        forever; every bid pays exactly its price, every ask gets its price and exactly its part of the surplus, and all
        that is paid is received. */
    method AllocatePrice(assets: seq<int>) returns (ok: bool)
      requires Valid() && AllPositive(asks) && AllPositive(bids) && askLeft == asks && bidLeft == bids && dists == []
      requires |assets| == |asks| > 0 && AllPositive(assets)
      modifies this
      ensures Valid()
      ensures ok <==> Sum(asks) <= Sum(bids)
      ensures !ok ==> dists == old(dists)
      ensures ok ==> forall j :: 0 <= j < |bids| ==> bidFilled[j] == bids[j]
      ensures ok ==> forall i :: 0 <= i < |asks| ==> askFilled[i] == asks[i] + LeftoverFor(Sum(bids) - Sum(asks), assets, i)
      ensures ok ==> Sum(askFilled) == Sum(bids)
      ensures ok ==> BidsInTurn(bids, dists) && PricesInTurn(asks, dists, Sum(bids) - Sum(asks), assets)
    {
      hide AskShare, BidShare, Sum, ShareOf, LeftoverFor, Front, AsksInTurn, BidsInTurn, PricesInTurn, LeftoverInTurn,
           DistTotal;
      var totalAskPriceAmt := SumOf(askLeft);
      var totalBidPriceAmt := SumOf(bidLeft);
      if totalAskPriceAmt > totalBidPriceAmt {
        return false;
      }
      var b := GiveAskPrices();
      var surplus := SumOf(bidLeft);
      ghost var first := dists;
      NoLeftoverYet(dists, Sum(asks), surplus, assets);
      if surplus == 0 {
        FrontSum(bids, bidLeft, b);
        NoSurplus(bids, bidLeft, b, assets);
      } else {
        GiveLeftovers(assets, b);
      }
      BothPasses(asks, first, dists, surplus, assets);
      SidesAgree(dists, askFilled, bidFilled);
      assert bidFilled == bids;
      ok := true;
    }
  }

  lemma NoSurplus(bids: seq<int>, bidLeft: seq<int>, b: nat, assets: seq<int>)
    requires AllPositive(bids) && Front(bids, bidLeft, b) && Sum(bidLeft) == 0
    requires AllPositive(assets)
    ensures forall j :: 0 <= j < |bids| ==> bidLeft[j] == 0
    ensures forall i :: 0 <= i < |assets| ==> LeftoverFor(0, assets, i) == 0
  {
    FrontSum(bids, bidLeft, b);
    forall i | 0 <= i < |assets| ensures LeftoverFor(0, assets, i) == 0 {
      SumAtLeast(assets, i);
      ExtraWithin(0, assets, i);
    }
  }

  lemma ExtraWithin(amount: int, assets: seq<int>, i: nat)
    requires AllPositive(assets) && i < |assets| && amount >= 0
    ensures 0 <= Extra(amount, assets, i) <= amount
  {
    ExtraNext(amount, assets, i);
    SharesNonNegative(amount, assets, |assets|);
    MoreAtLeast(amount, assets, i);
  }

  lemma {:induction false} SharesNonNegative(amount: int, assets: seq<int>, k: nat)
    requires AllPositive(assets) && k <= |assets| && amount >= 0
    ensures SharesUpTo(amount, assets, k) >= 0
  {
    if k > 0 {
      SharesNonNegative(amount, assets, k - 1);
      ShareBound(amount, assets, k - 1);
    }
  }
}
