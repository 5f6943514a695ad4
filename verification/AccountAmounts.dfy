/** Lists of per-account amounts and the operations that total and simplify them
    (`AccountAmount`, `SumAccountAmounts`, `SimplifyAccountAmounts`). */
module AccountAmounts {
  import opened SdkCoins

  datatype AccountAmount = AccountAmount(account: Account, amount: Coins)

  /** What account a has of denom d over the whole list. */
  ghost function Of(es: seq<AccountAmount>, a: Account, d: Denom): int {
    if es == [] then 0
    else Of(es[..|es|-1], a, d) + if es[|es|-1].account == a then Amt(es[|es|-1].amount, d) else 0
  }

  /** The amount of denom d over the whole list. */
  ghost function Total(es: seq<AccountAmount>, d: Denom): int {
    if es == [] then 0 else Total(es[..|es|-1], d) + Amt(es[|es|-1].amount, d)
  }

  ghost predicate AllValid(es: seq<AccountAmount>) {
    forall i :: 0 <= i < |es| ==> Valid(es[i].amount)
  }

  ghost predicate NoneEmpty(es: seq<AccountAmount>) {
    forall i :: 0 <= i < |es| ==> es[i].amount != NoCoins
  }

  ghost function Accounts(es: seq<AccountAmount>): (r: seq<Account>)
    ensures |r| == |es| && forall i :: 0 <= i < |es| ==> r[i] == es[i].account
  {
    seq(|es|, i requires 0 <= i < |es| => es[i].account)
  }

  ghost predicate Distinct(s: seq<Account>) {
    forall i, j :: 0 <= i < j < |s| ==> s[i] != s[j]
  }

  /** The elements of s without repeats, in order of first occurrence. */
  ghost function FirstOccurrences(s: seq<Account>): (r: seq<Account>)
    ensures forall x :: x in r <==> x in s
    ensures Distinct(r)
    ensures |r| <= |s|
  {
    if s == [] then []
    else
      var p := FirstOccurrences(s[..|s|-1]);
      assert s == s[..|s|-1] + [s[|s|-1]];
      if s[|s|-1] in p then p else p + [s[|s|-1]]
  }

  /** The sum of the amounts listed for account a. */
  ghost function SumFor(es: seq<AccountAmount>, a: Account): Coins {
    if es == [] then NoCoins
    else if es[|es|-1].account == a then Add(SumFor(es[..|es|-1], a), es[|es|-1].amount)
    else SumFor(es[..|es|-1], a)
  }

  /** The simplified list: one entry per account, in order of first occurrence. */
  ghost function Simplified(es: seq<AccountAmount>): seq<AccountAmount> {
    var addrs := FirstOccurrences(Accounts(es));
    seq(|addrs|, i requires 0 <= i < |addrs| => AccountAmount(addrs[i], SumFor(es, addrs[i])))
  }

  lemma {:induction false} SumForIsOf(es: seq<AccountAmount>, a: Account)
    ensures forall d :: Amt(SumFor(es, a), d) == Of(es, a, d)
  {
    if es != [] {
      SumForIsOf(es[..|es|-1], a);
    }
  }

  lemma {:induction false} OfConcat(x: seq<AccountAmount>, y: seq<AccountAmount>, a: Account, d: Denom)
    ensures Of(x + y, a, d) == Of(x, a, d) + Of(y, a, d)
  {
    if y == [] {
      assert x + y == x;
    } else {
      OfConcat(x, y[..|y|-1], a, d);
      assert (x + y)[..|x + y|-1] == x + y[..|y|-1];
    }
  }

  lemma {:induction false} TotalConcat(x: seq<AccountAmount>, y: seq<AccountAmount>, d: Denom)
    ensures Total(x + y, d) == Total(x, d) + Total(y, d)
  {
    if y == [] {
      assert x + y == x;
    } else {
      TotalConcat(x, y[..|y|-1], d);
      assert (x + y)[..|x + y|-1] == x + y[..|y|-1];
    }
  }

  lemma {:induction false} AbsentAccount(es: seq<AccountAmount>, a: Account, d: Denom)
    requires a !in Accounts(es)
    ensures Of(es, a, d) == 0
  {
    if es != [] {
      var p := es[..|es|-1];
      forall i | 0 <= i < |p| ensures Accounts(p)[i] != a {
        assert Accounts(es)[i] != a;
      }
      assert Accounts(es)[|es|-1] != a;
      AbsentAccount(p, a, d);
    }
  }

  /** In a list of distinct accounts, an account's sum is the amount of its one entry. */
  lemma {:induction false} DistinctOf(es: seq<AccountAmount>, i: nat, d: Denom)
    requires Distinct(Accounts(es)) && i < |es|
    ensures Of(es, es[i].account, d) == Amt(es[i].amount, d)
  {
    var p := es[..|es|-1];
    forall j, k | 0 <= j < k < |p| ensures Accounts(p)[j] != Accounts(p)[k] {
      assert Accounts(es)[j] != Accounts(es)[k];
    }
    if i < |p| {
      DistinctOf(p, i, d);
      assert Accounts(es)[i] != Accounts(es)[|es|-1];
    } else {
      forall j | 0 <= j < |p| ensures Accounts(p)[j] != es[i].account {
        assert Accounts(es)[j] != Accounts(es)[i];
      }
      AbsentAccount(p, es[i].account, d);
    }
  }

  /** The accounts of the simplified list are distinct and in order of first occurrence. */
  lemma SimplifiedAccounts(es: seq<AccountAmount>)
    ensures Accounts(Simplified(es)) == FirstOccurrences(Accounts(es))
    ensures Distinct(Accounts(Simplified(es)))
    ensures |Simplified(es)| <= |es|
  {
  }

  /** Simplifying keeps what every account has of every denom. */
  lemma SimplifiedOf(es: seq<AccountAmount>, a: Account, d: Denom)
    ensures Of(Simplified(es), a, d) == Of(es, a, d)
  {
    var s := Simplified(es);
    SimplifiedAccounts(es);
    if a in Accounts(es) {
      assert a in Accounts(s);
      var i :| 0 <= i < |s| && Accounts(s)[i] == a;
      DistinctOf(s, i, d);
      SumForIsOf(es, a);
    } else {
      assert a !in Accounts(s);
      AbsentAccount(es, a, d);
      AbsentAccount(s, a, d);
    }
  }

  /** Without account a, a list's total is smaller by what a has. */
  ghost function Without(es: seq<AccountAmount>, a: Account): (r: seq<AccountAmount>)
    ensures |r| <= |es|
    ensures a in Accounts(es) ==> |r| < |es|
  {
    if es == [] then []
    else
      var p := es[..|es|-1];
      assert a in Accounts(es) ==> a in Accounts(p) || es[|es|-1].account == a by {
        if a in Accounts(es) {
          var i :| 0 <= i < |es| && Accounts(es)[i] == a;
          if i < |p| { assert Accounts(p)[i] == a; }
        }
      }
      if es[|es|-1].account == a then Without(p, a) else Without(p, a) + [es[|es|-1]]
  }

  lemma {:induction false} WithoutSums(es: seq<AccountAmount>, a: Account, b: Account, d: Denom)
    ensures Total(Without(es, a), d) == Total(es, d) - Of(es, a, d)
    ensures Of(Without(es, a), b, d) == if a == b then 0 else Of(es, b, d)
  {
    if es != [] {
      var p, last := es[..|es|-1], es[|es|-1];
      WithoutSums(p, a, b, d);
      if last.account != a {
        assert (Without(p, a) + [last])[..|Without(p, a)|] == Without(p, a);
      }
    }
  }

  /** Lists that agree on every account agree on the total. */
  lemma {:induction false} SameOfSameTotal(x: seq<AccountAmount>, y: seq<AccountAmount>, d: Denom)
    requires forall a :: Of(x, a, d) == Of(y, a, d)
    ensures Total(x, d) == Total(y, d)
    decreases |x| + |y|
  {
    if x != [] || y != [] {
      var a := if x != [] then x[0].account else y[0].account;
      assert x != [] ==> Accounts(x)[0] == x[0].account;
      assert x == [] ==> Accounts(y)[0] == y[0].account;
      forall b ensures Of(Without(x, a), b, d) == Of(Without(y, a), b, d) {
        WithoutSums(x, a, b, d);
        WithoutSums(y, a, b, d);
      }
      WithoutSums(x, a, a, d);
      WithoutSums(y, a, a, d);
      SameOfSameTotal(Without(x, a), Without(y, a), d);
    }
  }

  /** Simplifying keeps the grand total. */
  lemma SimplifiedTotal(es: seq<AccountAmount>, d: Denom)
    ensures Total(Simplified(es), d) == Total(es, d)
  {
    forall a ensures Of(Simplified(es), a, d) == Of(es, a, d) {
      SimplifiedOf(es, a, d);
    }
    SameOfSameTotal(Simplified(es), es, d);
  }

  lemma {:induction false} FirstOccurrencesOfDistinct(s: seq<Account>)
    requires Distinct(s)
    ensures FirstOccurrences(s) == s
  {
    if s != [] {
      FirstOccurrencesOfDistinct(s[..|s|-1]);
      assert s == s[..|s|-1] + [s[|s|-1]];
    }
  }

  /** A list whose accounts are already distinct is left exactly as it is. */
  lemma SimplifiedOfDistinct(es: seq<AccountAmount>)
    requires Distinct(Accounts(es))
    ensures Simplified(es) == es
  {
    FirstOccurrencesOfDistinct(Accounts(es));
    var s := Simplified(es);
    forall i | 0 <= i < |es| ensures s[i] == es[i] {
      SumForIsOf(es, es[i].account);
      forall d ensures Amt(SumFor(es, es[i].account), d) == Amt(es[i].amount, d) {
        DistinctOf(es, i, d);
      }
      SameAmounts(SumFor(es, es[i].account), es[i].amount);
    }
  }

  /** Simplifying twice is simplifying once, so the repeated calls on the splits change nothing. */
  lemma SimplifiedIdempotent(es: seq<AccountAmount>)
    ensures Simplified(Simplified(es)) == Simplified(es)
  {
    SimplifiedAccounts(es);
    SimplifiedOfDistinct(Simplified(es));
  }

  lemma {:induction false} SumForValid(es: seq<AccountAmount>, a: Account)
    requires AllValid(es)
    ensures Valid(SumFor(es, a))
  {
    if es != [] {
      var p := es[..|es|-1];
      SumForValid(p, a);
      forall d | d in SumFor(es, a) ensures SumFor(es, a)[d] > 0 {
        assert Amt(SumFor(es, a), d) == SumFor(es, a)[d];
        assert Amt(SumFor(p, a), d) >= 0 && Amt(es[|es|-1].amount, d) >= 0;
      }
    }
  }

  lemma SimplifiedValid(es: seq<AccountAmount>)
    requires AllValid(es)
    ensures AllValid(Simplified(es))
  {
    forall i | 0 <= i < |Simplified(es)| ensures Valid(Simplified(es)[i].amount) {
      SumForValid(es, Simplified(es)[i].account);
    }
  }

  lemma {:induction false} SumForNonEmpty(es: seq<AccountAmount>, a: Account)
    requires AllValid(es) && NoneEmpty(es) && a in Accounts(es)
    ensures SumFor(es, a) != NoCoins
  {
    var p, last := es[..|es|-1], es[|es|-1];
    if last.account == a {
      SumForValid(p, a);
      assert last.amount != NoCoins;
      var d :| d in last.amount;
      assert Amt(SumFor(p, a), d) >= 0 && Amt(last.amount, d) > 0;
      assert Amt(SumFor(es, a), d) > 0;
    } else {
      var i :| 0 <= i < |es| && Accounts(es)[i] == a;
      assert Accounts(p)[i] == a;
      SumForNonEmpty(p, a);
    }
  }

  /** Without empty amounts there are none after simplifying. */
  lemma SimplifiedNoneEmpty(es: seq<AccountAmount>)
    requires AllValid(es) && NoneEmpty(es)
    ensures NoneEmpty(Simplified(es))
  {
    var s := Simplified(es);
    SimplifiedAccounts(es);
    forall i | 0 <= i < |s| ensures s[i].amount != NoCoins {
      assert Accounts(s)[i] in FirstOccurrences(Accounts(es));
      SumForNonEmpty(es, s[i].account);
    }
  }

  /** Amounts of valid lists are never negative. */
  lemma {:induction false} ValidNonNegative(es: seq<AccountAmount>, a: Account, d: Denom)
    requires AllValid(es)
    ensures Of(es, a, d) >= 0
  {
    if es != [] {
      ValidNonNegative(es[..|es|-1], a, d);
      assert Amt(es[|es|-1].amount, d) >= 0;
    }
  }

  lemma {:induction false} ValidTotal(es: seq<AccountAmount>, d: Denom)
    requires AllValid(es)
    ensures Total(es, d) >= 0
  {
    if es != [] {
      ValidTotal(es[..|es|-1], d);
      assert Amt(es[|es|-1].amount, d) >= 0;
    }
  }

  /** Each account of rv comes up in es, and does so before any account listed behind it in rv. */
  ghost predicate InOrderOf(rv: seq<AccountAmount>, es: seq<AccountAmount>) {
    && (forall a :: a in Accounts(rv) <==> a in Accounts(es))
    && (forall i, j :: 0 <= i < j < |rv| ==> ComesFirst(Accounts(es), rv[i].account, rv[j].account))
  }

  /** a comes up at some place before b has come up. */
  ghost predicate ComesFirst(s: seq<Account>, a: Account, b: Account) {
    exists p :: 0 <= p < |s| && s[p] == a && b !in s[..p+1]
  }

  lemma {:induction false} FirstOccurrencesInOrder(s: seq<Account>, i: nat, j: nat)
    requires i < j < |FirstOccurrences(s)|
    ensures ComesFirst(s, FirstOccurrences(s)[i], FirstOccurrences(s)[j])
  {
    var n, r := |s| - 1, FirstOccurrences(s);
    var init := FirstOccurrences(s[..n]);
    if j < |init| {
      FirstOccurrencesInOrder(s[..n], i, j);
      var p :| 0 <= p < n && s[..n][p] == init[i] && init[j] !in s[..n][..p+1];
      assert s[..n][..p+1] == s[..p+1];
    } else {
      assert init[i] in s[..n];
      var p :| 0 <= p < n && s[..n][p] == init[i];
      assert forall x :: x in s[..p+1] ==> x in s[..n];
      assert s[p] == r[i] && r[j] !in s[..p+1];
    }
  }

  /** The simplified list has the accounts in the order in which they first come up. */
  lemma SimplifiedInOrder(es: seq<AccountAmount>)
    ensures InOrderOf(Simplified(es), es)
  {
    var s := Simplified(es);
    SimplifiedAccounts(es);
    forall i, j | 0 <= i < j < |s| ensures ComesFirst(Accounts(es), s[i].account, s[j].account) {
      FirstOccurrencesInOrder(Accounts(es), i, j);
      assert s[i].account == Accounts(s)[i] && s[j].account == Accounts(s)[j];
    }
  }

  /** `SumAccountAmounts`: the total of all the amounts, denom by denom. */
  method SumAccountAmounts(entries: seq<AccountAmount>) returns (rv: Coins)
    ensures forall d :: Amt(rv, d) == Total(entries, d)
  {
    rv := NoCoins;
    for i := 0 to |entries|
      invariant forall d :: Amt(rv, d) == Total(entries[..i], d)
    {
      assert entries[..i+1][..i] == entries[..i];
      rv := Add(rv, entries[i].amount);
    }
    assert entries[..|entries|] == entries;
  }

  /** `SimplifyAccountAmounts`: combines the entries of each account. */
  method SimplifyAccountAmounts(entries: seq<AccountAmount>) returns (rv: seq<AccountAmount>)
    ensures rv == Simplified(entries)
    ensures Distinct(Accounts(rv)) && InOrderOf(rv, entries)
    ensures forall a, d :: Of(rv, a, d) == Of(entries, a, d)
  {
    SimplifiedAccounts(entries);
    SimplifiedInOrder(entries);
    forall a, d ensures Of(Simplified(entries), a, d) == Of(entries, a, d) {
      SimplifiedOf(entries, a, d);
    }
    if |entries| <= 1 {
      SimplifiedOfDistinct(entries);
      return entries;
    }
    hide *;
    var amounts: map<Account, Coins> := map[];
    var addrs: seq<Account> := [];
    GroupedStart(entries);
    for i := 0 to |entries|
      invariant Grouped(entries[..i], addrs, amounts)
    {
      var entry := entries[i];
      GroupedNext(entries, i, addrs, amounts);
      var sum := if entry.account in amounts then amounts[entry.account] else NoCoins;
      if entry.account !in amounts {
        addrs := addrs + [entry.account];
      }
      amounts := amounts[entry.account := Add(sum, entry.amount)];
    }
    assert entries[..|entries|] == entries;
    GroupedLookup(entries, addrs, amounts);
    rv := Listed(addrs, amounts);
    GroupedSimplified(entries, addrs, amounts, rv);
  }

  /** The second loop of `SimplifyAccountAmounts`: one entry for each address, in order. */
  method Listed(addrs: seq<Account>, amounts: map<Account, Coins>) returns (rv: seq<AccountAmount>)
    requires forall i :: 0 <= i < |addrs| ==> addrs[i] in amounts
    ensures |rv| == |addrs|
    ensures forall i :: 0 <= i < |addrs| ==> rv[i] == AccountAmount(addrs[i], amounts[addrs[i]])
  {
    rv := [];
    for i := 0 to |addrs|
      invariant |rv| == i
      invariant forall j :: 0 <= j < i ==> rv[j] == AccountAmount(addrs[j], amounts[addrs[j]])
    {
      rv := rv + [AccountAmount(addrs[i], amounts[addrs[i]])];
    }
  }

  /** The accounts seen so far, in order of first occurrence, and the sum for each. */
  ghost predicate Grouped(es: seq<AccountAmount>, addrs: seq<Account>, amounts: map<Account, Coins>) {
    && addrs == FirstOccurrences(Accounts(es))
    && (forall a :: a in amounts <==> a in addrs)
    && (forall a :: a in amounts ==> amounts[a] == SumFor(es, a))
  }

  lemma GroupedStart(es: seq<AccountAmount>)
    ensures Grouped(es[..0], [], map[])
  {
    assert Accounts(es[..0]) == [];
  }

  /** How one more entry changes the accounts seen so far and their sums. */
  lemma GroupedNext(es: seq<AccountAmount>, i: nat, addrs: seq<Account>, amounts: map<Account, Coins>)
    requires i < |es| && Grouped(es[..i], addrs, amounts)
    ensures var known := es[i].account in amounts;
      Grouped(es[..i+1], if known then addrs else addrs + [es[i].account],
              amounts[es[i].account := Add(if known then amounts[es[i].account] else NoCoins, es[i].amount)])
  {
    assert es[..i+1][..i] == es[..i];
    assert Accounts(es[..i+1])[..i] == Accounts(es[..i]);
    if es[i].account !in amounts {
      AbsentSum(es[..i], es[i].account);
    }
    forall a ensures SumFor(es[..i+1], a) ==
                     if es[i].account == a then Add(SumFor(es[..i], a), es[i].amount) else SumFor(es[..i], a) {
    }
  }

  lemma GroupedLookup(es: seq<AccountAmount>, addrs: seq<Account>, amounts: map<Account, Coins>)
    requires Grouped(es, addrs, amounts)
    ensures forall i :: 0 <= i < |addrs| ==> addrs[i] in amounts
  {
  }

  lemma GroupedSimplified(es: seq<AccountAmount>, addrs: seq<Account>, amounts: map<Account, Coins>, rv: seq<AccountAmount>)
    requires Grouped(es, addrs, amounts) && |rv| == |addrs|
    requires forall i :: 0 <= i < |addrs| ==> addrs[i] in amounts && rv[i] == AccountAmount(addrs[i], amounts[addrs[i]])
    ensures rv == Simplified(es)
  {
  }

  lemma AbsentSum(es: seq<AccountAmount>, a: Account)
    requires a !in Accounts(es)
    ensures SumFor(es, a) == NoCoins
  {
    SumForIsOf(es, a);
    forall d ensures Amt(SumFor(es, a), d) == Amt(NoCoins, d) {
      AbsentAccount(es, a, d);
    }
    SameAmounts(SumFor(es, a), NoCoins);
  }
}
