/** Integer division that rounds away from zero, and set operations on lists (`QuoRemInt`, `QuoIntRoundUp`,
    `contains`, `intersection`). */
module Rounding {

  function Abs(a: int): nat {
    if a < 0 then -a else a
  }

  function Sign(a: int): int {
    if a > 0 then 1 else if a < 0 then -1 else 0
  }

  /** `QuoRemInt`: the quotient truncated toward zero, and the remainder that goes with it. */
  function QuoRemInt(a: int, b: int): (r: (int, int))
    requires b != 0
    ensures a == r.0 * b + r.1
    ensures Abs(r.1) < Abs(b) && (r.1 == 0 || Sign(r.1) == Sign(a))
  {
    var q, r := Abs(a) / Abs(b), Abs(a) % Abs(b);
    DivMod(Abs(a), Abs(b));
    Truncated(a, b, q, r);
    (if Sign(a) == Sign(b) then q else -q, if a >= 0 then r else -r)
  }

  lemma DivMod(n: nat, m: nat)
    requires m > 0
    ensures n == n / m * m + n % m && 0 <= n / m && 0 <= n % m < m
  {
  }

  /** The magnitudes of quotient and remainder are those of dividing the magnitudes. */
  lemma Truncated(a: int, b: int, q: int, r: int)
    requires b != 0 && 0 <= q && Abs(a) == q * Abs(b) + r && 0 <= r < Abs(b)
    ensures a == (if Sign(a) == Sign(b) then q else -q) * b + if a >= 0 then r else -r
  {
    NegMul(q, b);
    assert q > 0 ==> q * Abs(b) > 0;
  }

  lemma NegMul(q: int, b: int)
    ensures (-q) * b == -(q * b) == q * -b
  {
  }

  /** c is the least whole number that is not below n / m. */
  ghost predicate IsCeiling(c: nat, n: nat, m: nat) {
    n <= c * m && (c == 0 || (c - 1) * m < n)
  }

  /** There is only one. */
  lemma CeilingUnique(c: nat, d: nat, n: nat, m: nat)
    requires m > 0 && IsCeiling(c, n, m) && IsCeiling(d, n, m)
    ensures c == d
  {
    if c < d {
      MulMonotone(c, d - 1, m);
    } else if d < c {
      MulMonotone(d, c - 1, m);
    }
  }

  lemma MulMonotone(x: int, y: int, m: nat)
    requires x <= y
    ensures x * m <= y * m
  {
  }

  /** `QuoIntRoundUp`: a / b with any remainder rounded away from zero. For all signs, the magnitude of the result is
      the ceiling of |a| / |b|, and its sign that of the quotient. */
  function QuoIntRoundUp(a: int, b: int): (rv: int)
    requires b != 0
    ensures IsCeiling(Abs(rv), Abs(a), Abs(b))
    ensures Sign(rv) == Sign(a) * Sign(b)
  {
    var (quo, rem) := QuoRemInt(a, b);
    RoundedUp(a, b);
    if rem != 0 then
      var shift := if quo < 0 || (quo == 0 && Sign(a) * Sign(b) < 0) then -1 else 1;
      quo + shift
    else quo
  }

  /** The magnitude of the quotient, one more if there is a remainder, is the ceiling. */
  lemma RoundedUp(a: int, b: int)
    requires b != 0
    ensures var (quo, rem) := QuoRemInt(a, b);
      && IsCeiling(Abs(quo) + (if rem == 0 then 0 else 1), Abs(a), Abs(b))
      && (quo == 0 || Sign(quo) == Sign(a) * Sign(b))
      && (quo == 0 && rem == 0 <==> a == 0)
  {
    var q, r, m := Abs(a) / Abs(b), Abs(a) % Abs(b), Abs(b);
    DivMod(Abs(a), m);
    var (quo, rem) := QuoRemInt(a, b);
    assert Abs(quo) == q && Abs(rem) == r;
    CeilingOfParts(Abs(a), m, q, r);
  }

  lemma CeilingOfParts(n: nat, m: nat, q: nat, r: nat)
    requires n == q * m + r && r < m
    ensures IsCeiling(q + (if r == 0 then 0 else 1), n, m)
    ensures q == 0 && r == 0 <==> n == 0
  {
    assert (q + 1) * m == q * m + m;
    if q > 0 {
      assert (q - 1) * m == q * m - m;
      MulMonotone(1, q, m);
    }
  }

  // ---------- lists ----------

  /** `contains`: some element of vals equals toFind. */
  method Contains<T>(vals: seq<T>, toFind: T, equals: (T, T) -> bool) returns (found: bool)
    ensures found <==> Has(vals, toFind, equals)
  {
    for i := 0 to |vals|
      invariant !Has(vals[..i], toFind, equals)
    {
      if equals(toFind, vals[i]) {
        return true;
      }
    }
    assert vals[..|vals|] == vals;
    return false;
  }

  ghost predicate Has<T>(vals: seq<T>, x: T, equals: (T, T) -> bool) {
    exists i :: 0 <= i < |vals| && equals(x, vals[i])
  }

  /** rv has elements of the first n of list1, in order; at says where they are. */
  ghost predicate InOrder<T>(list1: seq<T>, n: nat, rv: seq<T>, at: seq<nat>) {
    && n <= |list1| && |at| == |rv|
    && (forall i :: 0 <= i < |rv| ==> at[i] < n && rv[i] == list1[at[i]])
    && (forall i, j :: 0 <= i < j < |at| ==> at[i] < at[j])
  }

  lemma InOrderStart<T>(list1: seq<T>)
    ensures InOrder(list1, 0, [], [])
  {
  }

  lemma InOrderNext<T>(list1: seq<T>, n: nat, rv: seq<T>, at: seq<nat>)
    requires n < |list1| && InOrder(list1, n, rv, at)
    ensures InOrder(list1, n + 1, rv, at) && InOrder(list1, n + 1, rv + [list1[n]], at + [n])
  {
  }

  /** `intersection`: the elements of the first list that the second has, without repeats, in order; at says where in the
      first list they are. */
  method Intersection<T(!new)>(list1: seq<T>, list2: seq<T>, equals: (T, T) -> bool) returns (rv: seq<T>, ghost at: seq<nat>)
    ensures InOrder(list1, |list1|, rv, at)
    ensures forall i :: 0 <= i < |rv| ==> rv[i] in list1 && Has(list2, rv[i], equals)
    ensures forall i, j :: 0 <= i < j < |rv| ==> !equals(rv[j], rv[i])
    ensures (forall x: T :: equals(x, x)) ==> forall a :: a in list1 && Has(list2, a, equals) ==> Has(rv, a, equals)
  {
    hide InOrder;
    rv, at := [], [];
    InOrderStart(list1);
    for i := 0 to |list1|
      invariant InOrder(list1, i, rv, at)
      invariant forall k :: 0 <= k < |rv| ==> rv[k] in list1 && Has(list2, rv[k], equals)
      invariant forall k, j :: 0 <= k < j < |rv| ==> !equals(rv[j], rv[k])
      invariant (forall x: T :: equals(x, x)) ==>
                  forall k :: 0 <= k < i && Has(list2, list1[k], equals) ==> Has(rv, list1[k], equals)
    {
      var a := list1[i];
      InOrderNext(list1, i, rv, at);
      var inSecond := Contains(list2, a, equals);
      var already := Contains(rv, a, equals);
      if inSecond && !already {
        HasMore(rv, a, equals);
        rv, at := rv + [a], at + [i];
      }
    }
  }

  lemma HasMore<T(!new)>(vals: seq<T>, a: T, equals: (T, T) -> bool)
    ensures forall x :: Has(vals, x, equals) ==> Has(vals + [a], x, equals)
    ensures equals(a, a) ==> Has(vals + [a], a, equals)
  {
    forall x | Has(vals, x, equals) ensures Has(vals + [a], x, equals) {
      var i :| 0 <= i < |vals| && equals(x, vals[i]);
      assert equals(x, (vals + [a])[i]);
    }
    assert (vals + [a])[|vals|] == a;
  }
}
