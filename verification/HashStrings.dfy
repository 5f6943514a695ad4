/** Amounts as text: thousands separators, and the conversion between nhash and hash, which is a billion nhash
    (`toHashString`, `addCommas`, `hashToNhash`). */
module HashStrings {

  const NANO_ZEROS := "000000000"

  // ---------- decimal numerals ----------

  predicate IsDigit(c: char) {
    '0' <= c <= '9'
  }

  ghost predicate AllDigits(s: string) {
    forall i :: 0 <= i < |s| ==> IsDigit(s[i])
  }

  function Digit(k: nat): (c: char)
    requires k < 10
    ensures IsDigit(c) && c as int == '0' as int + k
  {
    ('0' as int + k) as char
  }

  /** The decimal numeral of n, without leading zeros. */
  function Decimal(n: nat): (s: string)
    ensures |s| >= 1 && AllDigits(s)
  {
    if n < 10 then [Digit(n)] else Decimal(n / 10) + [Digit(n % 10)]
  }

  /** The number that a string of digits denotes. */
  ghost function Value(s: string): nat
    requires AllDigits(s)
  {
    if s == "" then 0 else Value(s[..|s|-1]) * 10 + (s[|s|-1] as int - '0' as int)
  }

  ghost function Pow10(n: nat): (r: nat)
    ensures r >= 1
  {
    if n == 0 then 1 else 10 * Pow10(n - 1)
  }

  lemma {:induction false} ValueOfDecimal(n: nat)
    ensures Value(Decimal(n)) == n
  {
    if n >= 10 {
      ValueOfDecimal(n / 10);
      assert Decimal(n)[..|Decimal(n)|-1] == Decimal(n / 10);
    } else {
      assert [Digit(n)][..0] == "";
      assert Value([Digit(n)]) == Value([Digit(n)][..0]) * 10 + n;
    }
  }

  lemma {:induction false} ValueConcat(s: string, t: string)
    requires AllDigits(s) && AllDigits(t)
    ensures AllDigits(s + t) && Value(s + t) == Value(s) * Pow10(|t|) + Value(t)
  {
    if t == "" {
      assert s + t == s;
    } else {
      var u := t[..|t|-1];
      ValueConcat(s, u);
      assert (s + t)[..|s + t|-1] == s + u;
      Shifted(Value(s), Pow10(|u|), Value(u));
    }
  }

  lemma Shifted(a: int, p: int, b: int)
    ensures (a * p + b) * 10 == a * (10 * p) + b * 10
  {
    assert a * p * 10 == a * (10 * p);
  }

  lemma {:induction false} ValueOfZeros(s: string)
    requires forall i :: 0 <= i < |s| ==> s[i] == '0'
    ensures AllDigits(s) && Value(s) == 0
  {
    if s != "" {
      ValueOfZeros(s[..|s|-1]);
    }
  }

  // ---------- thousands separators ----------

  /** The string in groups of three from the right, with commas between the groups. */
  ghost function Grouped(s: string): string {
    if |s| <= 3 then s else Grouped(s[..|s|-3]) + "," + s[|s|-3..]
  }

  /** The first i characters of a string of length n, with a comma before every position that is a multiple of
      three from the end. */
  ghost function Inserted(s: string, n: nat, i: nat): string
    requires i <= |s| <= n
  {
    if i == 0 then ""
    else Inserted(s, n, i - 1) + (if i - 1 > 0 && (n - (i - 1)) % 3 == 0 then "," else "") + [s[i-1]]
  }

  /** What `addCommas` returns: strings that are short or already have a comma or a point are left alone. */
  ghost function WithCommas(s: string): string {
    if |s| <= 3 || ',' in s || '.' in s then s else Grouped(s)
  }

  lemma {:induction false} InsertedPrefix(s: string, t: string, n: nat, i: nat)
    requires i <= |s| <= n && i <= |t| && t[..i] == s[..i] && |t| <= n - 3
    ensures Inserted(s, n, i) == Inserted(t, n - 3, i)
  {
    if i > 0 {
      assert s[..i][..i-1] == s[..i-1] && t[..i][..i-1] == t[..i-1];
      InsertedPrefix(s, t, n, i - 1);
      assert (n - (i - 1)) % 3 == (n - 3 - (i - 1)) % 3;
      assert s[i-1] == s[..i][i-1] == t[..i][i-1] == t[i-1];
    }
  }

  /** Inserting commas from the left gives the groups of three from the right. */
  lemma {:induction false} InsertedIsGrouped(s: string)
    ensures Inserted(s, |s|, |s|) == Grouped(s)
  {
    var n := |s|;
    if n <= 3 {
      ShortInserted(s, n);
      assert s[..n] == s;
    } else {
      var t := s[..n-3];
      InsertedIsGrouped(t);
      InsertedPrefix(s, t, n, n - 3);
      LastGroup(s);
    }
  }

  lemma InsertedNext(s: string, n: nat, i: nat)
    requires i < |s| <= n
    ensures i == 0 || (n - i) % 3 != 0 ==> Inserted(s, n, i + 1) == Inserted(s, n, i) + [s[i]]
    ensures i > 0 && (n - i) % 3 == 0 ==> Inserted(s, n, i + 1) == Inserted(s, n, i) + "," + [s[i]]
  {
    assert Inserted(s, n, i) + "" == Inserted(s, n, i);
  }

  lemma {:induction false} ShortInserted(s: string, i: nat)
    requires i <= |s| <= 3
    ensures Inserted(s, |s|, i) == s[..i]
  {
    if i > 0 {
      ShortInserted(s, i - 1);
      InsertedNext(s, |s|, i - 1);
    }
  }

  lemma LastGroup(s: string)
    requires |s| > 3
    ensures var n := |s|; Inserted(s, n, n) == Inserted(s, n, n - 3) + "," + s[n-3..]
  {
    hide Inserted;
    var n := |s|;
    var p := Inserted(s, n, n - 3);
    assert n - (n - 3) == 3 && n - (n - 2) == 2 && n - (n - 1) == 1;
    InsertedNext(s, n, n - 3);
    InsertedNext(s, n, n - 2);
    InsertedNext(s, n, n - 1);
    LastThree(s, p + ",");
  }

  lemma LastThree(s: string, p: string)
    requires |s| >= 3
    ensures var n := |s|; p + [s[n-3]] + [s[n-2]] + [s[n-1]] == p + s[n-3..]
  {
    var n := |s|;
    assert s[n-3..] == [s[n-3], s[n-2], s[n-1]];
  }

  /** `addCommas`. */
  method AddCommas(amt: string) returns (rv: string)
    ensures rv == WithCommas(amt)
  {
    if |amt| <= 3 || ',' in amt || '.' in amt {
      return amt;
    }
    var lenAmt := |amt|;
    rv := "";
    for i := 0 to lenAmt
      invariant rv == Inserted(amt, lenAmt, i)
    {
      if i > 0 && (lenAmt - i) % 3 == 0 {
        rv := rv + [','];
      }
      rv := rv + [amt[i]];
    }
    InsertedIsGrouped(amt);
  }

  ghost function WithoutCommas(s: string): string {
    if s == "" then ""
    else WithoutCommas(s[..|s|-1]) + if s[|s|-1] == ',' then "" else [s[|s|-1]]
  }

  lemma {:induction false} WithoutCommasConcat(s: string, t: string)
    ensures WithoutCommas(s + t) == WithoutCommas(s) + WithoutCommas(t)
  {
    if t == "" {
      assert s + t == s;
    } else {
      WithoutCommasConcat(s, t[..|t|-1]);
      assert (s + t)[..|s + t|-1] == s + t[..|t|-1];
    }
  }

  lemma {:induction false} NoCommasToRemove(s: string)
    requires ',' !in s
    ensures WithoutCommas(s) == s
  {
    if s != "" {
      assert s == s[..|s|-1] + [s[|s|-1]];
      NoCommasToRemove(s[..|s|-1]);
    }
  }

  lemma CommaRemoved()
    ensures WithoutCommas(",") == ""
  {
    assert ","[..0] == "";
  }

  lemma {:induction false} GroupedWithoutCommas(s: string)
    requires ',' !in s
    ensures WithoutCommas(Grouped(s)) == s
  {
    if |s| <= 3 {
      NoCommasToRemove(s);
    } else {
      var p, q := s[..|s|-3], s[|s|-3..];
      GroupedWithoutCommas(p);
      NoCommasToRemove(q);
      WithoutCommasConcat(Grouped(p), ",");
      WithoutCommasConcat(Grouped(p) + ",", q);
      CommaRemoved();
      assert p + "" + q == s;
    }
  }

  /** Removing the commas undoes adding them, whatever the string. */
  lemma CommasUndone(s: string)
    ensures WithoutCommas(WithCommas(s)) == WithoutCommas(s)
  {
    if !(|s| <= 3 || ',' in s || '.' in s) {
      GroupedWithoutCommas(s);
      NoCommasToRemove(s);
    }
  }

  /** Adding commas twice is adding them once. */
  lemma CommasIdempotent(s: string)
    ensures WithCommas(WithCommas(s)) == WithCommas(s)
  {
    if !(|s| <= 3 || ',' in s || '.' in s) {
      var p := Grouped(s[..|s|-3]);
      assert Grouped(s)[|p|] == ',';
    }
  }

  /** There is a comma for every three characters but the last ones. */
  lemma {:induction false} GroupedLength(s: string)
    requires s != ""
    ensures |Grouped(s)| == |s| + (|s| - 1) / 3
  {
    if |s| > 3 {
      GroupedLength(s[..|s|-3]);
    }
  }

  lemma CommasLength(s: string)
    requires s != "" && AllDigits(s)
    ensures |WithCommas(s)| == |s| + (|s| - 1) / 3
  {
    GroupedLength(s);
  }

  // ---------- hash and nhash ----------

  function Zeros(n: nat): string {
    seq(n, _ => '0')
  }

  // ---------- the form of the text ----------

  /** Counted from the end, every fourth character of grouped digits is a comma, and no other is. */
  lemma {:induction false} CommaPlaces(s: string, j: nat)
    requires AllDigits(s) && j < |Grouped(s)|
    ensures Grouped(s)[|Grouped(s)| - 1 - j] == ',' <==> j % 4 == 3
    ensures j % 4 != 3 ==> IsDigit(Grouped(s)[|Grouped(s)| - 1 - j])
  {
    if |s| > 3 {
      var g, rest := Grouped(s), s[..|s|-3];
      assert g == Grouped(rest) + "," + s[|s|-3..];
      if j >= 4 {
        CommaPlaces(rest, j - 4);
        assert g[|g| - 1 - j] == Grouped(rest)[|Grouped(rest)| - 1 - (j - 4)];
      }
    }
  }

  lemma {:induction false} DecimalLeads(n: nat)
    requires n > 0
    ensures Decimal(n)[0] != '0'
  {
    if n >= 10 {
      DecimalLeads(n / 10);
    }
  }

  /** The text ends in a point and nine digits; before the point, counted from it, every fourth character is a comma and all
      others are digits; and it starts with a zero only if that is all there is before the point. */
  ghost predicate WellPrinted(r: string) {
    && |r| >= 11
    && (forall i :: |r| - 9 <= i < |r| ==> IsDigit(r[i]))
    && r[|r| - 10] == '.'
    && (forall i :: 0 <= i < |r| - 10 ==> if (|r| - 11 - i) % 4 == 3 then r[i] == ',' else IsDigit(r[i]))
    && (r[0] == '0' ==> |r| == 11)
  }

  lemma {:induction false} GroupedLeads(s: string)
    requires s != ""
    ensures Grouped(s) != "" && Grouped(s)[0] == s[0]
  {
    if |s| > 3 {
      GroupedLeads(s[..|s|-3]);
    }
  }

  lemma HashStringForm(amt: nat)
    ensures WellPrinted(HashString(amt))
  {
    var whole, fraction := WholePart(amt), FractionPart(amt);
    PartsDenote(amt);
    DigitsHaveNoPoint(whole);
    var g := Grouped(whole);
    GroupedLeads(whole);
    assert WithCommas(whole) == g;
    var r := HashString(amt);
    assert r == g + "." + fraction;
    forall i | 0 <= i < |r| - 10 ensures if (|r| - 11 - i) % 4 == 3 then r[i] == ',' else IsDigit(r[i]) {
      CommaPlaces(whole, |g| - 1 - i);
      assert r[i] == g[i];
    }
    forall i | |r| - 9 <= i < |r| ensures IsDigit(r[i]) {
      assert r[i] == fraction[i - |g| - 1];
    }
    if |Decimal(amt)| > 9 {
      ManyDigits(amt);
      DecimalLeads(amt);
    }
  }

  lemma ManyDigits(n: nat)
    ensures |Decimal(n)| > 1 ==> n > 0
  {
  }

  /** `toHashString`. */
  method ToHashString(amt: nat) returns (r: string)
    ensures r == HashString(amt)
    ensures WellPrinted(r)
  {
    hide WellPrinted, Grouped;
    HashStringForm(amt);
    var amtStr := Decimal(amt);
    if |amtStr| < 9 {
      return "0." + Zeros(9 - |amtStr|) + amtStr;
    }
    if |amtStr| == 9 {
      return "0." + amtStr;
    }
    var whole := AddCommas(amtStr[..|amtStr|-9]);
    return whole + "." + amtStr[|amtStr|-9..];
  }

  /** The text of an amount in hash: a whole part, a point, and nine digits. */
  ghost function HashString(amt: nat): string {
    WithCommas(WholePart(amt)) + "." + FractionPart(amt)
  }

  ghost function WholePart(amt: nat): string {
    var s := Decimal(amt);
    if |s| <= 9 then "0" else s[..|s|-9]
  }

  ghost function FractionPart(amt: nat): string {
    var s := Decimal(amt);
    if |s| <= 9 then Zeros(9 - |s|) + s else s[|s|-9..]
  }

  datatype Conversion = Converted(nhash: string) | TooManyDigits

  /** The position of the first point, or the length if there is none. */
  function FirstPoint(s: string): (i: nat)
    ensures i <= |s| && '.' !in s[..i] && (i < |s| ==> s[i] == '.')
  {
    if s == "" then 0
    else if s[0] == '.' then 0
    else
      var i := FirstPoint(s[1..]);
      assert s[..i+1] == [s[0]] + s[1..][..i];
      i + 1
  }

  /** `hashToNhash`: the digits of the fraction are appended to the whole part, then zeros up to nine. */
  function HashToNhash(hashAmt: string): (r: Conversion)
    ensures r.TooManyDigits? <==> |hashAmt| - FirstPoint(hashAmt) > |NANO_ZEROS| + 1
  {
    var i := FirstPoint(hashAmt);
    if i == |hashAmt| then Converted(hashAmt + NANO_ZEROS)
    else
      var fraction := hashAmt[i+1..];
      if |fraction| > |NANO_ZEROS| then TooManyDigits
      else Converted(hashAmt[..i] + fraction + NANO_ZEROS[|fraction|..])
  }

  lemma FirstPointOf(whole: string, rest: string)
    requires '.' !in whole && (rest == "" || rest[0] == '.')
    ensures FirstPoint(whole + rest) == |whole|
  {
    var s := whole + rest;
    assert forall j :: 0 <= j < |whole| ==> s[j] == whole[j];
    assert rest != "" ==> s[|whole|] == '.';
  }

  lemma DigitsHaveNoPoint(s: string)
    requires AllDigits(s)
    ensures '.' !in s && ',' !in s
  {
  }

  /** A whole part and up to nine fraction digits denote that many billionths, exactly. */
  lemma HashToNhashDenotes(whole: string, fraction: string)
    requires AllDigits(whole) && AllDigits(fraction) && |fraction| <= 9
    ensures var r := HashToNhash(whole + "." + fraction);
      && r.Converted? && AllDigits(r.nhash)
      && Value(r.nhash) == Value(whole) * Pow10(9) + Value(fraction) * Pow10(9 - |fraction|)
  {
    DigitsHaveNoPoint(whole);
    var s := whole + "." + fraction;
    assert s == whole + ("." + fraction);
    FirstPointOf(whole, "." + fraction);
    assert s[..|whole|] == whole && s[|whole|+1..] == fraction;
    var zeros := NANO_ZEROS[|fraction|..];
    JoinedDenotes(whole, fraction, zeros);
  }

  lemma JoinedDenotes(whole: string, fraction: string, zeros: string)
    requires AllDigits(whole) && AllDigits(fraction)
    requires |fraction| + |zeros| == 9 && forall i :: 0 <= i < |zeros| ==> zeros[i] == '0'
    ensures AllDigits(whole + fraction + zeros)
    ensures Value(whole + fraction + zeros) == Value(whole) * Pow10(9) + Value(fraction) * Pow10(9 - |fraction|)
  {
    hide Value, Pow10;
    ValueOfZeros(zeros);
    ValueConcat(fraction, zeros);
    ValueConcat(whole, fraction + zeros);
    assert whole + fraction + zeros == whole + (fraction + zeros);
  }

  /** A whole number of hash denotes that many billions. */
  lemma WholeHashDenotes(whole: string)
    requires AllDigits(whole)
    ensures var r := HashToNhash(whole);
      r.Converted? && AllDigits(r.nhash) && Value(r.nhash) == Value(whole) * Pow10(9)
  {
    DigitsHaveNoPoint(whole);
    assert whole + "" == whole;
    FirstPointOf(whole, "");
    ValueOfZeros(NANO_ZEROS);
    ValueConcat(whole, NANO_ZEROS);
  }

  /** The parts printed are digits and denote the amount. */
  lemma PartsDenote(amt: nat)
    ensures AllDigits(WholePart(amt)) && AllDigits(FractionPart(amt)) && |FractionPart(amt)| == 9
    ensures Value(WholePart(amt)) * Pow10(9) + Value(FractionPart(amt)) == amt
  {
    hide Value, Pow10, Decimal;
    var s := Decimal(amt);
    ValueOfDecimal(amt);
    if |s| <= 9 {
      ValueOfZeros(Zeros(9 - |s|));
      ValueConcat(Zeros(9 - |s|), s);
      ValueOfZeros("0");
    } else {
      assert s[..|s|-9] + s[|s|-9..] == s;
      ValueConcat(s[..|s|-9], s[|s|-9..]);
    }
  }

  /** Round trip: the text of an amount, without its commas, converts back to exactly that amount. */
  lemma HashRoundTrip(amt: nat)
    ensures var r := HashToNhash(WithoutCommas(HashString(amt)));
      r.Converted? && AllDigits(r.nhash) && Value(r.nhash) == amt
  {
    var whole, fraction := WholePart(amt), FractionPart(amt);
    PartsDenote(amt);
    DigitsHaveNoPoint(whole);
    DigitsHaveNoPoint(fraction);
    CommasUndone(whole);
    NoCommasToRemove(whole);
    NoCommasToRemove(fraction);
    WithoutCommasConcat(WithCommas(whole), ".");
    WithoutCommasConcat(WithCommas(whole) + ".", fraction);
    NoCommasToRemove(".");
    assert WithoutCommas(HashString(amt)) == whole + "." + fraction;
    HashToNhashDenotes(whole, fraction);
    assert Pow10(0) == 1;
  }
}
