/** Reading a price token as a number: Python's `float()` restricted to
    plain decimal notation (optional sign, digits, at most one decimal
    point). Values are exact reals. */
module Decimal {
  import opened Wrappers

  predicate IsDigit(c: char) {
    '0' <= c <= '9'
  }

  predicate AllDigits(s: string) {
    forall k :: 0 <= k < |s| ==> IsDigit(s[k])
  }

  function DigitValue(c: char): nat
    requires IsDigit(c)
  {
    (c as int) - ('0' as int)
  }

  /** The base-ten value of a digit string; the empty string reads as 0. */
  function DigitsValue(ds: string): nat
    requires AllDigits(ds)
    decreases |ds|
  {
    if |ds| == 0 then 0
    else 10 * DigitsValue(ds[..|ds| - 1]) + DigitValue(ds[|ds| - 1])
  }

  function Pow10(k: nat): (p: nat)
    ensures p >= 1
  {
    if k == 0 then 1 else 10 * Pow10(k - 1)
  }

  /** Index of the first `c` in `s`, or `|s|` when there is none. */
  function IndexOf(s: string, c: char): (i: nat)
    ensures i <= |s|
    ensures i < |s| ==> s[i] == c
    ensures forall k :: 0 <= k < i ==> s[k] != c
    decreases |s|
  {
    if |s| == 0 then 0
    else if s[0] == c then 0
    else 1 + IndexOf(s[1..], c)
  }

  /** A character that may appear in a decimal literal. */
  predicate IsNumberChar(c: char) {
    IsDigit(c) || c == '.' || c == '+' || c == '-'
  }

  /** The characters of `s` around its first '.' at `d`. */
  lemma DotSplitShape(s: string, d: nat)
    requires d <= |s|
    requires AllDigits(s[..d])
    requires d < |s| ==> s[d] == '.' && AllDigits(s[d + 1..])
    ensures forall k :: 0 <= k < |s| ==> IsDigit(s[k]) || s[k] == '.'
  {
    forall k | 0 <= k < |s|
      ensures IsDigit(s[k]) || s[k] == '.'
    {
      if k < d {
        assert s[k] == s[..d][k];
      } else if k > d {
        assert s[k] == s[d + 1..][k - d - 1];
      }
    }
  }

  /** The value of a decimal literal with whole digits `whole` and fraction
      digits `fraction`. */
  function DecimalValue(whole: string, fraction: string): (v: real)
    requires AllDigits(whole) && AllDigits(fraction)
    ensures v >= 0.0
  {
    (DigitsValue(whole) as real) + (DigitsValue(fraction) as real) / (Pow10(|fraction|) as real)
  }

  /** Some character of `s` is a digit. */
  predicate HasDigit(s: string) {
    exists k :: 0 <= k < |s| && IsDigit(s[k])
  }

  /** At most one character of `s` is a point. */
  predicate AtMostOnePoint(s: string) {
    forall i, j :: 0 <= i < j < |s| ==> !(s[i] == '.' && s[j] == '.')
  }

  /** The shape of an unsigned decimal literal, stated on its characters:
      digits and points only, at most one point, at least one digit. */
  predicate IsUnsignedLiteral(s: string) {
    && (forall k :: 0 <= k < |s| ==> IsDigit(s[k]) || s[k] == '.')
    && AtMostOnePoint(s)
    && HasDigit(s)
  }

  /** The shape of a decimal literal: an optional '+' or '-', then an
      unsigned literal. */
  predicate IsLiteral(s: string) {
    if |s| > 0 && (s[0] == '+' || s[0] == '-') then IsUnsignedLiteral(s[1..])
    else IsUnsignedLiteral(s)
  }

  /** An unsigned decimal: digits, optionally one '.', then digits, with at
      least one digit in all ("5", "5.", ".5" and "5.25" are accepted, "."
      and "" are not). */
  function ParseUnsigned(s: string): (r: Option<real>)
    ensures r.Some? ==> r.value >= 0.0
    ensures r.Some? ==> forall k :: 0 <= k < |s| ==> IsDigit(s[k]) || s[k] == '.'
    ensures r.Some? ==> |s| >= 1
  {
    var d := IndexOf(s, '.');
    var whole := s[..d];
    var fraction := if d < |s| then s[d + 1..] else "";
    if AllDigits(whole) && AllDigits(fraction) && |whole| + |fraction| >= 1 then
      DotSplitShape(s, d);
      Some(DecimalValue(whole, fraction))
    else None
  }

  /** `float(s)` for a token in decimal notation, optionally signed. Any
      other character (a letter, a parenthesis, a second sign, a second
      '.') makes the parse fail, and so does a token with no digit. */
  function ParseNumber(s: string): (r: Option<real>)
    ensures r.Some? <==> IsLiteral(s)
    ensures r.Some? ==> forall k :: 0 <= k < |s| ==> IsNumberChar(s[k])
    ensures |s| == 0 ==> r.None?
  {
    if |s| > 0 && (s[0] == '+' || s[0] == '-') then
      var body := s[1..];
      ParseUnsignedAccepts(body);
      match ParseUnsigned(body)
      case None => None
      case Some(v) =>
        assert forall k :: 1 <= k < |s| ==> s[k] == body[k - 1];
        Some(if s[0] == '-' then -v else v)
    else
      ParseUnsignedAccepts(s);
      ParseUnsigned(s)
  }

  /** ParseUnsigned accepts exactly the unsigned literals. */
  lemma ParseUnsignedAccepts(s: string)
    ensures ParseUnsigned(s).Some? <==> IsUnsignedLiteral(s)
  {
    var d := IndexOf(s, '.');
    var whole := s[..d];
    var fraction := if d < |s| then s[d + 1..] else "";
    if ParseUnsigned(s).Some? {
      AcceptedIsLiteral(s, d);
    } else if IsUnsignedLiteral(s) {
      LiteralIsAccepted(s, d);
      assert false;
    }
  }

  /** The characters of an accepted token, read around its first point. */
  lemma AcceptedIsLiteral(s: string, d: nat)
    requires d == IndexOf(s, '.')
    requires AllDigits(s[..d])
    requires d < |s| ==> AllDigits(s[d + 1..])
    requires d + (if d < |s| then |s| - d - 1 else 0) >= 1
    ensures IsUnsignedLiteral(s)
  {
    DotSplitShape(s, d);
    forall k | d < k < |s|
      ensures IsDigit(s[k])
    {
      assert s[k] == s[d + 1..][k - d - 1];
    }
    if d > 0 {
      assert s[0] == s[..d][0];
    } else {
      assert s[d + 1] == s[d + 1..][0];
    }
  }

  /** A literal splits at its first point into digits and digits. */
  lemma LiteralIsAccepted(s: string, d: nat)
    requires d == IndexOf(s, '.')
    requires IsUnsignedLiteral(s)
    ensures AllDigits(s[..d])
    ensures d < |s| ==> AllDigits(s[d + 1..])
    ensures d + (if d < |s| then |s| - d - 1 else 0) >= 1
  {
    forall k | 0 <= k < d
      ensures IsDigit(s[..d][k])
    {
      assert s[..d][k] == s[k];
    }
    if d < |s| {
      forall k | d < k < |s|
        ensures IsDigit(s[k])
      {
        assert !(s[d] == '.' && s[k] == '.');
      }
      assert AllDigits(s[d + 1..]);
    }
    var k :| 0 <= k < |s| && IsDigit(s[k]);
    assert k != d || d == |s|;
  }

  /** The decimal rendering of a natural number, most significant digit first. */
  function Render(n: nat): (s: string)
    ensures |s| >= 1 && AllDigits(s)
  {
    if n < 10 then [(('0' as int) + n) as char]
    else Render(n / 10) + [(('0' as int) + n % 10) as char]
  }

  /** Reading back a rendered natural number gives the number. */
  lemma {:induction false} DigitsValueOfRender(n: nat)
    ensures DigitsValue(Render(n)) == n
  {
    var s := Render(n);
    if n >= 10 {
      DigitsValueOfRender(n / 10);
      assert s[..|s| - 1] == Render(n / 10);
    }
  }

  /** Parsing the rendering of a natural number yields that number, and
      with a leading '-' its negation. */
  lemma ParseRender(n: nat)
    ensures ParseNumber(Render(n)) == Some(n as real)
    ensures ParseNumber("-" + Render(n)) == Some(-(n as real))
  {
    DigitsValueOfRender(n);
    ParseWhole(Render(n));
  }

  /** A point right after a run of digits is the first point. */
  lemma DotAfterDigits(ds: string, rest: string)
    requires AllDigits(ds)
    ensures IndexOf(ds + "." + rest, '.') == |ds|
  {
    var s := ds + "." + rest;
    assert s[|ds|] == '.';
    assert forall k :: 0 <= k < |ds| ==> s[k] == ds[k];
  }

  /** A token without a leading sign reads as its unsigned value, with a
      leading '+' as the same value, and with a leading '-' as the negation
      of that. */
  lemma ParseSigns(s: string, v: real)
    requires ParseUnsigned(s) == Some(v)
    requires |s| >= 1 && s[0] != '+' && s[0] != '-'
    ensures ParseNumber(s) == Some(v)
    ensures ParseNumber("+" + s) == Some(v)
    ensures ParseNumber("-" + s) == Some(-v)
  {
    assert ("+" + s)[0] == '+' && ("+" + s)[1..] == s;
    assert ("-" + s)[0] == '-' && ("-" + s)[1..] == s;
  }

  /** Digits, a point and digits, unsigned. */
  lemma ParseUnsignedDecimal(ds: string, f: string)
    requires AllDigits(ds) && AllDigits(f) && |ds| + |f| >= 1
    ensures ParseUnsigned(ds + "." + f) == Some(DecimalValue(ds, f))
  {
    var s := ds + "." + f;
    DotAfterDigits(ds, f);
    var d := IndexOf(s, '.');
    assert s[..d] == ds;
    assert d < |s| && s[d + 1..] == f;
  }

  /** A token of digits, a point and digits reads as the whole part plus
      the fraction scaled by its number of digits ("45000.50" reads as
      45000 + 50/100), and with a leading '-' as the negation of that. */
  lemma ParseDecimal(ds: string, f: string)
    requires AllDigits(ds) && AllDigits(f) && |ds| + |f| >= 1
    ensures ParseNumber(ds + "." + f) == Some(DecimalValue(ds, f))
    ensures ParseNumber("-" + ds + "." + f) == Some(-DecimalValue(ds, f))
  {
    var v := DecimalValue(ds, f);
    ParseUnsignedDecimal(ds, f);
    var s := ds + "." + f;
    assert s[0] == (if |ds| > 0 then ds[0] else '.');
    ParseSigns(s, v);
    assert "-" + ds + "." + f == "-" + s;
  }

  /** Digits alone, unsigned. */
  lemma ParseUnsignedWhole(ds: string)
    requires AllDigits(ds) && |ds| >= 1
    ensures ParseUnsigned(ds) == Some(DecimalValue(ds, ""))
  {
    var d := IndexOf(ds, '.');
    assert d == |ds| by {
      assert forall k :: 0 <= k < |ds| ==> ds[k] != '.';
    }
    assert ds[..d] == ds;
  }

  /** Without fraction digits the value is the whole part's. */
  lemma DecimalValueWhole(ds: string)
    requires AllDigits(ds)
    ensures DecimalValue(ds, "") == DigitsValue(ds) as real
  {
    assert DigitsValue("") == 0 && Pow10(0) == 1;
    assert (0 as real) / (1 as real) == 0.0;
  }

  /** A token of digits alone reads as their value; ParseSigns adds a
      leading sign. */
  lemma ParseWhole(ds: string)
    requires AllDigits(ds) && |ds| >= 1
    ensures ParseNumber(ds) == Some(DigitsValue(ds) as real)
  {
    var v := DigitsValue(ds) as real;
    ParseUnsignedWhole(ds);
    DecimalValueWhole(ds);
    assert ds[0] != '+' && ds[0] != '-';
    ParseSigns(ds, v);
  }
}
