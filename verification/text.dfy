/** The string conversions the application performs on numbers: template-literal
    printing of integers, `parseInt`, `Number.prototype.toFixed`, and
    `String.prototype.replace` / `split` with a single-character pattern.
 */
module Text {
  import opened Numeric

  predicate IsDigit(c: char) {
    '0' <= c <= '9'
  }

  predicate AllDigits(s: string) {
    forall i :: 0 <= i < |s| ==> IsDigit(s[i])
  }

  function DigitChar(d: nat): (c: char)
    requires d < 10
    ensures IsDigit(c)
  {
    ['0', '1', '2', '3', '4', '5', '6', '7', '8', '9'][d]
  }

  function DigitValue(c: char): (d: nat)
    requires IsDigit(c)
    ensures d < 10
  {
    (c as int - '0' as int) as nat
  }

  lemma DigitRoundTrip(d: nat)
    requires d < 10
    ensures DigitValue(DigitChar(d)) == d
  {
  }

  /** The value of a string of decimal digits, read left to right. */
  function DigitsValue(s: string): (n: nat)
    requires AllDigits(s)
  {
    if |s| == 0 then 0 else DigitsValue(s[..|s| - 1]) * 10 + DigitValue(s[|s| - 1])
  }

  /** Decimal printing of a natural number, as a template literal writes it. */
  function NatToString(n: nat): (s: string)
    ensures |s| >= 1 && AllDigits(s)
    ensures |s| > 1 ==> s[0] != '0'
    decreases n
  {
    if n < 10 then [DigitChar(n)] else NatToString(n / 10) + [DigitChar(n % 10)]
  }

  /** Printing then reading the digits gives the number back. */
  lemma {:induction false} NatToStringRoundTrip(n: nat)
    ensures DigitsValue(NatToString(n)) == n
    decreases n
  {
    var s := NatToString(n);
    if n < 10 {
      DigitRoundTrip(n);
    } else {
      NatToStringRoundTrip(n / 10);
      assert s[..|s| - 1] == NatToString(n / 10);
      DigitRoundTrip(n % 10);
    }
  }

  /** Printing is injective: different numbers print differently. */
  lemma NatToStringInjective(m: nat, n: nat)
    ensures NatToString(m) == NatToString(n) ==> m == n
  {
    NatToStringRoundTrip(m);
    NatToStringRoundTrip(n);
  }

  /** Digits needed for numbers below 10^d. */
  lemma {:induction false} NatToStringShort(n: nat, d: nat)
    requires 1 <= d && n < Pow10(d)
    ensures |NatToString(n)| <= d
    decreases d
  {
    assert Pow10(1) == 10;
    if n >= 10 {
      assert n / 10 < Pow10(d - 1);
      NatToStringShort(n / 10, d - 1);
    }
  }

  /** A template literal of an integer: a minus sign before negative values. */
  function IntToString(i: int): (s: string)
    ensures i >= 0 ==> s == NatToString(i)
    ensures i < 0 ==> s == "-" + NatToString(-i)
  {
    if i < 0 then "-" + NatToString(-i) else NatToString(i)
  }

  /** The longest prefix of `s` made of digits. */
  function LeadingDigits(s: string): (p: string)
    ensures AllDigits(p) && p <= s
    ensures |p| < |s| ==> !IsDigit(s[|p|])
  {
    if |s| == 0 || !IsDigit(s[0]) then "" else [s[0]] + LeadingDigits(s[1..])
  }

  /** `parseInt(s)` in base ten: an optional sign followed by at least one digit;
      `None` stands for NaN. */
  function ParseInt(s: string): (r: Option<int>)
    ensures r.None? <==> |LeadingDigits(if |s| > 0 && (s[0] == '-' || s[0] == '+') then s[1..] else s)| == 0
  {
    var neg := |s| > 0 && s[0] == '-';
    var body := if |s| > 0 && (s[0] == '-' || s[0] == '+') then s[1..] else s;
    var ds := LeadingDigits(body);
    if |ds| == 0 then None
    else if neg then Some(-(DigitsValue(ds) as int))
    else Some(DigitsValue(ds))
  }

  lemma LeadingDigitsOfDigits(s: string)
    requires AllDigits(s)
    ensures LeadingDigits(s) == s
  {
    if |s| > 0 {
      LeadingDigitsOfDigits(s[1..]);
    }
  }

  /** `parseInt` reads an unsigned run of digits as its value. */
  lemma ParseDigits(s: string)
    requires |s| >= 1 && AllDigits(s)
    ensures ParseInt(s) == Some(DigitsValue(s))
  {
    assert s[0] != '-' && s[0] != '+' by {
      assert IsDigit(s[0]);
    }
    LeadingDigitsOfDigits(s);
  }

  /** `parseInt` reads a minus sign and a run of digits as the negated value. */
  lemma ParseNegatedDigits(t: string)
    requires |t| >= 2 && t[0] == '-' && AllDigits(t[1..])
    ensures ParseInt(t) == Some(-(DigitsValue(t[1..]) as int))
  {
    LeadingDigitsOfDigits(t[1..]);
  }

  /** `parseInt` reads back what a template literal printed. */
  lemma ParseIntRoundTrip(i: int)
    ensures ParseInt(IntToString(i)) == Some(i)
  {
    if i < 0 {
      var m: nat := -i;
      var digits := NatToString(m);
      var t := IntToString(i);
      assert t == "-" + digits;
      assert t[1..] == digits;
      ParseNegatedDigits(t);
      NatToStringRoundTrip(m);
    } else {
      ParseDigits(NatToString(i));
      NatToStringRoundTrip(i);
    }
  }

  /** `s.split(sep)[0]`: everything before the first occurrence of `sep`. */
  function BeforeFirst(s: string, sep: char): (p: string)
    ensures p <= s && sep !in p
    ensures |p| < |s| ==> s[|p|] == sep
  {
    if |s| == 0 || s[0] == sep then "" else [s[0]] + BeforeFirst(s[1..], sep)
  }

  /** Splitting a joined string at the separator recovers the first part. */
  lemma BeforeFirstJoin(a: string, sep: char, b: string)
    requires sep !in a
    ensures BeforeFirst(a + [sep] + b, sep) == a
  {
    if |a| > 0 {
      assert (a + [sep] + b)[1..] == a[1..] + [sep] + b;
      BeforeFirstJoin(a[1..], sep, b);
    }
  }

  /** The position of the first occurrence of `a` in `s`. */
  function FirstIndex(s: string, a: char): (i: nat)
    requires a in s
    ensures i < |s| && s[i] == a && a !in s[..i]
  {
    if s[0] == a then 0
    else
      var j := FirstIndex(s[1..], a);
      assert s[..j + 1] == [s[0]] + s[1..][..j];
      j + 1
  }

  /** `s.replace(a, b)` with a one-character pattern: only the first occurrence
      changes. */
  function ReplaceFirst(s: string, a: char, b: char): (r: string)
    ensures |r| == |s|
    ensures a !in s ==> r == s
    ensures a in s ==> r[FirstIndex(s, a)] == b
    ensures a in s ==> forall j :: 0 <= j < |s| && j != FirstIndex(s, a) ==> r[j] == s[j]
  {
    if |s| == 0 then s
    else if s[0] == a then [b] + s[1..]
    else
      assert a in s ==> a in s[1..];
      [s[0]] + ReplaceFirst(s[1..], a, b)
  }

  function Pow10(d: nat): (p: nat)
    ensures p >= 1
  {
    if d == 0 then 1 else 10 * Pow10(d - 1)
  }

  /** `s` left-padded with zeros to length `d`. */
  function PadZeros(s: string, d: nat): (r: string)
    ensures |r| == if |s| < d then d else |s|
    ensures AllDigits(s) ==> AllDigits(r)
  {
    if |s| < d then seq(d - |s|, _ => '0') + s else s
  }

  /** The digits `toFixed(d)` writes for the non-negative integer n / 10^d: the
      integer part, then for d > 0 a point and exactly d digits. */
  function FixedDigits(n: nat, d: nat): (s: string)
    ensures d == 0 ==> AllDigits(s)
    ensures d > 0 ==> DecimalShape(s, d)
  {
    if d == 0 then NatToString(n)
    else
      var (q, r) := SplitDecimal(n, d);
      NatToStringShort(r, d);
      var frac := PadZeros(NatToString(r), d);
      JoinShape(NatToString(q), frac);
      NatToString(q) + "." + frac
  }

  /** The integer part and the d-digit fraction of n / 10^d. */
  function SplitDecimal(n: nat, d: nat): (qr: (nat, nat))
    ensures qr.1 < Pow10(d)
    ensures qr.0 * Pow10(d) + qr.1 == n
  {
    var p := Pow10(d);
    DivMod(n, p);
    (n / p, n % p)
  }

  lemma DivMod(n: nat, p: nat)
    requires p >= 1
    ensures 0 <= n / p && 0 <= n % p < p && n / p * p + n % p == n
  {
  }

  /** Digits, one point, then exactly d digits. */
  predicate DecimalShape(s: string, d: nat) {
    && |s| >= d + 2
    && s[|s| - d - 1] == '.'
    && AllDigits(s[..|s| - d - 1])
    && AllDigits(s[|s| - d..])
  }

  lemma JoinShape(a: string, f: string)
    requires |a| >= 1 && AllDigits(a) && AllDigits(f)
    ensures DecimalShape(a + "." + f, |f|)
  {
    var s := a + "." + f;
    assert s[..|a|] == a;
    assert s[|a| + 1..] == f;
  }

  /** `x.toFixed(d)` for an exact real x: a minus sign when x < 0, then |x|
      rounded to d decimals with halves away from zero. */
  function ToFixed(x: real, d: nat): (s: string)
    ensures d > 0 ==> |s| >= d + 2 && s[|s| - d - 1] == '.'
    ensures d > 0 ==> forall i :: 0 <= i < |s| && i != |s| - d - 1 ==> s[i] != '.'
  {
    var n := RoundHalfAway(Abs(x) * Pow10(d) as real);
    var sign := if x < 0.0 then "-" else "";
    if d > 0 then SignedShapeOnePoint(sign, FixedDigits(n, d), d); sign + FixedDigits(n, d)
    else sign + FixedDigits(n, d)
  }

  /** With no decimals, a non-negative number prints as its rounded value. */
  lemma ToFixedWhole(x: real)
    requires x >= 0.0
    ensures ToFixed(x, 0) == NatToString(RoundHalfAway(x))
  {
    assert Pow10(0) == 1;
    assert x * Pow10(0) as real == x;
  }

  /** A sign, digits, a point, then d digits: the only point is the one d
      places from the end. */
  lemma SignedShapeOnePoint(sign: string, digits: string, d: nat)
    requires '.' !in sign && DecimalShape(digits, d)
    ensures var s := sign + digits;
      && |s| >= d + 2 && s[|s| - d - 1] == '.'
      && forall i :: 0 <= i < |s| && i != |s| - d - 1 ==> s[i] != '.'
  {
    var s := sign + digits;
    forall i | 0 <= i < |s| && i != |s| - d - 1
      ensures s[i] != '.'
    {
      if i < |sign| {
        assert s[i] == sign[i];
      } else if i < |s| - d - 1 {
        assert s[i] == digits[..|digits| - d - 1][i - |sign|];
      } else {
        assert s[i] == digits[|digits| - d..][i - |sign| - (|digits| - d)];
      }
    }
  }
}
