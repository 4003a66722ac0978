/** Python's `float(s)` and `int(s)` on decimal text, as partial functions:
    None stands for the `ValueError` Python raises. */
module PyNum {
  import opened Wrappers
  import opened PyStr

  predicate IsDigit(c: char)
  {
    '0' <= c <= '9'
  }

  predicate AllDigits(s: string)
  {
    forall i :: 0 <= i < |s| ==> IsDigit(s[i])
  }

  function DigitValue(c: char): nat
    requires IsDigit(c)
  {
    c as int - '0' as int
  }

  function DigitChar(d: nat): (c: char)
    requires d < 10
    ensures IsDigit(c) && DigitValue(c) == d
  {
    ('0' as int + d) as char
  }

  /** The value of a string of decimal digits, most significant first; the
      empty string counts 0. */
  function DigitsValue(ds: string): nat
    requires AllDigits(ds)
  {
    if ds == [] then 0 else DigitsValue(ds[..|ds| - 1]) * 10 + DigitValue(ds[|ds| - 1])
  }

  function Pow10(k: nat): (r: nat)
    ensures r >= 1
  {
    if k == 0 then 1 else 10 * Pow10(k - 1)
  }

  /** Python's `str(n)` for a natural number: its decimal digits without
      leading zeros. */
  function NatToString(n: nat): (r: string)
    ensures r != [] && AllDigits(r)
  {
    if n < 10 then [DigitChar(n)] else NatToString(n / 10) + [DigitChar(n % 10)]
  }

  /** Python's `str(n)` for an integer. */
  function IntToString(n: int): string
  {
    if n < 0 then "-" + NatToString(-n) else NatToString(n)
  }

  lemma {:induction false} NatToStringValue(n: nat)
    ensures DigitsValue(NatToString(n)) == n
  {
    if n >= 10 {
      NatToStringValue(n / 10);
      var s := NatToString(n);
      assert s[..|s| - 1] == NatToString(n / 10);
    }
  }

  /** The index of the first `c` in `s`, as Python's `s.find(c)`. */
  function IndexOf(s: string, c: char): (r: Option<nat>)
    ensures r.None? <==> c !in s
    ensures r.Some? ==> r.value < |s| && s[r.value] == c && c !in s[..r.value]
  {
    if s == [] then None
    else if s[0] == c then Some(0)
    else
      match IndexOf(s[1..], c)
      case None => None
      case Some(k) =>
        assert s[..k + 1] == [s[0]] + s[1..][..k];
        Some(k + 1)
  }

  /** The number written "<whole>.<fraction>" when the fraction's digits
      have the value `frac` and there are `digits` of them. */
  function FixedPoint(whole: nat, frac: nat, digits: nat): real
  {
    whole as real + frac as real / Pow10(digits) as real
  }

  /** `float(s)` on text without a sign: digits with at most one dot and at
      least one digit ("5", "5.", ".5", "22.50"). */
  function ParseUnsigned(s: string): Option<real>
  {
    match IndexOf(s, '.')
    case None =>
      if s != [] && AllDigits(s) then Some(DigitsValue(s) as real) else None
    case Some(k) =>
      var whole, frac := s[..k], s[k + 1..];
      if |whole| + |frac| >= 1 && AllDigits(whole) && AllDigits(frac) then
        Some(FixedPoint(DigitsValue(whole), DigitsValue(frac), |frac|))
      else None
  }

  /** What ParseUnsigned accepts is made of digits and dots, holds a digit,
      and its value is not negative. */
  lemma ParseUnsignedShape(s: string)
    requires ParseUnsigned(s).Some?
    ensures ParseUnsigned(s).value >= 0.0
    ensures exists i :: 0 <= i < |s| && IsDigit(s[i])
    ensures forall i :: 0 <= i < |s| ==> IsDigit(s[i]) || s[i] == '.'
  {
    match IndexOf(s, '.')
    case None =>
      assert IsDigit(s[0]);
    case Some(k) =>
      var whole, frac := s[..k], s[k + 1..];
      if |whole| >= 1 {
        assert IsDigit(whole[0]);
      } else {
        assert IsDigit(frac[0]) && frac[0] == s[k + 1];
      }
      assert forall i :: 0 <= i < k ==> s[i] == whole[i];
      assert forall i :: k < i < |s| ==> s[i] == frac[i - k - 1];
  }

  /** Python's `float(s)` for a stripped `s` in decimal notation: an optional
      `+` or `-`, then what ParseUnsigned accepts. */
  function ParseDecimal(s: string): Option<real>
  {
    var signed := s != [] && (s[0] == '-' || s[0] == '+');
    var body := if signed then s[1..] else s;
    match ParseUnsigned(body)
    case None => None
    case Some(v) => Some(if s[0] == '-' then -v else v)
  }

  /** What `float` accepts is made of digits, at most one dot and a leading
      sign, holds a digit, and is not negative without a `-`. */
  lemma ParseDecimalShape(s: string)
    requires ParseDecimal(s).Some?
    ensures exists i :: 0 <= i < |s| && IsDigit(s[i])
    ensures forall i :: 0 <= i < |s| ==>
      IsDigit(s[i]) || s[i] == '.' || (i == 0 && (s[i] == '+' || s[i] == '-'))
    ensures forall i, j :: 0 <= i < j < |s| && s[i] == '.' ==> s[j] != '.'
    ensures s[0] != '-' ==> ParseDecimal(s).value >= 0.0
  {
    forall i, j | 0 <= i < j < |s| && s[i] == '.'
      ensures s[j] != '.'
    {
      if s[j] == '.' {
        TwoDotsRejected(s, i, j);
      }
    }
    var signed := s != [] && (s[0] == '-' || s[0] == '+');
    var body := if signed then s[1..] else s;
    ParseUnsignedShape(body);
    var i :| 0 <= i < |body| && IsDigit(body[i]);
    assert forall i :: 0 <= i < |body| ==> body[i] == s[if signed then i + 1 else i];
    assert IsDigit(s[if signed then i + 1 else i]);
  }

  /** Without a leading sign, `float` reads what ParseUnsigned reads. */
  lemma ParseDecimalUnsigned(s: string)
    requires s != [] && IsDigit(s[0])
    ensures ParseDecimal(s) == ParseUnsigned(s)
  {
  }

  lemma UnsignedFixedPoint(w: string, frac: string)
    requires AllDigits(w) && AllDigits(frac) && |w| + |frac| >= 1
    ensures ParseUnsigned(w + "." + frac)
         == Some(FixedPoint(DigitsValue(w), DigitsValue(frac), |frac|))
  {
    var s := w + "." + frac;
    assert s[..|w|] == w && s[|w| + 1..] == frac;
    assert IndexOf(s, '.') == Some(|w|) by {
      assert '.' !in w && s[|w|] == '.';
    }
  }

  /** `float` reads "<whole>.<fraction>" as whole + fraction / 10^|fraction|,
      as in "22.50" == 22.5. */
  lemma ParseFixedPoint(n: nat, frac: string)
    requires AllDigits(frac)
    ensures ParseDecimal(NatToString(n) + "." + frac)
         == Some(FixedPoint(n, DigitsValue(frac), |frac|))
  {
    var w := NatToString(n);
    UnsignedFixedPoint(w, frac);
    NatToStringValue(n);
    assert (w + "." + frac)[0] == w[0];
    ParseDecimalUnsigned(w + "." + frac);
  }

  /** Text with two dots is not a number: `float("22.70.")` raises. */
  lemma TwoDotsRejected(s: string, i: nat, j: nat)
    requires i < j < |s| && s[i] == '.' && s[j] == '.'
    ensures ParseDecimal(s) == None
  {
  }

  lemma DigitIsNotSpace(c: char)
    requires IsDigit(c)
    ensures !IsSpace(c)
  {
  }

  /** The whitespace `int()` skips around its digits: what `str.strip()`
      removes except U+001C to U+001F. CPython leaves characters below U+007F
      as they are and then skips only C whitespace, which these are not. */
  predicate IsIntSpace(c: char)
  {
    IsSpace(c) && !('\U{1C}' <= c <= '\U{1F}')
  }

  function IntTrimStart(s: string): string
  {
    if s != [] && IsIntSpace(s[0]) then IntTrimStart(s[1..]) else s
  }

  function IntTrimEnd(s: string): string
  {
    if s != [] && IsIntSpace(s[|s| - 1]) then IntTrimEnd(s[..|s| - 1]) else s
  }

  /** Python's `int(s)` for base 10: surrounding whitespace is skipped, then
      an optional sign and at least one digit. */
  function ParseInt(s: string): Option<int>
  {
    ParseStrippedInt(IntTrimEnd(IntTrimStart(s)))
  }

  /** On text with no surrounding whitespace `int()` has nothing to skip. */
  lemma ParseIntOfStripped(t: string)
    requires IsStripped(t)
    ensures ParseInt(t) == ParseStrippedInt(t)
  {
  }

  function ParseStrippedInt(t: string): (r: Option<int>)
    ensures r.Some? ==> exists i :: 0 <= i < |t| && IsDigit(t[i])
  {
    var signed := t != [] && (t[0] == '-' || t[0] == '+');
    var ds := if signed then t[1..] else t;
    if ds != [] && AllDigits(ds) then
      assert IsDigit(t[if signed then 1 else 0]);
      Some(if signed && t[0] == '-' then -(DigitsValue(ds) as int) else DigitsValue(ds))
    else None
  }

  /** Digits have no surrounding whitespace, with or without a leading "-". */
  lemma DigitsStripped(d: string, neg: bool)
    requires d != [] && AllDigits(d)
    ensures var t := if neg then "-" + d else d; Strip(t) == t
  {
    var t := if neg then "-" + d else d;
    assert t[|t| - 1] == d[|d| - 1];
    DigitIsNotSpace(d[0]);
    DigitIsNotSpace(d[|d| - 1]);
    StripOfStripped(t);
  }

  /** `int` reads a string of digits as its value. */
  lemma ParseIntDigits(d: string)
    requires d != [] && AllDigits(d)
    ensures ParseInt(d) == Some(DigitsValue(d) as int)
  {
    DigitsStripped(d, false);
    ParseIntOfStripped(d);
    assert d[0] != '-' && d[0] != '+';
  }

  lemma ParseStrippedNegative(d: string)
    requires d != [] && AllDigits(d)
    ensures ParseStrippedInt("-" + d) == Some(-(DigitsValue(d) as int))
  {
    assert ("-" + d)[1..] == d;
  }

  /** `int` reads "-<digits>" as the negated value. */
  lemma ParseIntNegative(d: string)
    requires d != [] && AllDigits(d)
    ensures ParseInt("-" + d) == Some(-(DigitsValue(d) as int))
  {
    DigitsStripped(d, true);
    ParseIntOfStripped("-" + d);
    ParseStrippedNegative(d);
  }

  /** `int(str(n)) == n` for every integer n. */
  lemma ParseIntRoundTrip(n: int)
    ensures ParseInt(IntToString(n)) == Some(n)
  {
    var m: nat := if n < 0 then -n else n;
    var d := NatToString(m);
    NatToStringValue(m);
    if n < 0 {
      ParseIntNegative(d);
      assert IntToString(n) == "-" + d;
    } else {
      ParseIntDigits(d);
      assert IntToString(n) == d;
    }
  }
}
