/** Decimal text and integers: Python 2's int() on a string and str() on an
    integer, as the Integer and NumericString converters use them. */
module Numerals {
  import opened Wrappers

  predicate IsDigit(c: char) {
    '0' <= c <= '9'
  }

  predicate AllDigits(s: string) {
    forall i :: 0 <= i < |s| ==> IsDigit(s[i])
  }

  /** The characters int() strips from both ends (string.whitespace). */
  predicate IsSpace(c: char) {
    c == ' ' || c == '\t' || c == '\n' || c == '\r' || c == '\U{B}' || c == '\U{C}'
  }

  function Digit(d: nat): (c: char)
    requires d < 10
    ensures IsDigit(c) && DigitValue(c) == d
  {
    (('0' as int) + d) as char
  }

  function DigitValue(c: char): nat
    requires IsDigit(c)
  {
    (c as int) - ('0' as int)
  }

  /** The value of a run of decimal digits, most significant first. */
  function DigitsValue(s: string): nat
    requires AllDigits(s)
  {
    if |s| == 0 then 0 else DigitsValue(s[..|s| - 1]) * 10 + DigitValue(s[|s| - 1])
  }

  /** str(n) for n >= 0: no leading zeros. */
  function FormatNat(n: nat): (s: string)
    ensures |s| > 0 && AllDigits(s)
    ensures s[0] == '0' ==> n == 0
  {
    if n < 10 then [Digit(n)] else FormatNat(n / 10) + [Digit(n % 10)]
  }

  /** str(n) for any integer. */
  function FormatInt(n: int): string {
    if n < 0 then "-" + FormatNat(-n) else FormatNat(n)
  }

  /** s.lstrip() for int()'s whitespace. */
  function TrimLeft(s: string): string {
    if |s| > 0 && IsSpace(s[0]) then TrimLeft(s[1..]) else s
  }

  /** s.rstrip() for int()'s whitespace. */
  function TrimRight(s: string): string {
    if |s| > 0 && IsSpace(s[|s| - 1]) then TrimRight(s[..|s| - 1]) else s
  }

  /** int(s) on a string: surrounding whitespace, an optional sign, one or
      more decimal digits. None stands for the ValueError int() raises. */
  function ParseInt(s: string): Option<int> {
    ParseDecimal(TrimRight(TrimLeft(s)))
  }

  /** int() on text already stripped: an optional sign, then digits. */
  function ParseDecimal(t: string): Option<int> {
    if |t| > 1 && (t[0] == '-' || t[0] == '+') && AllDigits(t[1..]) then
      var magnitude: int := DigitsValue(t[1..]);
      Some(if t[0] == '-' then -magnitude else magnitude)
    else if |t| > 0 && AllDigits(t) then
      Some(DigitsValue(t))
    else
      None
  }

  lemma {:induction false} DigitsValueOfFormat(n: nat)
    ensures DigitsValue(FormatNat(n)) == n
  {
    if n >= 10 {
      var s := FormatNat(n);
      var p := FormatNat(n / 10);
      assert s == p + [Digit(n % 10)];
      assert s[..|s| - 1] == p;
      DigitsValueOfFormat(n / 10);
    }
  }

  /** Digits have no whitespace at either end to strip. */
  lemma TrimDigits(t: string)
    requires |t| > 0 && IsDigit(t[0]) && IsDigit(t[|t| - 1])
    ensures TrimRight(TrimLeft(t)) == t
  {
  }

  /** int() reads a run of digits as its value. */
  lemma ParseDigits(t: string, v: nat)
    requires |t| > 0 && AllDigits(t) && DigitsValue(t) == v
    ensures ParseInt(t) == Some(v)
  {
    TrimDigits(t);
    assert ParseDecimal(t) == Some(v) by { assert IsDigit(t[0]); }
  }

  /** int() reads a minus sign and a run of digits as the negated value. */
  lemma ParseNegated(d: string, v: nat)
    requires |d| > 0 && AllDigits(d) && DigitsValue(d) == v
    ensures ParseInt("-" + d) == Some(-(v as int))
  {
    var t := "-" + d;
    assert t[1..] == d && t[|t| - 1] == d[|d| - 1];
    assert TrimRight(TrimLeft(t)) == t by {
      assert TrimLeft(t) == t;
      assert IsDigit(d[|d| - 1]);
    }
    assert ParseDecimal(t) == Some(-(v as int));
  }

  /** int(str(n)) == n: the Integer converter round-trips. */
  lemma ParseFormat(n: int)
    ensures ParseInt(FormatInt(n)) == Some(n)
  {
    if n < 0 {
      DigitsValueOfFormat(-n);
      ParseNegated(FormatNat(-n), -n);
    } else {
      DigitsValueOfFormat(n);
      ParseDigits(FormatNat(n), n);
    }
  }

  /** str(int(s)) is canonical: parsing it again gives the same number. */
  lemma ParseIdempotent(s: string)
    requires ParseInt(s).Some?
    ensures ParseInt(FormatInt(ParseInt(s).value)) == ParseInt(s)
  {
    ParseFormat(ParseInt(s).value);
  }
}
