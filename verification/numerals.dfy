/** Decimal integers as text: Python's `int(text)`, used by the index step of
    dotted lookup, and `unicode(n)`, used when a variable renders an integer. */
module Numerals {
  import opened Results
  import opened Text

  predicate IsDigit(c: char) {
    '0' <= c <= '9'
  }

  predicate AllDigits(s: string) {
    forall i :: 0 <= i < |s| ==> IsDigit(s[i])
  }

  function DigitValue(c: char): (d: nat)
    requires IsDigit(c)
    ensures d < 10
  {
    (c as int) - ('0' as int)
  }

  function DigitChar(d: nat): (c: char)
    requires d < 10
    ensures IsDigit(c) && DigitValue(c) == d
  {
    (('0' as int) + d) as char
  }

  /** The value of a run of decimal digits, most significant first. */
  function DigitsValue(s: string): nat
    requires AllDigits(s)
  {
    if |s| == 0 then 0 else DigitsValue(s[..|s| - 1]) * 10 + DigitValue(s[|s| - 1])
  }

  /** The decimal digits of `n`, without leading zeros. */
  function NatToString(n: nat): (r: string)
    ensures |r| > 0 && AllDigits(r)
    ensures r[0] == '0' ==> n == 0 && |r| == 1
  {
    if n < 10 then [DigitChar(n)] else NatToString(n / 10) + [DigitChar(n % 10)]
  }

  /** `unicode(i)` for an integer: an optional minus sign and the digits. */
  function IntToString(i: int): (r: string)
    ensures |r| > 0
    ensures (r[0] == '-') == (i < 0) && r[0] != '+'
    ensures AllDigits(if i < 0 then r[1..] else r)
  {
    if i < 0 then "-" + NatToString(-i) else NatToString(i)
  }

  /** `int(s)` on base-10 text: surrounding whitespace, an optional sign,
      more whitespace, and at least one digit; anything else is the
      ValueError case. */
  function ParseInt(s: string): Option<int> {
    ParseSigned(Strip(s))
  }

  /** An optional sign followed by a digit run; whitespace between the sign
      and the digits is skipped, as C's `strtoul` skips it after `strtol`
      has read the sign. */
  function ParseSigned(t: string): Option<int> {
    if |t| > 0 && t[0] == '-' then
      match ParseNat(t[SkipSpace(t, 1)..])
      case Some(n) => Some(-(n as int))
      case None => None
    else if |t| > 0 && t[0] == '+' then
      match ParseNat(t[SkipSpace(t, 1)..])
      case Some(n) => Some(n as int)
      case None => None
    else
      match ParseNat(t)
      case Some(n) => Some(n as int)
      case None => None
  }

  /** A non-empty run of decimal digits. */
  function ParseNat(d: string): Option<nat> {
    if |d| > 0 && AllDigits(d) then Some(DigitsValue(d)) else None
  }

  lemma {:induction false} NatToStringValue(n: nat)
    ensures DigitsValue(NatToString(n)) == n
  {
    if n >= 10 {
      var s := NatToString(n);
      NatToStringValue(n / 10);
      assert s[..|s| - 1] == NatToString(n / 10);
    }
  }

  lemma ParseUnpadded(s: string)
    requires Strip(s) == s
    ensures ParseInt(s) == ParseSigned(s)
  {
  }

  lemma ParseSignedDigits(d: string)
    requires |d| > 0 && AllDigits(d)
    ensures ParseSigned(d) == Some(DigitsValue(d) as int)
    ensures ParseSigned("-" + d) == Some(-(DigitsValue(d) as int))
  {
    assert IsDigit(d[0]);
    var m := "-" + d;
    assert m[1] == d[0] && !IsSpace(m[1]);
    assert SkipSpace(m, 1) == 1;
    assert m[1..] == d;
  }

  /** Reading back the text written for an integer gives that integer. */
  lemma ParseIntToString(i: int)
    ensures ParseInt(IntToString(i)) == Some(i)
  {
    var n: nat := if i < 0 then -i else i;
    var d := NatToString(n);
    NatToStringValue(n);
    ParseSignedDigits(d);
    assert IsDigit(d[0]) && IsDigit(d[|d| - 1]);
    var s := IntToString(i);
    assert s[|s| - 1] == d[|d| - 1];
    StripUnchanged(s);
    ParseUnpadded(s);
  }

  /** `int()` takes a sign with spaces after it, a plus sign and leading
      zeros, and rejects a space inside the digits and a lone sign. */
  lemma ParseIntExamples()
    ensures ParseInt("- 12") == Some(-12)
    ensures ParseInt("+7") == Some(7)
    ensures ParseInt("007") == Some(7)
    ensures ParseInt("1 2") == None
    ensures ParseInt("-") == None
  {
    StripUnchanged("- 12");
    assert SkipSpace("- 12", 1) == 2;
    assert "- 12"[2..] == "12";
    assert DigitsValue("12") == 12 by {
      assert "12"[..1] == "1";
    }
    StripUnchanged("+7");
    assert "+7"[1..] == "7";
    StripUnchanged("007");
    assert DigitsValue("007") == 7 by {
      assert "007"[..2] == "00" && "00"[..1] == "0";
    }
    StripUnchanged("1 2");
    assert !IsDigit("1 2"[1]);
    StripUnchanged("-");
    assert SkipSpace("-", 1) == 1;
  }
}
