/**
 * Decimal text as the browser and Python produce and read it:
 * `Number.prototype.toString()` on integers, `parseInt(s, 10)`,
 * and `String.prototype.padStart`.
 */
module Text {
  import opened Wrappers

  predicate IsDigit(c: char) { '0' <= c <= '9' }

  predicate AllDigits(s: string) { forall i :: 0 <= i < |s| ==> IsDigit(s[i]) }

  function DigitChar(d: nat): (c: char)
    requires d < 10
    ensures IsDigit(c)
  {
    ('0' as int + d) as char
  }

  function DigitValue(c: char): (d: nat)
    requires IsDigit(c)
    ensures d < 10
  {
    c as int - '0' as int
  }

  /** The value of a string of decimal digits, most significant first. */
  function DigitsValue(s: string): nat
    requires AllDigits(s)
  {
    if s == [] then 0 else DigitsValue(s[..|s| - 1]) * 10 + DigitValue(s[|s| - 1])
  }

  /** Decimal digits of `n` with no leading zero, as `n.toString()` writes them. */
  function NatToString(n: nat): (s: string)
    ensures |s| >= 1 && AllDigits(s)
    ensures n < 10 ==> |s| == 1
    ensures 10 <= n < 100 ==> |s| == 2
    decreases n
  {
    if n < 10 then [DigitChar(n)] else NatToString(n / 10) + [DigitChar(n % 10)]
  }

  /** `n.toString()` for an integer `n`: a minus sign, then the digits of `|n|`. */
  function IntToString(n: int): (s: string)
    ensures |s| >= 1
    ensures s[0] == '-' <==> n < 0
    ensures n >= 0 ==> AllDigits(s) && DigitsValue(s) == n
    ensures n < 0 ==> AllDigits(s[1..]) && DigitsValue(s[1..]) == -n
  {
    NatToStringValue(if n < 0 then -n else n);
    if n < 0 then "-" + NatToString(-n) else NatToString(n)
  }

  lemma {:induction false} NatToStringValue(n: nat)
    ensures DigitsValue(NatToString(n)) == n
    decreases n
  {
    if n >= 10 {
      NatToStringValue(n / 10);
      var s := NatToString(n);
      assert s[..|s| - 1] == NatToString(n / 10);
    }
  }

  /** Leading zeros do not change the value of a digit string. */
  lemma {:induction false} LeadingZeroValue(s: string)
    requires AllDigits(s)
    ensures DigitsValue("0" + s) == DigitsValue(s)
    decreases |s|
  {
    if s != [] {
      var t := "0" + s;
      assert t[..|t| - 1] == "0" + s[..|s| - 1];
      LeadingZeroValue(s[..|s| - 1]);
    }
  }

  /** The characters `parseInt` skips before the number (ECMAScript's StrWhiteSpaceChar). */
  predicate IsJsSpace(c: char)
  {
    var k := c as int;
    k == 9 || k == 10 || k == 11 || k == 12 || k == 13 || k == 32 || k == 0xA0 || k == 0x1680
    || (0x2000 <= k <= 0x200A) || k == 0x2028 || k == 0x2029 || k == 0x202F || k == 0x205F
    || k == 0x3000 || k == 0xFEFF
  }

  function TrimStart(s: string): (r: string)
    ensures |r| <= |s| && r == s[|s| - |r|..]
    ensures r == [] || !IsJsSpace(r[0])
  {
    if s != [] && IsJsSpace(s[0]) then TrimStart(s[1..]) else s
  }

  /** How many characters at the front of `s` are decimal digits. */
  function LeadingDigits(s: string): (k: nat)
    ensures k <= |s| && AllDigits(s[..k])
    ensures k < |s| ==> !IsDigit(s[k])
  {
    if s != [] && IsDigit(s[0]) then 1 + LeadingDigits(s[1..]) else 0
  }

  /** The longest run of leading digits, or nothing when `s` does not start with a digit. */
  function ParseDigits(s: string): Option<nat>
  {
    var k := LeadingDigits(s);
    if k == 0 then None else Some(DigitsValue(s[..k]))
  }

  /**
   * `parseInt(s, 10)`: skip leading white space, read an optional sign, then the
   * longest run of digits; `None` stands for `NaN` (no digit after the sign).
   */
  function ParseInt(s: string): (r: Option<int>)
    ensures s != [] && AllDigits(s) ==> r == Some(DigitsValue(s))
    ensures TrimStart(s) == [] ==> r.None?
  {
    var t := TrimStart(s);
    assert s != [] && AllDigits(s) ==> t == s && ParseDigits(s) == Some(DigitsValue(s)) by {
      if s != [] && AllDigits(s) {
        NoSpaceNoTrim(s);
        LeadingDigitsOfDigits(s);
        assert s[..|s|] == s;
      }
    }
    var signed := t != [] && (t[0] == '-' || t[0] == '+');
    var digits := ParseDigits(if signed then t[1..] else t);
    if digits.None? then None
    else if signed && t[0] == '-' then Some(-(digits.value as int))
    else Some(digits.value)
  }

  lemma {:induction false} LeadingDigitsOfDigits(s: string)
    requires AllDigits(s)
    ensures LeadingDigits(s) == |s|
    decreases |s|
  {
    if s != [] {
      LeadingDigitsOfDigits(s[1..]);
    }
  }

  lemma ParseDigitsOfNat(n: nat)
    ensures ParseDigits(NatToString(n)) == Some(n)
  {
    var d := NatToString(n);
    LeadingDigitsOfDigits(d);
    NatToStringValue(n);
    assert d[..|d|] == d;
  }

  lemma NoSpaceNoTrim(s: string)
    requires s != [] && !IsJsSpace(s[0])
    ensures TrimStart(s) == s
  {
  }

  lemma ParseIntOfNegative(d: string, n: nat)
    requires ParseDigits(d) == Some(n)
    ensures ParseInt("-" + d) == Some(-(n as int))
  {
    var s := "-" + d;
    NoSpaceNoTrim(s);
    assert !IsDigit(s[0]);
    assert s[1..] == d;
  }

  lemma ParseIntOfNatural(n: nat)
    ensures ParseInt(NatToString(n)) == Some(n)
  {
    NatToStringValue(n);
  }

  /** `parseInt` reads back exactly the integer that `toString` wrote. */
  lemma ParseIntOfIntToString(n: int)
    ensures ParseInt(IntToString(n)) == Some(n)
  {
    if n < 0 {
      ParseDigitsOfNat(-n);
      ParseIntOfNegative(NatToString(-n), -n);
    } else {
      ParseIntOfNatural(n);
    }
  }

  /** `s.padStart(width, fill)` for a one-character filler. */
  function PadStart(s: string, width: nat, fill: char): (r: string)
    ensures |r| == if |s| >= width then |s| else width
    ensures r[|r| - |s|..] == s
    ensures forall i :: 0 <= i < |r| - |s| ==> r[i] == fill
  {
    if |s| >= width then s else seq(width - |s|, _ => fill) + s
  }

  /** Padding digits with zeros keeps their value. */
  lemma {:induction false} ZeroPadValue(s: string, width: nat)
    requires AllDigits(s)
    ensures AllDigits(PadStart(s, width, '0'))
    ensures DigitsValue(PadStart(s, width, '0')) == DigitsValue(s)
    decreases width
  {
    if |s| < width {
      var r' := PadStart(s, width - 1, '0');
      PadStartStep(s, width, '0');
      ZeroPadValue(s, width - 1);
      LeadingZeroValue(r');
    }
  }

  /** Padding to one more character puts one more fill character in front. */
  lemma PadStartStep(s: string, width: nat, fill: char)
    requires |s| < width
    ensures PadStart(s, width, fill) == [fill] + PadStart(s, width - 1, fill)
  {
    var n := width - |s|;
    var pad, pad' := seq(n, _ => fill), seq(n - 1, _ => fill);
    assert forall i :: 0 <= i < n ==> pad[i] == ([fill] + pad')[i];
    assert pad == [fill] + pad';
  }
}
