/**
 * The JavaScript number/text conversions the quiz relies on:
 *  - the `^\d*$` input filter,
 *  - template-literal rendering `${n}` of a non-negative integer,
 *  - `parseInt(s)` with no radix argument, with `NaN` as `None`.
 */
module Numerals {
  import opened Wrappers

  /** `\d` in a JavaScript regular expression: the ASCII digits only. */
  predicate IsDecimalDigit(c: char) {
    '0' <= c <= '9'
  }

  /** The input filter `/^\d*$/.test(s)`: every character is a digit (the empty string passes). */
  predicate DigitsOnly(s: string) {
    forall k :: 0 <= k < |s| ==> IsDecimalDigit(s[k])
  }

  function DigitChar(d: nat): (c: char)
    requires d < 10
    ensures IsDecimalDigit(c) && DigitValue(c) == d
  {
    "0123456789"[d]
  }

  /** `${n}` for a non-negative integer: its decimal numeral without leading zeros. */
  function NatToString(n: nat): (s: string)
    ensures |s| >= 1 && DigitsOnly(s)
    ensures |s| > 1 ==> s[0] != '0'
    decreases n
  {
    if n < 10 then [DigitChar(n)] else NatToString(n / 10) + [DigitChar(n % 10)]
  }

  /** `${k}` for any integer: a minus sign in front of the numeral of a negative number. */
  function IntToString(k: int): (s: string)
    ensures k >= 0 ==> s == NatToString(k)
    ensures k < 0 ==> |s| >= 2 && s[0] == '-' && DigitsOnly(s[1..])
  {
    if k < 0 then "-" + NatToString(-k) else NatToString(k)
  }

  /** White space and line terminators that `parseInt` skips before the number. */
  predicate IsStrWhiteSpace(c: char) {
    var n := c as int;
    n == 0x09 || n == 0x0A || n == 0x0B || n == 0x0C || n == 0x0D || n == 0x20 || n == 0xA0
    || n == 0x1680 || (0x2000 <= n <= 0x200A) || n == 0x2028 || n == 0x2029 || n == 0x202F
    || n == 0x205F || n == 0x3000 || n == 0xFEFF
  }

  function TrimStart(s: string): (t: string)
  {
    if |s| > 0 && IsStrWhiteSpace(s[0]) then TrimStart(s[1..]) else s
  }

  /** The value of a digit in radix 36 notation; 36 for a character that is no digit at all. */
  function DigitValue(c: char): (v: nat)
    ensures v <= 36
  {
    if '0' <= c <= '9' then c as int - '0' as int
    else if 'a' <= c <= 'z' then c as int - 'a' as int + 10
    else if 'A' <= c <= 'Z' then c as int - 'A' as int + 10
    else 36
  }

  predicate IsRadixDigit(c: char, radix: nat) {
    DigitValue(c) < radix
  }

  /** The length of the longest prefix of `s` made of digits of the radix. */
  function DigitRun(s: string, radix: nat): (n: nat)
    ensures n <= |s|
  {
    if |s| > 0 && IsRadixDigit(s[0], radix) then 1 + DigitRun(s[1..], radix) else 0
  }

  /** The number a string of digits denotes in the radix, most significant digit first. */
  function ValueIn(s: string, radix: nat): nat {
    if s == [] then 0 else ValueIn(s[..|s| - 1], radix) * radix + DigitValue(s[|s| - 1])
  }

  /**
   * `parseInt(s)` with the radix left out: skip leading white space, take an optional
   * sign, switch to radix 16 after a `0x`/`0X` prefix, then read the longest run of
   * digits. No digits at all gives `NaN` (here `None`); `-0` is the number 0.
   */
  function ParseInt(s: string): (r: Option<int>)
  {
    var t := TrimStart(s);
    var negative := |t| > 0 && t[0] == '-';
    var u := if |t| > 0 && (t[0] == '-' || t[0] == '+') then t[1..] else t;
    var hex := |u| >= 2 && u[0] == '0' && (u[1] == 'x' || u[1] == 'X');
    var radix := if hex then 16 else 10;
    var digits := if hex then u[2..] else u;
    var n := DigitRun(digits, radix);
    if n == 0 then None
    else
      var magnitude: int := ValueIn(digits[..n], radix);
      Some(if negative then -magnitude else magnitude)
  }

  lemma {:induction false} DigitRunOfDigits(s: string)
    requires DigitsOnly(s)
    ensures DigitRun(s, 10) == |s|
  {
    if |s| > 0 {
      assert DigitsOnly(s[1..]) by {
        forall k | 0 <= k < |s[1..]| ensures IsDecimalDigit(s[1..][k]) {
          assert s[1..][k] == s[k + 1];
        }
      }
      DigitRunOfDigits(s[1..]);
    }
  }

  /** A string that passes the input filter parses to the number it spells; the empty one to `NaN`. */
  lemma ParseDigits(s: string)
    requires DigitsOnly(s)
    ensures ParseInt(s) == if s == [] then None else Some(ValueIn(s, 10) as int)
  {
    if s != [] {
      assert !IsStrWhiteSpace(s[0]);
      assert TrimStart(s) == s;
      DigitRunOfDigits(s);
      assert s[..|s|] == s;
      if |s| >= 2 {
        assert IsDecimalDigit(s[1]);
      }
    }
  }

  /** Reading back the numeral `${n}` gives `n`. */
  lemma {:induction false} ValueOfNatToString(n: nat)
    ensures ValueIn(NatToString(n), 10) == n
    decreases n
  {
    var s := NatToString(n);
    if n >= 10 {
      var prefix := NatToString(n / 10);
      assert s == prefix + [DigitChar(n % 10)];
      assert s[..|s| - 1] == prefix;
      ValueOfNatToString(n / 10);
    } else {
      assert s[..|s| - 1] == [];
    }
  }

  /** A minus sign before a non-empty digit string gives the negated value. */
  lemma ParseNegated(body: string)
    requires DigitsOnly(body) && body != []
    ensures ParseInt("-" + body) == Some(-(ValueIn(body, 10) as int))
  {
    var s := "-" + body;
    assert s[1..] == body;
    assert TrimStart(s) == s;
    DigitRunOfDigits(body);
    assert body[..|body|] == body;
    if |body| >= 2 {
      assert IsDecimalDigit(body[1]);
    }
  }

  /** `parseInt(`${k}`) === k` for every integer k: rendering and parsing are inverse. */
  lemma ParseIntToString(k: int)
    ensures ParseInt(IntToString(k)) == Some(k)
  {
    if k >= 0 {
      ParseDigits(NatToString(k));
      ValueOfNatToString(k);
    } else {
      ParseNegated(NatToString(-k));
      ValueOfNatToString(-k);
    }
  }
}
