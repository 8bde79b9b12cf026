/** Decimal numbers as text: `String(n)` / `"\(n)"`, the `%02d` format and
    Swift's `Int(String)` parser. */
module Decimal {
  import opened Wrappers

  // ---------------------------------------------------------------- digits

  predicate IsDigit(c: char) { '0' <= c <= '9' }

  predicate AllDigits(s: string) { forall i :: 0 <= i < |s| ==> IsDigit(s[i]) }

  function DigitChar(d: nat): (c: char)
    requires d < 10
    ensures IsDigit(c) && DigitValue(c) == d
  {
    (48 + d) as char
  }

  function DigitValue(c: char): (d: nat)
    requires IsDigit(c)
    ensures d < 10
  {
    c as int - '0' as int
  }

  /** The number a string of decimal digits denotes (most significant first). */
  function DigitsValue(s: string): (r: nat)
    requires AllDigits(s)
  {
    if |s| == 0 then 0 else 10 * DigitsValue(s[..|s| - 1]) + DigitValue(s[|s| - 1])
  }

  /** `String(n)` for a non-negative `n`: the shortest decimal rendering. */
  function NatToString(n: nat): (s: string)
    ensures |s| >= 1 && AllDigits(s)
    ensures DigitsValue(s) == n
    ensures s[0] == '0' ==> n == 0
  {
    if n < 10 then [DigitChar(n)]
    else
      var prefix := NatToString(n / 10);
      var s := prefix + [DigitChar(n % 10)];
      assert s[..|s| - 1] == prefix;
      s
  }

  /** `String(i)` / `"\(i)"` for any integer: a minus sign, then the digits. */
  function IntToString(i: int): (r: string)
  {
    if i < 0 then "-" + NatToString(-i) else NatToString(i)
  }

  /** A decimal holds only digits and a leading minus sign. */
  lemma IntToStringAlphabet(i: int)
    ensures forall k :: 0 <= k < |IntToString(i)| ==> IsDigit(IntToString(i)[k]) || IntToString(i)[k] == '-'
  {
    if i < 0 {
      var t := NatToString(-i);
      forall k | 1 <= k < |IntToString(i)| ensures IsDigit(IntToString(i)[k]) {
        assert IntToString(i)[k] == t[k - 1];
      }
    }
  }

  /** `String(format: "%02d", n)` for a non-negative `n`: at least two digits,
      zero-padded on the left. */
  function Pad2(n: nat): (s: string)
    ensures AllDigits(s) && DigitsValue(s) == n
    ensures n < 100 ==> |s| == 2 && s == [DigitChar(n / 10), DigitChar(n % 10)]
    ensures n >= 100 ==> s == NatToString(n)
  {
    if n < 10 then
      var s := "0" + NatToString(n);
      assert s[..1] == "0";
      s
    else
      var s := NatToString(n);
      assert n < 100 ==> s[..1] == NatToString(n / 10);
      s
  }

  lemma {:induction false} NatToStringInjective(a: nat, b: nat)
    requires NatToString(a) == NatToString(b)
    ensures a == b
  {
  }

  /** Different integers never share a decimal rendering. */
  lemma IntToStringInjective(a: int, b: int)
    requires IntToString(a) == IntToString(b)
    ensures a == b
  {
    var s := IntToString(a);
    assert (s[0] == '-') == (a < 0);
    assert (IntToString(b)[0] == '-') == (b < 0);
    if a < 0 {
      assert NatToString(-a) == s[1..] == NatToString(-b);
      NatToStringInjective(-a, -b);
    } else {
      NatToStringInjective(a, b);
    }
  }

  /** Different numbers never share a `%02d` rendering. */
  lemma Pad2Injective(a: nat, b: nat)
    requires Pad2(a) == Pad2(b)
    ensures a == b
  {
  }

  // ------------------------------------------------------- Int(String) parse

  const Int64Min: int := -0x8000_0000_0000_0000
  const Int64Max: int := 0x7FFF_FFFF_FFFF_FFFF

  predicate IsInt64(i: int) { Int64Min <= i <= Int64Max }

  /** Swift's `Int(_: String)`: an optional `+` or `-`, then one or more
      decimal digits and nothing else; `nil` for anything else, and for a
      value outside the 64-bit range. Leading zeros are accepted. */
  function ParseInt(s: string): (r: Option<int>)
    ensures r.Some? ==> IsInt64(r.value)
  {
    if |s| == 0 then None
    else
      var digits := if s[0] == '-' || s[0] == '+' then s[1..] else s;
      if |digits| == 0 || !AllDigits(digits) then None
      else
        var v: int := if s[0] == '-' then 0 - DigitsValue(digits) else DigitsValue(digits);
        if IsInt64(v) then Some(v) else None
  }

  /** `Int(String(i)) == i`: the decimal rendering of a 64-bit integer parses
      back to it. */
  lemma ParseIntToString(i: int)
    requires IsInt64(i)
    ensures ParseInt(IntToString(i)) == Some(i)
  {
    var s := IntToString(i);
    if i < 0 {
      assert s[1..] == NatToString(-i);
    } else {
      assert !IsDigit('-') && !IsDigit('+');
      assert s[0] != '-' && s[0] != '+';
    }
  }

  /** A non-empty run of digits parses to the number it denotes, leading
      zeros included (`Int("07") == 7`, `Int("00") == 0`). */
  lemma ParseDigits(s: string)
    requires |s| >= 1 && AllDigits(s) && DigitsValue(s) <= Int64Max
    ensures ParseInt(s) == Some(DigitsValue(s))
  {
    assert IsDigit(s[0]);
  }

  /** A `%02d` rendering parses back to its value. */
  lemma ParsePad2(n: nat)
    requires n <= Int64Max
    ensures ParseInt(Pad2(n)) == Some(n)
  {
    if n < 10 {
      var s := Pad2(n);
      assert |s| == 2;
    } else {
      assert Pad2(n) == NatToString(n);
    }
    ParseDigits(Pad2(n));
  }
}
