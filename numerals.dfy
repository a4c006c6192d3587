/**
 * Decimal rendering of integers, as JavaScript prints a whole number: the
 * digits of `i + 1` in the fallback label "Category {i+1}", and
 * `Number.prototype.toFixed` in the bar annotations and hover text.
 *
 * The values of the model are integers, so `x.toFixed(d)` is exactly the
 * decimal digits of `x` (with a leading '-' when negative), a point and `d`
 * zeros.
 */
module Numerals {

  predicate IsDigit(c: char) {
    '0' <= c <= '9'
  }

  predicate AllDigits(s: string) {
    forall i :: 0 <= i < |s| ==> IsDigit(s[i])
  }

  function DigitChar(d: nat): (c: char)
    requires d < 10
    ensures IsDigit(c) && c as int - '0' as int == d
  {
    ('0' as int + d) as char
  }

  function DigitValue(c: char): nat
    requires IsDigit(c)
  {
    c as int - '0' as int
  }

  /** The shortest decimal numeral of `n`: no sign and no leading zero. */
  function NatToString(n: nat): (s: string)
    ensures |s| >= 1 && AllDigits(s)
    ensures (|s| > 1 ==> s[0] != '0')
    decreases n
  {
    if n < 10 then [DigitChar(n)] else NatToString(n / 10) + [DigitChar(n % 10)]
  }

  /** The value of a string of decimal digits, read most significant first. */
  function ParseDigits(s: string): nat
    requires AllDigits(s)
  {
    if s == [] then 0 else ParseDigits(s[..|s| - 1]) * 10 + DigitValue(s[|s| - 1])
  }

  /** Reading back a numeral gives the number it was printed from. */
  lemma {:induction false} ParseNatToString(n: nat)
    ensures ParseDigits(NatToString(n)) == n
    decreases n
  {
    var s := NatToString(n);
    if n >= 10 {
      ParseNatToString(n / 10);
      assert s[..|s| - 1] == NatToString(n / 10);
    }
  }

  /** Different numbers print differently (so "Category {i+1}" differs per row). */
  lemma NatToStringInjective(m: nat, n: nat)
    ensures NatToString(m) == NatToString(n) <==> m == n
  {
    if NatToString(m) == NatToString(n) {
      ParseNatToString(m);
      ParseNatToString(n);
    }
  }

  /** A whole number as JavaScript prints it: a '-' before negative values only. */
  function IntToString(x: int): (s: string)
    ensures |s| >= 1 && s[0] != '+'
    ensures s[0] == '-' <==> x < 0
  {
    if x < 0 then "-" + NatToString(-x) else NatToString(x)
  }

  lemma IntToStringInjective(x: int, y: int)
    ensures IntToString(x) == IntToString(y) <==> x == y
  {
    if IntToString(x) == IntToString(y) {
      if x < 0 {
        assert IntToString(x)[1..] == NatToString(-x);
        assert IntToString(y)[1..] == NatToString(-y);
        NatToStringInjective(-x, -y);
      } else {
        NatToStringInjective(x, y);
      }
    }
  }

  function Zeros(n: nat): (s: string)
    ensures |s| == n
  {
    seq(n, _ => '0')
  }

  /** `x.toFixed(digits)` for a whole number `x` below 1e21. */
  function ToFixed(x: int, digits: nat): (s: string)
    ensures |s| > digits && s[0] != '+'
    ensures s[0] == '-' <==> x < 0
  {
    IntToString(x) + (if digits > 0 then "." + Zeros(digits) else "")
  }

  /** With the same number of decimals, different numbers format differently. */
  lemma ToFixedInjective(x: int, y: int, digits: nat)
    ensures ToFixed(x, digits) == ToFixed(y, digits) <==> x == y
  {
    var tail := if digits > 0 then "." + Zeros(digits) else "";
    if ToFixed(x, digits) == ToFixed(y, digits) {
      assert IntToString(x) == ToFixed(x, digits)[..|ToFixed(x, digits)| - |tail|];
      assert IntToString(y) == ToFixed(y, digits)[..|ToFixed(y, digits)| - |tail|];
      IntToStringInjective(x, y);
    }
  }
}
