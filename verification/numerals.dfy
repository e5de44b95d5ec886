/**
 * JavaScript's rendering of non-negative integers, `Number.prototype.toString(radix)`,
 * and of integer error codes concatenated into a string (radix 10, with a minus
 * sign for negatives).
 */
module Numerals {

  /** One lower-case digit of value `d`. */
  function DigitChar(d: nat): (c: char)
    requires d < 16
  {
    if d < 10 then ('0' as int + d) as char else ('a' as int + d - 10) as char
  }

  predicate IsDigitIn(c: char, radix: nat) {
    ('0' <= c <= '9' && (c as int - '0' as int) < radix) || ('a' <= c <= 'f' && (c as int - 'a' as int) + 10 < radix)
  }

  /** The value of a lower-case digit character (0 for anything else). */
  function DigitValue(c: char): nat {
    if '0' <= c <= '9' then c as int - '0' as int
    else if 'a' <= c <= 'f' then c as int - 'a' as int + 10
    else 0
  }

  lemma DigitRoundTrip(d: nat, radix: nat)
    requires d < radix <= 16
    ensures IsDigitIn(DigitChar(d), radix)
    ensures DigitValue(DigitChar(d)) == d
  {
  }

  /** The radixes the adapter renders in: 16 for `S4`, 10 for error codes. */
  predicate IsRadix(radix: nat) {
    radix == 10 || radix == 16
  }

  lemma DivMod(n: nat, radix: nat)
    requires IsRadix(radix)
    ensures n % radix < radix
    ensures n == (n / radix) * radix + n % radix
    ensures n >= radix ==> 1 <= n / radix < n
  {
    if radix == 10 {
      assert n == (n / 10) * 10 + n % 10;
    } else {
      assert n == (n / 16) * 16 + n % 16;
    }
  }

  /** `n.toString(radix)`: most significant digit first, no leading zeros, "0" for zero. */
  function ToRadix(n: nat, radix: nat): (r: string)
    requires IsRadix(radix)
    ensures |r| >= 1
    ensures forall i :: 0 <= i < |r| ==> IsDigitIn(r[i], radix)
    ensures n == 0 ==> r == "0"
    ensures n > 0 ==> r[0] != '0'
    ensures |r| > 1 ==> n > 0
    decreases n
  {
    DivMod(n, radix);
    DigitRoundTrip(n % radix, radix);
    if n < radix then [DigitChar(n)] else ToRadix(n / radix, radix) + [DigitChar(n % radix)]
  }

  /** The value of a digit string, read most significant digit first. */
  function FromRadix(s: string, radix: nat): nat
    decreases |s|
  {
    if |s| == 0 then 0 else FromRadix(s[..|s| - 1], radix) * radix + DigitValue(s[|s| - 1])
  }

  /** Reading back a rendered number gives the number. */
  lemma {:induction false} FromToRadix(n: nat, radix: nat)
    requires IsRadix(radix)
    ensures FromRadix(ToRadix(n, radix), radix) == n
    decreases n
  {
    var r := ToRadix(n, radix);
    DivMod(n, radix);
    DigitRoundTrip(n % radix, radix);
    if n >= radix {
      FromToRadix(n / radix, radix);
      assert r[..|r| - 1] == ToRadix(n / radix, radix);
    }
  }

  /**
   * `"" + n` for an integer `n`, in plain decimal as JavaScript writes numbers
   * of magnitude below 10^21.
   */
  function Decimal(n: int): (r: string)
    ensures |r| >= 1
    ensures ' ' !in r
    ensures r[0] == '-' <==> n < 0
    ensures var d := if n < 0 then r[1..] else r;
      && |d| >= 1
      && (forall i :: 0 <= i < |d| ==> IsDigitIn(d[i], 10))
      && (|d| > 1 ==> d[0] != '0')
  {
    if n < 0 then "-" + ToRadix(-n, 10) else ToRadix(n, 10)
  }

  /** The integer a decimal rendering denotes, read with an optional leading minus sign. */
  function DecimalValue(s: string): int {
    if |s| > 0 && s[0] == '-' then 0 - (FromRadix(s[1..], 10) as int) else FromRadix(s, 10)
  }

  /** Reading a rendered integer back gives the integer. */
  lemma DecimalRoundTrip(n: int)
    ensures DecimalValue(Decimal(n)) == n
  {
    var r := Decimal(n);
    if n < 0 {
      assert r[0] == '-' && r[1..] == ToRadix(-n, 10);
      FromToRadix(-n, 10);
    } else {
      assert IsDigitIn(r[0], 10);
      FromToRadix(n, 10);
    }
  }

  /** Different integers render differently. */
  lemma DecimalInjective(a: int, b: int)
    requires Decimal(a) == Decimal(b)
    ensures a == b
  {
    DecimalRoundTrip(a);
    DecimalRoundTrip(b);
  }
}
