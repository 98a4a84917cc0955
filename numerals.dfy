/** Decimal rendering and reading of integers: `str(n)`, `str.zfill`, the `0Nd` format and
    the sign-and-digits subset of `int(s)`. */
module Numerals {
  import opened Text

  function DigitChar(d: nat): (c: char)
    requires d < 10
    ensures IsDigit(c)
  {
    ('0' as int + d) as char
  }

  function DigitOf(c: char): (d: nat)
    requires IsDigit(c)
    ensures d < 10
  {
    c as int - '0' as int
  }

  predicate AllDigits(s: string) {
    forall i :: 0 <= i < |s| ==> IsDigit(s[i])
  }

  /** `str(n)` for a non-negative `n`: digits only, and no leading zero unless `n` is 0. */
  function NatToString(n: nat): (r: string)
    ensures |r| >= 1 && AllDigits(r)
    ensures r[0] == '0' ==> n == 0
    decreases n
  {
    if n < 10 then [DigitChar(n)] else NatToString(n / 10) + [DigitChar(n % 10)]
  }

  /** `str(i)` */
  function IntToString(i: int): string {
    if i < 0 then "-" + NatToString(-i) else NatToString(i)
  }

  function Zeros(n: nat): (r: string)
    ensures |r| == n && AllDigits(r)
  {
    seq(n, _ => '0')
  }

  /** `s.zfill(width)`: pad with zeros on the left, after a leading sign, up to `width`. */
  function ZFill(s: string, width: int): string {
    if |s| >= width then s
    else if |s| > 0 && (s[0] == '+' || s[0] == '-') then [s[0]] + Zeros(width - |s|) + s[1..]
    else Zeros(width - |s|) + s
  }

  /** `str(n).zfill(width)`, which is also what the format `f"{n:0<width>d}"` produces. */
  function ZeroPad(n: int, width: int): string {
    ZFill(IntToString(n), width)
  }

  /** The sign-and-digits strings that `int(s)` accepts (no spaces, no underscores). */
  predicate IsIntLiteral(s: string) {
    if |s| > 0 && (s[0] == '+' || s[0] == '-') then |s| > 1 && AllDigits(s[1..])
    else |s| > 0 && AllDigits(s)
  }

  function DigitsValue(s: string): nat
    requires AllDigits(s)
    decreases |s|
  {
    if s == [] then 0 else DigitsValue(s[..|s| - 1]) * 10 + DigitOf(s[|s| - 1])
  }

  /** `int(s)` on an integer literal. */
  function IntValue(s: string): int
    requires IsIntLiteral(s)
  {
    if s[0] == '-' then -(DigitsValue(s[1..]) as int)
    else if s[0] == '+' then DigitsValue(s[1..])
    else DigitsValue(s)
  }

  lemma {:induction false} DigitsValueOfNat(n: nat)
    ensures DigitsValue(NatToString(n)) == n
    decreases n
  {
    var r := NatToString(n);
    if n >= 10 {
      DigitsValueOfNat(n / 10);
      assert r[..|r| - 1] == NatToString(n / 10);
    }
  }

  lemma {:induction false} DigitsValueLeadingZeros(k: nat, s: string)
    requires AllDigits(s)
    ensures DigitsValue(Zeros(k) + s) == DigitsValue(s)
    decreases |s|, k
  {
    var z := Zeros(k) + s;
    if s == [] {
      assert z == Zeros(k);
      if k > 0 {
        assert z[..|z| - 1] == Zeros(k - 1) + [];
        DigitsValueLeadingZeros(k - 1, []);
      }
    } else {
      assert z[..|z| - 1] == Zeros(k) + s[..|s| - 1];
      DigitsValueLeadingZeros(k, s[..|s| - 1]);
    }
  }

  /** Reading back a zero-padded number gives the number: padding loses nothing. */
  lemma ZeroPadRoundTrip(n: int, width: int)
    ensures IsIntLiteral(ZeroPad(n, width)) && IntValue(ZeroPad(n, width)) == n
  {
    var s := IntToString(n);
    var z := ZeroPad(n, width);
    if n < 0 {
      DigitsValueOfNat(-n);
      if |s| < width {
        assert z == "-" + (Zeros(width - |s|) + NatToString(-n));
        assert z[1..] == Zeros(width - |s|) + NatToString(-n);
        DigitsValueLeadingZeros(width - |s|, NatToString(-n));
      } else {
        assert z[1..] == NatToString(-n);
      }
    } else {
      DigitsValueOfNat(n);
      if |s| < width {
        assert z == Zeros(width - |s|) + NatToString(n);
        DigitsValueLeadingZeros(width - |s|, NatToString(n));
      }
    }
  }

  /** Distinct numbers pad to distinct strings. */
  lemma ZeroPadInjective(a: int, b: int, width: int)
    requires ZeroPad(a, width) == ZeroPad(b, width)
    ensures a == b
  {
    ZeroPadRoundTrip(a, width);
    ZeroPadRoundTrip(b, width);
  }

  /** The padded text is at least `width` characters long. */
  lemma ZeroPadLength(n: int, width: int)
    ensures |ZeroPad(n, width)| >= width
  {
  }
}
