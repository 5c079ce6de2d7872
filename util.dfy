/** Hexadecimal formatting and the hex-string test of `Tools/util.py`. */
module Util {
  import opened Failures
  import opened PyStr

  function HexDigit(d: nat): char
    requires d < 16
  {
    if d < 10 then ('0' as int + d) as char else ('A' as int + d - 10) as char
  }

  predicate IsUpperHexDigit(c: char) {
    '0' <= c <= '9' || 'A' <= c <= 'F'
  }

  predicate IsUpperHex(s: string) {
    forall i :: 0 <= i < |s| ==> IsUpperHexDigit(s[i])
  }

  /** A run of `k` hexadecimal digits is worth less than 16^k. */
  lemma {:induction false} UpperHexBound(s: string)
    requires IsUpperHex(s)
    ensures DigitsValue(s, 16) < Pow16(|s|)
    decreases |s|
  {
    if |s| > 0 {
      var p := s[..|s| - 1];
      assert IsUpperHex(p) by {
        forall i | 0 <= i < |p| ensures IsUpperHexDigit(p[i]) { assert p[i] == s[i]; }
      }
      UpperHexBound(p);
      assert IsUpperHexDigit(s[|s| - 1]);
      var d := DigitOf(s[|s| - 1]);
      assert d < 16;
      assert DigitsValue(p, 16) * 16 <= (Pow16(|p|) - 1) * 16;
    }
  }

  /** The shortest uppercase hexadecimal spelling of `n` ("0" for zero). */

  function HexDigits(n: nat): string
    decreases n
  {
    if n < 16 then [HexDigit(n)] else HexDigits(n / 16) + [HexDigit(n % 16)]
  }

  /** Zeros on the left up to `width` characters. */
  function ZeroPad(digits: string, width: int): string {
    if |digits| >= width then digits else Zeros(width - |digits|) + digits
  }

  /** `"{:0<width>X}".format(n)`: uppercase hexadecimal; zero padding goes
      after the sign and the sign counts towards the width. */
  function FormatHex(n: int, width: nat): string {
    if n < 0 then "-" + ZeroPad(HexDigits(-n), width - 1) else ZeroPad(HexDigits(n), width)
  }

  function Pow16(k: nat): nat {
    if k == 0 then 1 else 16 * Pow16(k - 1)
  }

  /** `hex8(n)`: at least two digits. */
  function Hex8(n: int): string {
    FormatHex(n, 2)
  }

  /** `hex24(n)`: at least six digits. */
  function Hex24(n: int): string {
    FormatHex(n, 6)
  }

  /** `hex32(n)`: at least eight digits; exactly eight for a 32-bit value. */
  function Hex32(n: int): string {
    FormatHex(n, 8)
  }

  /** `is_hex_string(s)`: the loop over `s.upper()` with its early return. */
  predicate IsHexString(s: string) {
    AllUpperHexFrom(Upper(s))
  }

  predicate AllUpperHexFrom(u: string) {
    |u| == 0 || (IsUpperHexDigit(u[0]) && AllUpperHexFrom(u[1..]))
  }

  predicate IsHexDigitAnyCase(c: char) {
    '0' <= c <= '9' || 'A' <= c <= 'F' || 'a' <= c <= 'f'
  }

  // ---------------------------------------------------------------------------
  // Laws

  lemma {:induction false} HexDigitsLaws(n: nat)
    ensures |HexDigits(n)| >= 1 && IsUpperHex(HexDigits(n))
    ensures DigitsValue(HexDigits(n), 16) == n
    ensures forall k: nat :: k >= 1 && n < Pow16(k) ==> |HexDigits(n)| <= k
    decreases n
  {
    var h := HexDigits(n);
    if n >= 16 {
      HexDigitsLaws(n / 16);
      var p := HexDigits(n / 16);
      assert h[..|h| - 1] == p;
      forall k: nat | k >= 1 && n < Pow16(k)
        ensures |h| <= k
      {
        if k == 1 {
          assert false;
        } else {
          assert n / 16 < Pow16(k - 1);
        }
      }
    }
  }

  lemma ZeroPadLaws(digits: string, width: int)
    requires IsUpperHex(digits)
    ensures IsUpperHex(ZeroPad(digits, width))
    ensures |ZeroPad(digits, width)| == if |digits| >= width then |digits| else width
    ensures DigitsValue(ZeroPad(digits, width), 16) == DigitsValue(digits, 16)
  {
    if |digits| < width {
      DigitsValueLeadingZeros(width - |digits|, digits, 16);
    }
  }

  /** `int(s, 16)` reads back an unsigned uppercase hex string. */
  lemma ParseUpperHex(s: string)
    requires |s| >= 1 && IsUpperHex(s)
    ensures ParseInt(s, 16) == Ok(DigitsValue(s, 16))
  {
    assert IsUpperHexDigit(s[0]) && IsUpperHexDigit(s[|s| - 1]);
    ParseIntUntrimmed(s, 16);
    UnsignedUpperHex(s);
  }

  /** Uppercase hex digits carry no `0x` prefix and all count as base-16 digits. */
  lemma UnsignedUpperHex(s: string)
    requires |s| >= 1 && IsUpperHex(s)
    ensures ParseUnsigned(s, 16) == Ok(DigitsValue(s, 16))
  {
    if |s| >= 2 {
      assert IsUpperHexDigit(s[1]);
    }
  }

  /** What `FormatHex` promises: uppercase digits, the width, the value, and
      that `int(_, 16)` recovers `n`. */
  lemma FormatHexLaws(n: int, width: nat)
    requires width >= 1
    ensures n >= 0 ==> |FormatHex(n, width)| >= width && IsUpperHex(FormatHex(n, width))
                       && DigitsValue(FormatHex(n, width), 16) == n
    ensures 0 <= n < Pow16(width) ==> |FormatHex(n, width)| == width
    ensures n < 0 ==> |FormatHex(n, width)| >= 2 && FormatHex(n, width)[0] == '-'
                      && IsUpperHex(FormatHex(n, width)[1..]) && DigitsValue(FormatHex(n, width)[1..], 16) == -n
    ensures ParseInt(FormatHex(n, width), 16) == Ok(n)
  {
    if n < 0 {
      FormatNegativeHex(-n, width);
    } else {
      HexDigitsLaws(n);
      ZeroPadLaws(HexDigits(n), width);
      ParseUpperHex(FormatHex(n, width));
    }
  }

  /** `hex8(n)`: at least two uppercase digits, exactly two for a
      value below 0x100, a `-` in front of a negative value, and `int(_, 16)`
      reads `n` back. */
  lemma Hex8Laws(n: int)
    ensures var r := Hex8(n);
            && (n >= 0 ==> |r| >= 2 && IsUpperHex(r) && DigitsValue(r, 16) == n)
            && (0 <= n < 0x100 ==> |r| == 2)
            && (n < 0 ==> |r| >= 2 && r[0] == '-' && IsUpperHex(r[1..]) && DigitsValue(r[1..], 16) == -n)
            && ParseInt(r, 16) == Ok(n)
  {
    FormatHexLaws(n, 2);
    assert Pow16(2) == 0x100;
  }

  /** `hex24(n)`: at least six uppercase digits, exactly six for a
      value below 0x100_0000, a `-` in front of a negative value, and `int(_, 16)`
      reads `n` back. */
  lemma Hex24Laws(n: int)
    ensures var r := Hex24(n);
            && (n >= 0 ==> |r| >= 6 && IsUpperHex(r) && DigitsValue(r, 16) == n)
            && (0 <= n < 0x100_0000 ==> |r| == 6)
            && (n < 0 ==> |r| >= 2 && r[0] == '-' && IsUpperHex(r[1..]) && DigitsValue(r[1..], 16) == -n)
            && ParseInt(r, 16) == Ok(n)
  {
    FormatHexLaws(n, 6);
    assert Pow16(6) == 0x100_0000;
  }

  /** `hex32(n)`: at least eight uppercase digits, exactly eight for a
      value below 0x1_0000_0000, a `-` in front of a negative value, and `int(_, 16)`
      reads `n` back. */
  lemma Hex32Laws(n: int)
    ensures var r := Hex32(n);
            && (n >= 0 ==> |r| >= 8 && IsUpperHex(r) && DigitsValue(r, 16) == n)
            && (0 <= n < 0x1_0000_0000 ==> |r| == 8)
            && (n < 0 ==> |r| >= 2 && r[0] == '-' && IsUpperHex(r[1..]) && DigitsValue(r[1..], 16) == -n)
            && ParseInt(r, 16) == Ok(n)
  {
    FormatHexLaws(n, 8);
    assert Pow16(8) == 0x1_0000_0000;
  }

  lemma FormatNegativeHex(m: nat, width: nat)
    requires m > 0 && width >= 1
    ensures |FormatHex(-(m as int), width)| >= 2 && FormatHex(-(m as int), width)[0] == '-'
    ensures IsUpperHex(FormatHex(-(m as int), width)[1..]) && DigitsValue(FormatHex(-(m as int), width)[1..], 16) == m
    ensures ParseInt(FormatHex(-(m as int), width), 16) == Ok(-(m as int))
  {
    var body := ZeroPad(HexDigits(m), width - 1);
    PaddedDigits(m, width - 1);
    var r := FormatHex(-(m as int), width);
    assert r == "-" + body;
    assert r[1..] == body;
    ParseNegativeUpperHex(r);
  }

  lemma PaddedDigits(m: nat, width: int)
    ensures var body := ZeroPad(HexDigits(m), width);
            |body| >= 1 && IsUpperHex(body) && DigitsValue(body, 16) == m
  {
    HexDigitsLaws(m);
    ZeroPadLaws(HexDigits(m), width);
  }

  /** `int(s, 16)` of a `-` followed by uppercase hex digits is their value negated. */
  lemma ParseNegativeUpperHex(s: string)
    requires |s| >= 2 && s[0] == '-' && IsUpperHex(s[1..])
    ensures ParseInt(s, 16) == Ok(-(DigitsValue(s[1..], 16) as int))
  {
    var body := s[1..];
    assert s[|s| - 1] == body[|body| - 1];
    assert IsUpperHexDigit(body[|body| - 1]);
    UnsignedUpperHex(body);
    ParseIntNegative(s, 16, DigitsValue(body, 16));
  }

  /** `is_hex_string(s)` holds iff every character of `s` is a hexadecimal
      digit in either case; in particular the empty string is hex. */
  lemma IsHexStringChars(s: string)
    ensures IsHexString(s) <==> forall i :: 0 <= i < |s| ==> IsHexDigitAnyCase(s[i])
  {
    AllUpperHexFromChars(Upper(s));
    forall i | 0 <= i < |s|
      ensures IsUpperHexDigit(Upper(s)[i]) <==> IsHexDigitAnyCase(s[i])
    {
    }
  }

  lemma {:induction false} AllUpperHexFromChars(u: string)
    ensures AllUpperHexFrom(u) <==> IsUpperHex(u)
    decreases |u|
  {
    if |u| > 0 {
      AllUpperHexFromChars(u[1..]);
      assert forall i :: 1 <= i < |u| ==> u[i] == u[1..][i - 1];
    }
  }

  /** `is_hex_string` ignores case. */
  lemma IsHexStringIgnoresCase(s: string)
    ensures IsHexString(Lower(s)) == IsHexString(s)
    ensures IsHexString(Upper(s)) == IsHexString(s)
  {
    IsHexStringChars(s);
    IsHexStringChars(Lower(s));
    IsHexStringChars(Upper(s));
    assert forall i :: 0 <= i < |s| ==> (IsHexDigitAnyCase(Lower(s)[i]) <==> IsHexDigitAnyCase(s[i]));
    assert forall i :: 0 <= i < |s| ==> (IsHexDigitAnyCase(Upper(s)[i]) <==> IsHexDigitAnyCase(s[i]));
  }

  /** The formatted addresses pass the hex-string test exactly when they are
      not negative (a negative number gets a `-`). */
  lemma HexIsHexString(n: int)
    ensures IsHexString(Hex8(n)) <==> n >= 0
    ensures IsHexString(Hex24(n)) <==> n >= 0
    ensures IsHexString(Hex32(n)) <==> n >= 0
  {
    Hex8Laws(n);
    Hex24Laws(n);
    Hex32Laws(n);
    IsHexStringChars(Hex8(n));
    IsHexStringChars(Hex24(n));
    IsHexStringChars(Hex32(n));
  }
}
