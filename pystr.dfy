/** The Python `str` built-ins that the modelled tools rely on: searching,
    splitting and joining, replacement, whitespace stripping, case mapping,
    `int()` parsing and `str()` of an integer.  Characters are code points;
    the case mappings and digit classes cover ASCII only. */
module PyStr {
  import opened Failures

  /** ASCII decimal digit (`c.isdigit()` restricted to ASCII). */
  predicate IsDigit(c: char) {
    '0' <= c <= '9'
  }

  predicate AllDigits(s: string) {
    forall i :: 0 <= i < |s| ==> IsDigit(s[i])
  }

  /** `c.isspace()`: the 29 code points Python treats as whitespace. */
  predicate IsSpace(c: char) {
    '\t' <= c <= '\r' || '\U{1c}' <= c <= ' ' || c == '\U{85}' || c == '\U{a0}' || c == '\U{1680}'
    || '\U{2000}' <= c <= '\U{200a}' || c == '\U{2028}' || c == '\U{2029}' || c == '\U{202f}'
    || c == '\U{205f}' || c == '\U{3000}'
  }

  /** The whitespace `int()` strips around its argument: every `isspace()`
      character except the four separators U+001C..U+001F. */
  predicate IsIntSpace(c: char) {
    IsSpace(c) && !('\U{1c}' <= c <= '\U{1f}')
  }

  /** `s.find(c)`, except that absence is reported as `|s|` instead of -1. */
  function Find(s: string, c: char): (i: nat)
    ensures i <= |s|
    ensures i < |s| ==> s[i] == c
    ensures forall j :: 0 <= j < i ==> s[j] != c
  {
    if |s| == 0 then 0 else if s[0] == c then 0 else 1 + Find(s[1..], c)
  }

  /** `pat` occurs in `s` at index `j`. */
  predicate Occurs(s: string, pat: string, j: int) {
    0 <= j && j + |pat| <= |s| && s[j..j + |pat|] == pat
  }

  /** `sub in s`. */
  predicate Contains(s: string, sub: string) {
    exists j | 0 <= j <= |s| :: Occurs(s, sub, j)
  }

  /** `s.rfind(pat)`: the last index where `pat` occurs, or -1. */
  function RFind(s: string, pat: string): (i: int)
    ensures i == -1 || Occurs(s, pat, i)
    ensures forall j :: i < j ==> !Occurs(s, pat, j)
  {
    LastOccurrence(s, pat, |s| - |pat|)
  }

  function LastOccurrence(s: string, pat: string, j: int): (i: int)
    requires j <= |s| - |pat|
    ensures i == -1 || (Occurs(s, pat, i) && i <= j)
    ensures forall k :: i < k <= j ==> !Occurs(s, pat, k)
    decreases j + 1
  {
    if j < 0 then -1
    else if s[j..j + |pat|] == pat then j
    else LastOccurrence(s, pat, j - 1)
  }

  /** `sep.join(parts)`. */
  function Join(parts: seq<string>, sep: string): string {
    if |parts| == 0 then ""
    else if |parts| == 1 then parts[0]
    else parts[0] + sep + Join(parts[1..], sep)
  }

  /** `s.split(sep)` for a one-character separator: the unique decomposition
      of `s` into separator-free parts that `Join` reassembles. */
  function Split(s: string, sep: char): (r: seq<string>)
    ensures |r| >= 1
    ensures Join(r, [sep]) == s
    ensures forall k :: 0 <= k < |r| ==> sep !in r[k]
    decreases |s|
  {
    var i := Find(s, sep);
    if i == |s| then [s]
    else
      var tail := Split(s[i + 1..], sep);
      assert s == s[..i] + [sep] + s[i + 1..];
      [s[..i]] + tail
  }

  /** `s.replace(pat, rep)`: non-overlapping occurrences, left to right. */
  function Replace(s: string, pat: string, rep: string): string
    requires |pat| > 0
    decreases |s|
  {
    if |s| == 0 then ""
    else if pat <= s then rep + Replace(s[|pat|..], pat, rep)
    else [s[0]] + Replace(s[1..], pat, rep)
  }

  /** `s.rstrip()`. */
  function RStrip(s: string): string {
    if |s| > 0 && IsSpace(s[|s| - 1]) then RStrip(s[..|s| - 1]) else s
  }

  function TrimIntStart(s: string): string {
    if |s| > 0 && IsIntSpace(s[0]) then TrimIntStart(s[1..]) else s
  }

  function TrimIntEnd(s: string): string {
    if |s| > 0 && IsIntSpace(s[|s| - 1]) then TrimIntEnd(s[..|s| - 1]) else s
  }

  function LowerChar(c: char): char {
    if 'A' <= c <= 'Z' then (c as int + 32) as char else c
  }

  function UpperChar(c: char): char {
    if 'a' <= c <= 'z' then (c as int - 32) as char else c
  }

  /** `s.lower()` on ASCII letters. */
  function Lower(s: string): string {
    seq(|s|, i requires 0 <= i < |s| => LowerChar(s[i]))
  }

  /** `s.upper()` on ASCII letters. */
  function Upper(s: string): string {
    seq(|s|, i requires 0 <= i < |s| => UpperChar(s[i]))
  }

  /** A digit of `int(_, base)` for base 10 or 16 (either case). */
  predicate IsBaseDigit(c: char, base: nat) {
    IsDigit(c) || (base == 16 && ('a' <= c <= 'f' || 'A' <= c <= 'F'))
  }

  function DigitOf(c: char): nat {
    if IsDigit(c) then c as int - '0' as int
    else if 'a' <= c <= 'f' then c as int - 'a' as int + 10
    else if 'A' <= c <= 'F' then c as int - 'A' as int + 10
    else 0
  }

  /** The value of a digit string, most significant digit first. */
  function DigitsValue(ds: string, base: nat): nat {
    if |ds| == 0 then 0 else DigitsValue(ds[..|ds| - 1], base) * base + DigitOf(ds[|ds| - 1])
  }

  predicate AllBaseDigits(ds: string, base: nat) {
    forall i :: 0 <= i < |ds| ==> IsBaseDigit(ds[i], base)
  }

  /** `int(s, base)` for base 10 or 16: surrounding whitespace, an optional
      sign, for base 16 an optional `0x`/`0X`, then at least one digit;
      anything else raises `ValueError`. */
  function ParseInt(s: string, base: nat): Result<int>
    requires base == 10 || base == 16
  {
    ParseSigned(TrimIntEnd(TrimIntStart(s)), base)
  }

  function ParseSigned(t: string, base: nat): Result<int>
    requires base == 10 || base == 16
  {
    if |t| > 0 && t[0] == '-' then
      var magnitude :- ParseUnsigned(t[1..], base);
      Ok(-magnitude)
    else if |t| > 0 && t[0] == '+' then ParseUnsigned(t[1..], base)
    else ParseUnsigned(t, base)
  }

  function ParseUnsigned(u: string, base: nat): Result<int>
    requires base == 10 || base == 16
  {
    var digits :=
      if base == 16 && |u| >= 2 && u[0] == '0' && (u[1] == 'x' || u[1] == 'X') then u[2..] else u;
    if |digits| == 0 || !AllBaseDigits(digits, base) then Err(ValueError)
    else Ok(DigitsValue(digits, base))
  }

  function DecimalDigit(d: nat): char
    requires d < 10
  {
    ('0' as int + d) as char
  }

  /** `str(n)` for `n >= 0`. */
  function NatToString(n: nat): string
    decreases n
  {
    if n < 10 then [DecimalDigit(n)] else NatToString(n / 10) + [DecimalDigit(n % 10)]
  }

  /** `str(n)`. */
  function IntToString(n: int): string {
    if n < 0 then "-" + NatToString(-n) else NatToString(n)
  }

  function Zeros(k: nat): string {
    seq(k, _ => '0')
  }

  // ---------------------------------------------------------------------------
  // Laws of the built-ins

  /** `str(n)` is a canonical digit string whose value is `n`: all digits, and
      no leading zero unless `n` is 0. */
  lemma {:induction false} NatToStringDigits(n: nat)
    ensures |NatToString(n)| > 0 && AllDigits(NatToString(n))
    ensures DigitsValue(NatToString(n), 10) == n
    ensures NatToString(n)[0] == '0' <==> n == 0
    decreases n
  {
    var s := NatToString(n);
    if n >= 10 {
      NatToStringDigits(n / 10);
      var p := NatToString(n / 10);
      assert s[..|s| - 1] == p;
      assert s[0] == p[0];
    }
  }

  /** Leading zeros do not change the value of a digit string. */
  lemma {:induction false} DigitsValueLeadingZeros(k: nat, ds: string, base: nat)
    ensures DigitsValue(Zeros(k) + ds, base) == DigitsValue(ds, base)
    decreases |ds|
  {
    if |ds| == 0 {
      ZerosValue(k, base);
      assert Zeros(k) + ds == Zeros(k);
    } else {
      var init := ds[..|ds| - 1];
      assert (Zeros(k) + ds)[..|Zeros(k) + ds| - 1] == Zeros(k) + init;
      DigitsValueLeadingZeros(k, init, base);
    }
  }

  lemma {:induction false} ZerosValue(k: nat, base: nat)
    ensures DigitsValue(Zeros(k), base) == 0
  {
    if k > 0 {
      assert Zeros(k)[..k - 1] == Zeros(k - 1);
      ZerosValue(k - 1, base);
    }
  }

  /** `int()` leaves a string without surrounding whitespace as it is. */
  lemma ParseIntUntrimmed(s: string, base: nat)
    requires base == 10 || base == 16
    requires |s| > 0 && !IsIntSpace(s[0]) && !IsIntSpace(s[|s| - 1])
    ensures ParseInt(s, base) == ParseSigned(s, base)
  {
    assert TrimIntStart(s) == s;
    assert TrimIntEnd(s) == s;
  }

  /** A leading `-` negates what the digits after it are worth. */
  lemma ParseSignedNegative(t: string, base: nat)
    requires base == 10 || base == 16
    requires |t| > 0 && t[0] == '-' && ParseUnsigned(t[1..], base).Ok?
    ensures ParseSigned(t, base) == Ok(-ParseUnsigned(t[1..], base).value)
  {
  }

  /** `int()` of a `-` followed by digits, with no space around it. */
  lemma ParseIntNegative(s: string, base: nat, magnitude: int)
    requires base == 10 || base == 16
    requires |s| > 1 && s[0] == '-' && !IsIntSpace(s[|s| - 1])
    requires ParseUnsigned(s[1..], base) == Ok(magnitude)
    ensures ParseInt(s, base) == Ok(-magnitude)
  {
    ParseIntUntrimmed(s, base);
    ParseSignedNegative(s, base);
  }

  /** `int()` of a string of ASCII digits is its decimal value. */
  lemma ParseIntDecimal(ds: string)
    requires |ds| > 0 && AllDigits(ds)
    ensures ParseInt(ds, 10) == Ok(DigitsValue(ds, 10))
  {
    ParseIntUntrimmed(ds, 10);
    assert !(ds[0] == '-' || ds[0] == '+');
  }

  /** `int(str(n)) == n`. */
  lemma ParseIntToString(n: int)
    ensures ParseInt(IntToString(n), 10) == Ok(n)
  {
    var m: nat := if n < 0 then -n else n;
    NatToStringDigits(m);
    var d := NatToString(m);
    if n < 0 {
      var s := IntToString(n);
      assert s == "-" + d;
      assert s[|s| - 1] == d[|d| - 1];
      ParseIntUntrimmed(s, 10);
      assert s[1..] == d;
    } else {
      ParseIntDecimal(d);
    }
  }

  /** `sep.join(parts).split(sep) == parts` when no part contains `sep`. */
  lemma {:induction false} SplitJoin(parts: seq<string>, sep: char)
    requires |parts| >= 1
    requires forall k :: 0 <= k < |parts| ==> sep !in parts[k]
    ensures Split(Join(parts, [sep]), sep) == parts
    decreases |parts|
  {
    var s := Join(parts, [sep]);
    if |parts| == 1 {
      assert Find(s, sep) == |s|;
    } else {
      SplitJoin(parts[1..], sep);
      var p := parts[0];
      assert s == p + [sep] + Join(parts[1..], [sep]);
      assert s[|p|] == sep;
      assert Find(s, sep) == |p| by {
        assert forall j :: 0 <= j < |p| ==> s[j] == p[j];
      }
      assert s[..|p|] == p;
      assert s[|p| + 1..] == Join(parts[1..], [sep]);
    }
  }
}
