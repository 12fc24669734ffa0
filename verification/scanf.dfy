/*
 * The two scanf conversions the thread-name lookup uses, `%<width>d` and
 * `%x`, following the C library's rules: leading white space is skipped,
 * an optional sign is accepted (and counts against the field width), `%x`
 * accepts an optional "0x"/"0X" prefix, and the input item is the longest
 * prefix that could still begin a valid number; the conversion fails when
 * that item holds no digit.
 */
module Scanf {
  import opened OsalTypes
  import opened Digits

  /** `isspace` in the "C" locale. */
  predicate IsSpace(c: char) {
    c == ' ' || c == '\t' || c == '\n' || c == '\r' || c == 11 as char || c == 12 as char
  }

  predicate IsSign(c: char) {
    c == '+' || c == '-'
  }

  /** Drops the leading white space a numeric conversion skips. */
  function SkipSpace(s: string): (r: string)
    ensures IsSuffix(r, s)
    ensures |r| > 0 ==> !IsSpace(r[0])
    ensures forall i | 0 <= i < |s| - |r| :: IsSpace(s[i])
  {
    if |s| > 0 && IsSpace(s[0]) then SkipSpace(s[1..]) else s
  }

  /** Length of the longest run of base digits at the front of s, reading at
      most `limit` characters. */
  function DigitRun(s: string, base: nat, limit: nat): (k: nat)
    ensures k <= |s| && k <= limit
    ensures forall i | 0 <= i < k :: IsDigit(s[i], base)
    ensures k < |s| && k < limit ==> !IsDigit(s[k], base)
  {
    if |s| == 0 || limit == 0 || !IsDigit(s[0], base) then 0
    else 1 + DigitRun(s[1..], base, limit - 1)
  }

  /** A successful conversion: the value stored and the unread input. */
  datatype Scanned = Scanned(value: int, rest: string)

  /** `%<width>d` (width >= 1). */
  function ScanDecimal(s: string, width: nat): (r: Option<Scanned>)
    requires width >= 1
    ensures r.Some? ==> |r.value.rest| < |s| && IsSuffix(r.value.rest, s)
    ensures r.Some? <==>
      var t := SkipSpace(s);
      (|t| > 0 && IsDigit(t[0], 10)) ||
      (|t| > 1 && width > 1 && IsSign(t[0]) && IsDigit(t[1], 10))
  {
    var t := SkipSpace(s);
    var signed := |t| > 0 && IsSign(t[0]);
    var start := if signed then 1 else 0;
    var k := DigitRun(t[start..], 10, width - start);
    if k == 0 then None
    else
      SuffixOfSuffix(s, t, start + k);
      var magnitude: int := ValueOf(t[start..start + k], 10);
      Some(Scanned(if signed && t[0] == '-' then -magnitude else magnitude, t[start + k..]))
  }

  /** What strtoul stores for a hexadecimal magnitude on a 32-bit target:
      an out-of-range magnitude saturates at ULONG_MAX, and a minus sign
      negates modulo 2^32. */
  function UnsignedResult(magnitude: nat, negative: bool): (v: U32)
    ensures magnitude <= U32_MAX && !negative ==> v == magnitude
    ensures magnitude > U32_MAX ==> v == U32_MAX
    ensures 0 < magnitude <= U32_MAX && negative ==> v == TWO_32 - magnitude
  {
    if magnitude > U32_MAX then U32_MAX
    else if negative then (TWO_32 - magnitude) % TWO_32
    else magnitude
  }

  /** `%x` into an `unsigned int`. */
  function ScanHex(s: string): (r: Option<Scanned>)
    ensures r.Some? ==> IsU32(r.value.value)
    ensures r.Some? ==> |r.value.rest| < |s| && IsSuffix(r.value.rest, s)
  {
    var t := SkipSpace(s);
    var start := HexDigitsStart(t);
    var k := DigitRun(t[start..], 16, |t| - start);
    if k == 0 then None
    else
      SuffixOfSuffix(s, t, start + k);
      Some(Scanned(UnsignedResult(ValueOf(t[start..start + k], 16), t[0] == '-'), t[start + k..]))
  }

  /** Where the digits of a `%x` field begin: after an optional sign and an
      optional "0x"/"0X" prefix. */
  function HexDigitsStart(t: string): (start: nat)
    ensures start <= |t|
    ensures start > 0 ==> IsSign(t[0]) || t[0] == '0'
  {
    var sign := if |t| > 0 && IsSign(t[0]) then 1 else 0;
    if |t| >= sign + 2 && t[sign] == '0' && (t[sign + 1] == 'x' || t[sign + 1] == 'X') then sign + 2 else sign
  }

  predicate IsSuffix(r: string, s: string) {
    |r| <= |s| && r == s[|s| - |r|..]
  }

  /** A suffix of a suffix of s is a suffix of s. */
  lemma SuffixOfSuffix(s: string, t: string, n: nat)
    requires IsSuffix(t, s) && n <= |t|
    ensures IsSuffix(t[n..], s)
  {
  }

  /** A field of exactly `width` decimal digits, followed by anything, is
      read back as the number it spells. */
  lemma ScanDecimalOfDigits(d: string, rest: string, width: nat)
    requires width >= 1 && |d| == width && AllDigits(d, 10)
    ensures ScanDecimal(d + rest, width) == Some(Scanned(ValueOf(d, 10), rest))
  {
    var s := d + rest;
    assert !IsSpace(s[0]) && !IsSign(s[0]) by {
      assert IsDigit(d[0], 10);
    }
    assert SkipSpace(s) == s;
    assert s[..width] == d;
    assert s[width..] == rest;
  }

  /** A whole string of hexadecimal digits whose value fits 32 bits is read
      back as that value, with nothing left over. */
  lemma ScanHexOfDigits(h: string)
    requires 1 <= |h| && AllDigits(h, 16) && ValueOf(h, 16) <= U32_MAX
    ensures ScanHex(h) == Some(Scanned(ValueOf(h, 16), []))
  {
    LeadingDigit(h, 16);
    HexNoPrefix(h);
    DigitRunOfDigits(h, 16, |h|);
    assert h[0..] == h && h[0..|h|] == h && h[|h|..] == [];
  }

  /** A string that starts with a digit has no white space to skip and no sign. */
  lemma LeadingDigit(s: string, base: nat)
    requires 1 <= |s| && base <= 16 && AllDigits(s, base)
    ensures SkipSpace(s) == s && !IsSign(s[0])
  {
    assert IsDigit(s[0], base);
    DigitIsNotSpaceOrSign(s[0]);
  }

  lemma DigitIsNotSpaceOrSign(c: char)
    requires DigitValue(c) < 16
    ensures !IsSpace(c) && !IsSign(c)
  {
    assert '0' <= c <= '9' || 'a' <= c <= 'f' || 'A' <= c <= 'F';
  }

  /** A string of hexadecimal digits has no sign and no "0x" prefix: its
      digits start at once. */
  lemma HexNoPrefix(h: string)
    requires 1 <= |h| && AllDigits(h, 16)
    ensures HexDigitsStart(h) == 0
  {
    assert IsDigit(h[0], 16);
    DigitIsNotSpaceOrSign(h[0]);
    if |h| >= 2 {
      assert IsDigit(h[1], 16);
    }
  }

  /** A run of digits is read up to the limit or its end, whichever is first. */
  lemma DigitRunOfDigits(s: string, base: nat, limit: nat)
    requires limit <= |s| && AllDigits(s[..limit], base)
    ensures DigitRun(s, base, limit) == limit
  {
  }
}
