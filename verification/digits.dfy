/*
 * Positional digit strings in bases 2..16: the common ground of printf's
 * `%d`/`%x` (number to text) and scanf's `%d`/`%x` (text to number).
 */
module Digits {

  /** Value of a digit character in any base up to 16 (both letter cases);
      16 for a character that is a digit of no such base. */
  function DigitValue(c: char): (v: nat)
    ensures v <= 16
    ensures v < 10 <==> '0' <= c <= '9'
  {
    if '0' <= c <= '9' then c as int - '0' as int
    else if 'a' <= c <= 'f' then c as int - 'a' as int + 10
    else if 'A' <= c <= 'F' then c as int - 'A' as int + 10
    else 16
  }

  predicate IsDigit(c: char, base: nat) {
    DigitValue(c) < base
  }

  predicate AllDigits(s: string, base: nat) {
    forall i | 0 <= i < |s| :: IsDigit(s[i], base)
  }

  /** A decimal digit or a lower-case hexadecimal letter. */
  predicate IsLowerHexChar(c: char) {
    '0' <= c <= '9' || 'a' <= c <= 'f'
  }

  /** The lower-case character printf writes for digit value d. */
  function DigitChar(d: nat): (c: char)
    requires d < 16
    ensures DigitValue(c) == d
    ensures IsLowerHexChar(c)
    ensures c != 'x' && c != 'X' && c != '_' && c != '+' && c != '-'
  {
    if d < 10 then ('0' as int + d) as char else ('a' as int + d - 10) as char
  }

  /** n written in the given base, most significant digit first, with no
      leading zeros ("0" for zero). */
  function ToDigits(n: nat, base: nat): (s: string)
    requires 2 <= base <= 16
    ensures 1 <= |s|
    ensures AllDigits(s, base)
    ensures |s| > 1 ==> s[0] != '0'
    decreases n
  {
    if n < base then [DigitChar(n)]
    else
      DivStep(n, base);
      ToDigits(n / base, base) + [DigitChar(n % base)]
  }

  /** One step of positional decomposition: the quotient is a smaller
      positive number and the remainder a digit. */
  lemma DivStep(n: nat, base: nat)
    requires 2 <= base <= n
    ensures 1 <= n / base < n
    ensures n % base < base
    ensures n == base * (n / base) + n % base
  {
    var q := n / base;
    var r := n % base;
    assert n == base * q + r && 0 <= r < base;
    if q == 0 {
      assert false;
    }
    AtLeastTwice(base, q);
  }

  lemma {:induction false} AtLeastTwice(b: nat, q: nat)
    requires b >= 2
    ensures b * q >= 2 * q
    decreases q
  {
    if q > 0 {
      AtLeastTwice(b, q - 1);
      assert b * q == b * (q - 1) + b;
    }
  }

  /** The number a digit string denotes (scanf's accumulation, most
      significant digit first). */
  function ValueOf(s: string, base: nat): nat
  {
    if |s| == 0 then 0
    else ValueOf(s[..|s| - 1], base) * base + DigitValue(s[|s| - 1])
  }

  function Zeros(k: nat): (s: string)
    ensures |s| == k
    ensures forall i | 0 <= i < k :: s[i] == '0'
  {
    if k == 0 then [] else ['0'] + Zeros(k - 1)
  }

  function Pow(b: nat, m: nat): nat
  {
    if m == 0 then 1 else b * Pow(b, m - 1)
  }

  /** Reading back what ToDigits wrote gives the number again. */
  lemma {:induction false} ValueOfToDigits(n: nat, base: nat)
    requires 2 <= base <= 16
    ensures ValueOf(ToDigits(n, base), base) == n
    decreases n
  {
    var s := ToDigits(n, base);
    if n >= base {
      DivStep(n, base);
      ValueOfToDigits(n / base, base);
      assert s[..|s| - 1] == ToDigits(n / base, base);
    }
  }

  /** Leading zeros do not change the value of a digit string. */
  lemma {:induction false} ValueOfLeadingZeros(k: nat, s: string, base: nat)
    ensures ValueOf(Zeros(k) + s, base) == ValueOf(s, base)
    decreases |s|
  {
    if |s| == 0 {
      assert Zeros(k) + s == Zeros(k);
      ValueOfZeros(k, base);
    } else {
      var t := Zeros(k) + s;
      assert t[..|t| - 1] == Zeros(k) + s[..|s| - 1];
      assert t[|t| - 1] == s[|s| - 1];
      ValueOfLeadingZeros(k, s[..|s| - 1], base);
    }
  }

  lemma {:induction false} ValueOfZeros(k: nat, base: nat)
    ensures ValueOf(Zeros(k), base) == 0
  {
    if k > 0 {
      var z := Zeros(k);
      assert z == ['0'] + Zeros(k - 1);
      assert z[..k - 1] == Zeros(k - 1) by {
        var y := Zeros(k - 1);
        assert forall i | 0 <= i < k - 1 :: z[i] == '0' && y[i] == '0';
      }
      ValueOfZeros(k - 1, base);
    }
  }

  lemma DivBound(n: nat, b: nat, p: nat)
    requires b >= 1
    ensures n / b < p <==> n < b * p
  {
    var q := n / b;
    var r := n % b;
    assert n == b * q + r && 0 <= r < b;
    if q < p {
      assert q <= p - 1;
      assert b * q <= b * (p - 1);
    } else {
      assert b * q >= b * p;
    }
  }

  lemma PowAtLeastBase(b: nat, m: nat)
    requires b >= 2 && m >= 1
    ensures Pow(b, m) >= b
  {
    if m > 1 {
      PowAtLeastBase(b, m - 1);
    }
  }

  /** n takes at most m digits exactly when n < base^m. */
  lemma {:induction false} DigitsFit(n: nat, base: nat, m: nat)
    requires 2 <= base <= 16 && m >= 1
    ensures |ToDigits(n, base)| <= m <==> n < Pow(base, m)
    decreases n
  {
    PowAtLeastBase(base, m);
    if n >= base {
      DivStep(n, base);
      assert |ToDigits(n, base)| == |ToDigits(n / base, base)| + 1;
      if m == 1 {
        assert Pow(base, 1) == base;
      } else {
        DigitsFit(n / base, base, m - 1);
        DivBound(n, base, Pow(base, m - 1));
      }
    }
  }
}
