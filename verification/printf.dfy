/*
 * The three printf conversions the port uses to name kernel objects:
 * `%d` (mutex and semaphore names), `%04d` (thread and cancellation
 * semaphore names) and `%x` (the TLS table address in a thread name).
 */
module Printf {
  import opened Digits

  /** Left-pads a digit string with '0' up to the given width; the padded
      string denotes the same number. */
  function ZeroPad(s: string, width: nat, base: nat): (r: string)
    requires 2 <= base
    ensures |r| == if |s| >= width then |s| else width
    ensures AllDigits(s, base) ==> AllDigits(r, base)
    ensures ValueOf(r, base) == ValueOf(s, base)
  {
    if |s| >= width then s
    else
      ValueOfLeadingZeros(width - |s|, s, base);
      var z := Zeros(width - |s|);
      assert forall i | 0 <= i < |z| :: z[i] == '0' && IsDigit(z[i], base);
      z + s
  }

  /** `%d`: an optional '-' followed by the decimal digits of |n|. */
  function FormatDecimal(n: int): (s: string)
    ensures 1 <= |s|
    ensures n >= 0 ==> AllDigits(s, 10) && ValueOf(s, 10) == n
    ensures n < 0 ==> s[0] == '-' && AllDigits(s[1..], 10) && ValueOf(s[1..], 10) == -n
  {
    ValueOfToDigits(if n >= 0 then n else -n, 10);
    if n >= 0 then ToDigits(n, 10) else "-" + ToDigits(-n, 10)
  }

  /** `%04d`: at least four characters, zero-filled after the sign. */
  function FormatDecimal04(n: int): (s: string)
    ensures 4 <= |s|
    ensures 0 <= n <= 9999 ==> |s| == 4 && AllDigits(s, 10) && ValueOf(s, 10) == n
    ensures n > 9999 ==> 5 <= |s| && AllDigits(s, 10) && ValueOf(s, 10) == n
    ensures n < 0 ==> s[0] == '-' && AllDigits(s[1..], 10) && ValueOf(s[1..], 10) == -n
  {
    var m := if n >= 0 then n else -n;
    var w := if n >= 0 then 4 else 3;
    var d := ToDigits(m, 10);
    ValueOfToDigits(m, 10);
    DigitsFit(m, 10, 4);
    assert Pow(10, 4) == 10000;
    var p := ZeroPad(d, w, 10);
    if n >= 0 then p else "-" + p
  }

  /** `%x` of an `unsigned int`: lower-case hexadecimal, no leading zeros. */
  function FormatHex(u: nat): (s: string)
    ensures 1 <= |s|
    ensures AllDigits(s, 16) && ValueOf(s, 16) == u
    ensures |s| > 1 ==> s[0] != '0'
    ensures u < 0x1_0000_0000 ==> |s| <= 8
    ensures forall i | 0 <= i < |s| :: IsLowerHexChar(s[i])
  {
    ValueOfToDigits(u, 16);
    DigitsFit(u, 16, 8);
    assert Pow(16, 8) == 0x1_0000_0000;
    ToDigitsSpelling(u, 16);
    ToDigits(u, 16)
  }

  /** Digit strings printf writes are lower case, so they never contain the
      characters the thread name pattern uses as separators or prefixes. */
  lemma {:induction false} ToDigitsSpelling(n: nat, base: nat)
    requires 2 <= base <= 16
    ensures forall i | 0 <= i < |ToDigits(n, base)| :: IsLowerHexChar(ToDigits(n, base)[i])
    decreases n
  {
    if n >= base {
      DivStep(n, base);
      ToDigitsSpelling(n / base, base);
    }
  }
}
