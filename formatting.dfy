/** Decimal rendering of integers, as C#'s `ToString()` and `ToString("D4")`
    produce it for the invariant culture. */
module Formatting {

  predicate IsDigit(c: char) { '0' <= c <= '9' }

  predicate AllDigits(s: string) { forall i | 0 <= i < |s| :: IsDigit(s[i]) }

  function DigitChar(d: nat): (c: char)
    requires d < 10
    ensures IsDigit(c) && c as int - '0' as int == d
  {
    ('0' as int + d) as char
  }

  /** The shortest decimal numeral of `n` (no leading zeros). */
  function NatToString(n: nat): (s: string)
    ensures 1 <= |s| && AllDigits(s)
    ensures s[0] == '0' ==> n == 0
    decreases n
  {
    if n < 10 then [DigitChar(n)] else NatToString(n / 10) + [DigitChar(n % 10)]
  }

  /** `long.ToString()`: a minus sign in front of the magnitude of a negative number. */
  function IntToString(n: int): (s: string)
    ensures 1 <= |s|
    ensures n < 0 <==> s[0] == '-'
  {
    if n < 0 then "-" + NatToString(-n) else NatToString(n)
  }

  /** The value a numeral denotes; the partner of NatToString. */
  function DigitsValue(s: string): nat
    requires AllDigits(s)
  {
    if s == [] then 0 else DigitsValue(s[..|s| - 1]) * 10 + (s[|s| - 1] as int - '0' as int)
  }

  /** Reading back a rendered numeral gives the number. */
  lemma {:induction false} NatToStringRoundTrip(n: nat)
    ensures DigitsValue(NatToString(n)) == n
    decreases n
  {
    if n >= 10 {
      NatToStringRoundTrip(n / 10);
      var s := NatToString(n);
      assert s[..|s| - 1] == NatToString(n / 10);
    }
  }

  /** Rendering is injective: different numbers never share a numeral. */
  lemma NatToStringInjective(m: nat, n: nat)
    requires NatToString(m) == NatToString(n)
    ensures m == n
  {
    NatToStringRoundTrip(m);
    NatToStringRoundTrip(n);
  }

  function Zeros(k: nat): (s: string)
    ensures |s| == k && forall i | 0 <= i < k :: s[i] == '0'
  {
    if k == 0 then "" else "0" + Zeros(k - 1)
  }

  /** `n.ToString("D4")`: the numeral padded with leading zeros to at least four digits. */
  function D4(n: nat): (s: string)
    ensures |s| == if |NatToString(n)| < 4 then 4 else |NatToString(n)|
    ensures AllDigits(s) && DigitsValue(s) == n
  {
    var digits := NatToString(n);
    NatToStringRoundTrip(n);
    var s := if |digits| < 4 then Zeros(4 - |digits|) + digits else digits;
    LeadingZerosValue(4 - |digits|, digits);
    s
  }

  lemma {:induction false} LeadingZerosValue(k: int, s: string)
    requires AllDigits(s)
    ensures k > 0 ==> AllDigits(Zeros(k) + s) && DigitsValue(Zeros(k) + s) == DigitsValue(s)
    decreases |s|
  {
    if k > 0 {
      var z := Zeros(k) + s;
      if s == [] {
        ZerosValue(k);
        assert z == Zeros(k);
      } else {
        LeadingZerosValue(k, s[..|s| - 1]);
        assert z[..|z| - 1] == Zeros(k) + s[..|s| - 1];
      }
    }
  }

  lemma {:induction false} ZerosValue(k: nat)
    ensures AllDigits(Zeros(k)) && DigitsValue(Zeros(k)) == 0
  {
    if k > 0 {
      ZerosValue(k - 1);
      assert Zeros(k)[..k - 1] == Zeros(k - 1);
    }
  }

  /** A one-digit number is padded with three zeros. */
  lemma D4Small(n: nat)
    requires n < 10
    ensures D4(n) == ['0', '0', '0', DigitChar(n)]
  {
    assert NatToString(n) == [DigitChar(n)];
    assert Zeros(3) == "000";
  }
}
