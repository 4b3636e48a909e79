/**
 * Decimal rendering of a row or item index, as a JavaScript template
 * literal `${i}` prints a non-negative integer, with the reading-back
 * function that shows the rendering loses nothing (so keys built from
 * distinct indices are distinct).
 */
module Decimal {

  function DigitChar(d: nat): (c: char)
    requires d < 10
    ensures '0' <= c <= '9'
  {
    "0123456789"[d]
  }

  function DigitValue(c: char): (d: nat)
    requires '0' <= c <= '9'
    ensures d < 10
  {
    (c as int) - ('0' as int)
  }

  /** `${n}`: the shortest decimal spelling of `n`, most significant digit first. */
  function Show(n: nat): (s: string)
    ensures |s| >= 1
    ensures forall k :: 0 <= k < |s| ==> '0' <= s[k] <= '9'
    ensures n < 10 <==> |s| == 1
  {
    if n < 10 then [DigitChar(n)] else Show(n / 10) + [DigitChar(n % 10)]
  }

  /** The value of a string of decimal digits. */
  function Value(s: string): (n: nat)
    requires forall k :: 0 <= k < |s| ==> '0' <= s[k] <= '9'
  {
    if s == [] then 0 else 10 * Value(s[..|s| - 1]) + DigitValue(s[|s| - 1])
  }

  lemma DigitRoundTrip(d: nat)
    requires d < 10
    ensures DigitValue(DigitChar(d)) == d
  {
  }

  /** Reading back what `Show` printed gives the number again. */
  lemma {:induction false} ShowRoundTrip(n: nat)
    ensures Value(Show(n)) == n
  {
    var s := Show(n);
    if n < 10 {
      DigitRoundTrip(n);
      assert s[..0] == [];
    } else {
      ShowRoundTrip(n / 10);
      DigitRoundTrip(n % 10);
      assert s[..|s| - 1] == Show(n / 10);
    }
  }

  /** Distinct numbers are printed differently. */
  lemma ShowInjective(m: nat, n: nat)
    ensures Show(m) == Show(n) <==> m == n
  {
    if Show(m) == Show(n) {
      ShowRoundTrip(m);
      ShowRoundTrip(n);
    }
  }
}
