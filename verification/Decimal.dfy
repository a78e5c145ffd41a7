/** Decimal numerals as text. */
module Decimal {
  import opened Chars

  function Digit(d: nat): char
    requires d < 10
  {
    ['0', '1', '2', '3', '4', '5', '6', '7', '8', '9'][d]
  }

  predicate AllDigits(s: string) {
    forall i :: 0 <= i < |s| ==> IsDigit(s[i])
  }

  function DigitValue(c: char): nat {
    if IsDigit(c) then (c as int) - ('0' as int) else 0
  }

  /** std::to_string of a whole number that is not negative. */
  function ToDec(n: nat): (s: string)
    ensures s != "" && AllDigits(s)
  {
    if n < 10 then [Digit(n)] else ToDec(n / 10) + [Digit(n % 10)]
  }

  function FromDec(s: string): nat {
    if s == "" then 0 else FromDec(s[..|s| - 1]) * 10 + DigitValue(s[|s| - 1])
  }

  lemma DigitBack(d: nat)
    requires d < 10
    ensures IsDigit(Digit(d)) && DigitValue(Digit(d)) == d
  {
  }

  /** A printed number reads back as itself. */
  lemma {:induction false} DecRoundTrip(n: nat)
    ensures FromDec(ToDec(n)) == n
  {
    if n < 10 {
      DigitBack(n);
      assert FromDec("") == 0;
      assert [Digit(n)][..0] == "";
    } else {
      DecRoundTrip(n / 10);
      DigitBack(n % 10);
      assert ToDec(n)[..|ToDec(n)| - 1] == ToDec(n / 10);
    }
  }

  /** Different numbers print differently. */
  lemma ToDecInjective(a: nat, b: nat)
    requires ToDec(a) == ToDec(b)
    ensures a == b
  {
    DecRoundTrip(a);
    DecRoundTrip(b);
  }

  function Pow10(k: nat): (p: nat)
    ensures p > 0
  {
    if k == 0 then 1 else 10 * Pow10(k - 1)
  }

  /** n in k digits. */
  function PadTo(n: nat, k: nat): (s: string)
    ensures |s| == k && AllDigits(s)
  {
    if k == 0 then "" else PadTo(n / 10, k - 1) + [Digit(n % 10)]
  }

  lemma {:induction false} PadValue(n: nat, k: nat)
    requires n < Pow10(k)
    ensures FromDec(PadTo(n, k)) == n
  {
    if k > 0 {
      PadValue(n / 10, k - 1);
      DigitBack(n % 10);
      assert PadTo(n, k)[..k - 1] == PadTo(n / 10, k - 1);
    }
  }

  /** How many characters from position d on are digits, counted from the start. */
  function DigitRun(s: string, d: nat): (n: nat)
    requires d <= |s|
    ensures d <= n <= |s| && (n < |s| ==> !IsDigit(s[n]))
    ensures forall i :: d <= i < n ==> IsDigit(s[i])
    decreases |s| - d
  {
    if d < |s| && IsDigit(s[d]) then DigitRun(s, d + 1) else d
  }
}
