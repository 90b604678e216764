/** Zero-padded decimal numbers. */
module Decimals {
  predicate IsDigit(c: char)
  {
    '0' <= c <= '9'
  }

  predicate AllDigits(s: string)
  {
    forall i :: 0 <= i < |s| ==> IsDigit(s[i])
  }

  function DigitChar(n: nat): char
    requires n < 10
  {
    ('0' as int + n) as char
  }

  /** Decimal digits of n, padded with zeros to at least `width`. */
  function PadDigits(n: nat, width: nat): string
    decreases n + width
  {
    if n < 10 && width <= 1 then [DigitChar(n)]
    else PadDigits(n / 10, if width > 0 then width - 1 else 0) + [DigitChar(n % 10)]
  }

  function ParseDigits(s: string): nat
    requires AllDigits(s)
  {
    if s == [] then 0
    else ParseDigits(s[..|s| - 1]) * 10 + (s[|s| - 1] as int - '0' as int)
  }

  function Power10(n: nat): nat
  {
    if n == 0 then 1 else 10 * Power10(n - 1)
  }

  lemma ParseDigitsSnoc(s: string, c: char)
    requires AllDigits(s) && IsDigit(c)
    ensures AllDigits(s + [c]) && ParseDigits(s + [c]) == ParseDigits(s) * 10 + (c as int - '0' as int)
  {
    assert (s + [c])[..|s|] == s;
  }

  lemma {:induction false} PadDigitsRoundTrip(n: nat, width: nat)
    ensures AllDigits(PadDigits(n, width)) && ParseDigits(PadDigits(n, width)) == n
    decreases n + width
  {
    hide ParseDigits;
    if n < 10 && width <= 1 {
      assert ParseDigits([]) == 0 by { ParseNoDigits(); }
      ParseDigitsSnoc([], DigitChar(n));
      assert [] + [DigitChar(n)] == [DigitChar(n)];
    } else {
      var w := if width > 0 then width - 1 else 0;
      PadDigitsRoundTrip(n / 10, w);
      ParseDigitsSnoc(PadDigits(n / 10, w), DigitChar(n % 10));
    }
  }

  lemma ParseNoDigits()
    ensures ParseDigits([]) == 0
  {
  }

  /** The width is met exactly when the number fits it. */
  lemma {:induction false} PadDigitsLength(n: nat, width: nat)
    requires width > 0
    ensures |PadDigits(n, width)| >= width
    ensures |PadDigits(n, width)| == width <==> n < Power10(width)
    decreases n + width
  {
    if width == 1 {
      assert Power10(1) == 10;
      if n >= 10 {
        PadDigitsNonempty(n / 10, 0);
      }
    } else {
      PadDigitsLength(n / 10, width - 1);
      assert Power10(width) == 10 * Power10(width - 1);
    }
  }

  lemma PadDigitsNonempty(n: nat, width: nat)
    ensures |PadDigits(n, width)| > 0
  {
  }

  /** Different numbers have different texts. */
  lemma PadDigitsInjective(m: nat, n: nat, width: nat)
    ensures PadDigits(m, width) == PadDigits(n, width) ==> m == n
  {
    PadDigitsRoundTrip(m, width);
    PadDigitsRoundTrip(n, width);
  }

  lemma {:induction false} PadDigitsStart(n: nat, width: nat)
    ensures PadDigits(n, width) != [] && IsDigit(PadDigits(n, width)[0])
    decreases n + width
  {
    if !(n < 10 && width <= 1) {
      PadDigitsStart(n / 10, if width > 0 then width - 1 else 0);
    }
  }
}
