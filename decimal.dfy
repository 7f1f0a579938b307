/** Decimal rendering of whole numbers: the digits `String(n)` prints, the
    zero padding of `padStart(w, '0')`, and the fixed-width fields of
    `Date.prototype.toISOString`. */
module Decimal {
  import opened Common

  function DigitChar(d: int): (c: char)
    requires 0 <= d < 10
    ensures '0' <= c <= '9'
  {
    (48 + d) as char
  }

  predicate IsDigit(c: char) { '0' <= c <= '9' }

  predicate AllDigits(s: string) { forall i :: 0 <= i < |s| ==> IsDigit(s[i]) }

  function DigitValue(c: char): int { c as int - 48 }

  /** The number a string of decimal digits denotes, most significant first. */
  function DigitsValue(s: string): int
    decreases |s|
  {
    if s == [] then 0 else 10 * DigitsValue(s[..|s| - 1]) + DigitValue(s[|s| - 1])
  }

  function Pow10(w: nat): (p: nat)
    ensures p >= 1
  {
    if w == 0 then 1 else 10 * Pow10(w - 1)
  }

  /** `n` written in exactly `w` digits, leading zeros kept. */
  function Fixed(n: nat, w: nat): (s: string)
    ensures |s| == w
    ensures AllDigits(s)
  {
    if w == 0 then "" else Fixed(n / 10, w - 1) + [DigitChar(n % 10)]
  }

  /** `String(n)` for a natural number: no leading zeros, "0" for zero. */
  function Digits(n: nat): (s: string)
    ensures |s| >= 1
    ensures AllDigits(s)
  {
    if n < 10 then [DigitChar(n)] else Digits(n / 10) + [DigitChar(n % 10)]
  }

  /** `String(i)` for an integer. */
  function IntString(i: int): string
  {
    if i < 0 then "-" + Digits(-i) else Digits(i)
  }

  function Repeat(c: char, k: nat): (s: string)
    ensures |s| == k
    ensures forall i :: 0 <= i < k ==> s[i] == c
  {
    if k == 0 then "" else Repeat(c, k - 1) + [c]
  }

  /** `s.padStart(w, c)`. */
  function PadStart(s: string, w: nat, c: char): (r: string)
    ensures |r| == if |s| >= w then |s| else w
    ensures r[|r| - |s|..] == s
  {
    if |s| >= w then s else Repeat(c, w - |s|) + s
  }

  /* ---------------- decoding ---------------- */

  lemma DigitsValueSnoc(s: string, c: char)
    ensures DigitsValue(s + [c]) == 10 * DigitsValue(s) + DigitValue(c)
  {
    assert (s + [c])[..|s + [c]| - 1] == s;
  }

  /** A fixed-width field reads back as the number it was written from. */
  lemma {:induction false} FixedValue(n: nat, w: nat)
    requires n < Pow10(w)
    ensures DigitsValue(Fixed(n, w)) == n
    decreases w
  {
    if w > 0 {
      FixedValue(n / 10, w - 1);
      DigitsValueSnoc(Fixed(n / 10, w - 1), DigitChar(n % 10));
    }
  }

  lemma {:induction false} DigitsValueOf(n: nat)
    ensures DigitsValue(Digits(n)) == n
    decreases n
  {
    if n < 10 {
      assert Digits(n) == [] + [DigitChar(n)];
      DigitsValueSnoc([], DigitChar(n));
    } else {
      DigitsValueOf(n / 10);
      DigitsValueSnoc(Digits(n / 10), DigitChar(n % 10));
    }
  }

  lemma DigitsInjective(a: nat, b: nat)
    requires Digits(a) == Digits(b)
    ensures a == b
  {
    DigitsValueOf(a);
    DigitsValueOf(b);
  }

  /** `String` of an integer is one-to-one. */
  lemma IntStringInjective(a: int, b: int)
    requires IntString(a) == IntString(b)
    ensures a == b
  {
    SignChar(a);
    SignChar(b);
    if a < 0 && b < 0 {
      assert IntString(a)[1..] == Digits(-a);
      assert IntString(b)[1..] == Digits(-b);
      DigitsInjective(-a, -b);
    } else if a >= 0 && b >= 0 {
      DigitsInjective(a, b);
    }
  }

  /** `String(i)` starts with a minus sign exactly for a negative `i`. */
  lemma SignChar(i: int)
    ensures |IntString(i)| >= 1
    ensures IntString(i)[0] == '-' <==> i < 0
  {
    if i >= 0 {
      assert IsDigit(Digits(i)[0]);
    }
  }

  lemma {:induction false} FixedInjective(a: nat, b: nat, w: nat)
    requires a < Pow10(w) && b < Pow10(w)
    requires Fixed(a, w) == Fixed(b, w)
    ensures a == b
  {
    FixedValue(a, w);
    FixedValue(b, w);
  }

  /* ---------------- order ---------------- */

  /** Equal-width digit fields compare as strings exactly as their numbers
      compare: the reason ISO 8601 text sorts chronologically. */
  lemma {:induction false} FixedOrder(a: nat, b: nat, w: nat)
    requires a < Pow10(w) && b < Pow10(w)
    ensures LexLess(Fixed(a, w), Fixed(b, w)) <==> a < b
    decreases w
  {
    if w == 0 {
    } else {
      var ha, hb := Fixed(a / 10, w - 1), Fixed(b / 10, w - 1);
      var ca, cb := DigitChar(a % 10), DigitChar(b % 10);
      FixedOrder(a / 10, b / 10, w - 1);
      LexFields(ha, hb, [ca], [cb]);
      if ha == hb {
        FixedInjective(a / 10, b / 10, w - 1);
      }
    }
  }

  /** `padStart(w, '0')` of the decimal digits is the fixed-width field. */
  lemma {:induction false} PadDigits(n: nat, w: nat)
    requires 1 <= w && n < Pow10(w)
    ensures PadStart(Digits(n), w, '0') == Fixed(n, w)
    decreases w
  {
    var c := DigitChar(n % 10);
    if n < 10 {
      ZeroField(w - 1);
      assert n / 10 == 0 && n % 10 == n;
      assert Fixed(n, w) == Repeat('0', w - 1) + [c];
      assert Digits(n) == [c];
    } else {
      assert Pow10(1) == 10;
      assert w >= 2;
      PadDigits(n / 10, w - 1);
      var d := Digits(n / 10);
      PadSnoc(d, c, w - 1);
    }
  }

  lemma PadSnoc(d: string, c: char, w: nat)
    requires |d| <= w
    ensures PadStart(d + [c], w + 1, '0') == PadStart(d, w, '0') + [c]
  {
    var z := Repeat('0', w - |d|);
    ConcatAssoc(z, d, [c]);
  }

  lemma {:induction false} ZeroField(k: nat)
    ensures Fixed(0, k) == Repeat('0', k)
    decreases k
  {
    if k > 0 {
      ZeroField(k - 1);
    }
  }

  /** Strings that begin with fields of the same width compare field first,
      then by what follows. */
  lemma LexFields(a1: string, a2: string, x1: string, x2: string)
    requires |a1| == |a2|
    ensures LexLess(a1 + x1, a2 + x2) <==> LexLess(a1, a2) || (a1 == a2 && LexLess(x1, x2))
  {
    if a1 == a2 {
      LexLessCommonPrefix(a1, x1, x2);
      LexLessIrreflexive(a1);
    } else {
      LexLessSameLengthPrefix(a1, a2, x1, x2);
    }
  }
}
