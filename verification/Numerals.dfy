/** Numbers as text, with leading zeros or with a fixed number of decimals. */
module Numerals {

  function Digit(n: nat): char
    requires n < 10
  {
    "0123456789"[n]
  }

  function Decimal(n: nat): string {
    if n < 10 then [Digit(n)] else Decimal(n / 10) + [Digit(n % 10)]
  }

  function Zeros(n: nat): string { if n == 0 then "" else "0" + Zeros(n - 1) }

  /** A number with leading zeros up to a width. */
  function Padded(n: nat, width: nat): string {
    var d := Decimal(n);
    if |d| >= width then d else Zeros(width - |d|) + d
  }

  predicate IsNumeral(s: string) { forall i :: 0 <= i < |s| ==> '0' <= s[i] <= '9' }

  function Number(s: string): nat
    requires IsNumeral(s)
  {
    if s == "" then 0 else 10 * Number(s[..|s| - 1]) + (s[|s| - 1] - '0') as nat
  }

  lemma {:induction false} DecimalReads(n: nat)
    ensures IsNumeral(Decimal(n)) && Number(Decimal(n)) == n
  {
    if n >= 10 {
      DecimalReads(n / 10);
      assert Decimal(n)[..|Decimal(n)| - 1] == Decimal(n / 10);
    }
  }

  lemma ZeroMore(s: string)
    requires IsNumeral(s)
    ensures IsNumeral(s + "0") && Number(s + "0") == 10 * Number(s)
  {
    assert (s + "0")[..|s|] == s;
  }

  lemma {:induction false} ZerosAgree(k: nat)
    requires k > 0
    ensures Zeros(k) == Zeros(k - 1) + "0"
  {
    if k > 1 {
      ZerosAgree(k - 1);
    }
  }

  lemma {:induction false} ZerosAlone(k: nat)
    ensures IsNumeral(Zeros(k)) && Number(Zeros(k)) == 0
  {
    if k > 0 {
      ZerosAlone(k - 1);
      ZerosAgree(k);
      ZeroMore(Zeros(k - 1));
    }
  }

  lemma {:induction false} ZerosRead(k: nat, s: string)
    requires IsNumeral(s)
    ensures IsNumeral(Zeros(k) + s) && Number(Zeros(k) + s) == Number(s)
    decreases |s|
  {
    ZerosAlone(k);
    if s == "" {
      assert Zeros(k) + s == Zeros(k);
    } else {
      ZerosRead(k, s[..|s| - 1]);
      assert (Zeros(k) + s)[..|Zeros(k) + s| - 1] == Zeros(k) + s[..|s| - 1];
    }
  }

  /** A padded number reads back. */
  lemma PaddedReads(n: nat, width: nat)
    ensures IsNumeral(Padded(n, width)) && Number(Padded(n, width)) == n
  {
    DecimalReads(n);
    ZerosRead(if |Decimal(n)| >= width then 0 else width - |Decimal(n)|, Decimal(n));
  }

  function Power10(width: nat): nat { if width == 0 then 1 else 10 * Power10(width - 1) }

  /** A numeral has no needless digit in front. */
  lemma {:induction false} DecimalLength(n: nat, width: nat)
    requires width > 0
    ensures |Decimal(n)| <= width <==> n < Power10(width)
    decreases n
  {
    if n < 10 {
      assert |Decimal(n)| == 1;
      PowerGrows(width);
    } else {
      assert |Decimal(n)| == |Decimal(n / 10)| + 1;
      if width == 1 {
        DecimalLength(n / 10, 1);
      } else {
        DecimalLength(n / 10, width - 1);
        assert n < 10 * Power10(width - 1) <==> n / 10 < Power10(width - 1);
      }
    }
  }

  lemma {:induction false} PowerGrows(width: nat)
    requires width > 0
    ensures Power10(width) >= 10
  {
    if width > 1 { PowerGrows(width - 1); }
  }

  /** Padding brings a number that fits to the width, and leaves a longer one alone. */
  lemma PaddedLength(n: nat, width: nat)
    requires width > 0
    ensures n < Power10(width) ==> |Padded(n, width)| == width
    ensures n >= Power10(width) ==> Padded(n, width) == Decimal(n)
  {
    DecimalLength(n, width);
    ZerosLength(if |Decimal(n)| >= width then 0 else width - |Decimal(n)|);
    if n >= Power10(width) { LongNumeral(n, width); }
  }

  lemma {:induction false} ZerosLength(k: nat)
    ensures |Zeros(k)| == k
  {
    if k > 0 { ZerosLength(k - 1); }
  }

  lemma LongNumeral(n: nat, width: nat)
    requires width > 0 && n >= Power10(width)
    ensures |Decimal(n)| > width
  {
    DecimalLength(n, width);
  }

  lemma SameTail(prefix: string, a: string, b: string)
    requires prefix + a == prefix + b
    ensures a == b
  {
    assert a == (prefix + a)[|prefix|..] && b == (prefix + b)[|prefix|..];
  }

  lemma SameHead(a: string, b: string, suffix: string)
    requires a + suffix == b + suffix
    ensures a == b
  {
    assert |a| == |b|;
    assert a == (a + suffix)[..|a|] && b == (b + suffix)[..|b|];
  }

  /** A sign in front of a numeral. */
  function Signed(n: int, width: nat, negativeWidth: nat): string {
    if n < 0 then "-" + Padded(-n, negativeWidth) else Padded(n, width)
  }

  lemma {:induction false} DecimalNotEmpty(n: nat)
    ensures Decimal(n) != ""
  {
  }

  lemma PaddedNotEmpty(n: nat, width: nat)
    ensures Padded(n, width) != "" && Padded(n, width)[0] != '-'
  {
    DecimalNotEmpty(n);
    PaddedReads(n, width);
    assert '0' <= Padded(n, width)[0];
  }

  lemma SignShows(n: int, width: nat, negativeWidth: nat)
    ensures var s := Signed(n, width, negativeWidth); s != "" && (s[0] == '-' <==> n < 0)
  {
    PaddedNotEmpty(if n < 0 then -n else n, if n < 0 then negativeWidth else width);
  }

  /** A signed numeral reads back. */
  lemma SignedReads(m: int, n: int, width: nat, negativeWidth: nat)
    requires Signed(m, width, negativeWidth) == Signed(n, width, negativeWidth)
    ensures m == n
  {
    SignShows(m, width, negativeWidth);
    SignShows(n, width, negativeWidth);
    if m < 0 {
      SamePadded("-", -m, -n, negativeWidth);
    } else {
      assert "" + Padded(m, width) == "" + Padded(n, width);
      SamePadded("", m, n, width);
    }
  }

  lemma SamePadded(prefix: string, m: nat, n: nat, width: nat)
    requires prefix + Padded(m, width) == prefix + Padded(n, width)
    ensures m == n
  {
    SameTail(prefix, Padded(m, width), Padded(n, width));
    PaddedReads(m, width);
    PaddedReads(n, width);
  }

  const DECIMALS: nat := 18

  const SCALE: nat := 1_000_000_000_000_000_000

  type Positive = n: int | 0 < n witness 1

  /** The whole and the fractional part of a ratio, the latter in units of the last
      decimal, rounded half away from zero. */
  function Rounded(num: nat, den: Positive): (nat, nat) {
    var whole, units, left := num / den, num % den * SCALE / den, num % den * SCALE % den;
    var up := if den <= 2 * left then units + 1 else units;
    if up >= SCALE then (whole + 1, up - SCALE) else (whole, up)
  }

  function FixedPoint(num: int, den: Positive): string {
    var (whole, units) := Rounded(if num < 0 then -num else num, den);
    (if num < 0 then "-" else "") + Decimal(whole) + "." + Padded(units, DECIMALS)
  }

  lemma FixedPointHasPoint(num: int, den: Positive)
    ensures '.' in FixedPoint(num, den)
  {
  }

  /** Rounding loses the smallest ratios. */
  lemma FixedPointRounds()
    ensures FixedPoint(1, 10 * SCALE) == FixedPoint(0, 1)
  {
    assert Rounded(1, 10 * SCALE) == (0, 0) == Rounded(0, 1);
  }

  /** The written ratio is the nearest number with eighteen decimals, and of two that
      are equally near the one further from zero. */
  lemma FixedPointNearest(num: int, den: Positive) returns (whole: nat, units: nat)
    ensures units < SCALE
    ensures FixedPoint(num, den) == (if num < 0 then "-" else "") + Decimal(whole) + "." + Padded(units, 18)
    ensures var written, exact := (whole * SCALE + units) * den, (if num < 0 then -num else num) * SCALE;
            0 - den < 2 * (written - exact) <= den
  {
    var n := if num < 0 then -num else num;
    var rounded := Rounded(n, den);
    whole, units := rounded.0, rounded.1;
    RoundedNearest(n, den);
  }

  lemma RoundedNearest(n: nat, den: Positive)
    ensures var (whole, units) := Rounded(n, den);
            units < SCALE && 0 - den < 2 * ((whole * SCALE + units) * den - n * SCALE) <= den
  {
    var w, m := n / den, n % den;
    var u, left := m * SCALE / den, m * SCALE % den;
    assert n == w * den + m && m * SCALE == u * den + left;
    UnitsFit(m, den, u, left);
    var up := if den <= 2 * left then u + 1 else u;
    UpNear(m, den, u, left, up);
    Spread(w, up, den, m, n);
    var (whole, units) := Rounded(n, den);
    assert whole * SCALE + units == w * SCALE + up;
  }

  lemma UpNear(m: nat, den: Positive, u: nat, left: nat, up: nat)
    requires m * SCALE == u * den + left && left < den
    requires up == if den <= 2 * left then u + 1 else u
    ensures 0 - den < 2 * (up * den - m * SCALE) <= den
  {
    assert (u + 1) * den == u * den + den;
  }

  lemma Spread(w: nat, up: nat, den: Positive, m: nat, n: nat)
    requires n == w * den + m
    ensures (w * SCALE + up) * den - n * SCALE == up * den - m * SCALE
  {
    assert (w * SCALE + up) * den == w * SCALE * den + up * den;
    assert (w * den + m) * SCALE == w * den * SCALE + m * SCALE;
    assert w * SCALE * den == w * den * SCALE;
  }

  lemma UnitsFit(m: nat, den: Positive, u: nat, left: nat)
    requires m < den && m * SCALE == u * den + left && left < den
    ensures u < SCALE
  {
    assert m * SCALE < den * SCALE;
    assert u * den < SCALE * den;
  }
}
