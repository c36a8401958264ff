/** The answer rate a campaign is planned with (WilsonUpper and AnswerRateBound in
    internal/campaign/capacity.go), over the reals. */
module Wilson {
  const MIN_RATE_SAMPLES := 50
  const Z95 := 1.959964
  const Z99 := 2.575829

  /** The square root, taken as exact. */
  ghost predicate IsSqrt(sqrt: real -> real) {
    forall x :: x >= 0.0 ==> sqrt(x) >= 0.0 && sqrt(x) * sqrt(x) == x
  }

  function Radicand(p: real, nf: real, z: real): real
    requires nf > 0.0
  {
    p * (1.0 - p) / nf + z * z / (4.0 * nf * nf)
  }

  /** Centre plus margin, scaled. */
  function Formula(p: real, nf: real, z: real, root: real): real
    requires nf > 0.0
  {
    (p + z * z / (2.0 * nf) + z * root) / (1.0 + z * z / nf)
  }

  function RateOf(k: int, n: int): real
    requires n > 0
  {
    k as real / n as real
  }

  /** Before the cut at 1. */
  function Uncut(k: int, n: int, z: real, sqrt: real -> real): real
    requires n > 0
  {
    Formula(RateOf(k, n), n as real, z, sqrt(Radicand(RateOf(k, n), n as real, z)))
  }

  function WilsonUpper(k: int, n: int, z: real, sqrt: real -> real): real {
    if n <= 0 then 1.0
    else
      var x := Uncut(k, n, z, sqrt);
      if x < 1.0 then x else 1.0
  }

  function AnswerRateBound(answered: int, rang: int, isTightened: bool, sqrt: real -> real): real {
    if rang < MIN_RATE_SAMPLES then 1.0
    else WilsonUpper(answered, rang, if isTightened then Z99 else Z95, sqrt)
  }

  /** Zero where x meets (x-p)^2 = c x (1-x), with c = z^2/n: x is an end of the interval. */
  function Gap(p: real, c: real, x: real): real { (x - p) * (x - p) - c * x * (1.0 - x) }

  /** u is the larger of the two ends. */
  ghost predicate IsUpperEnd(p: real, c: real, u: real) {
    Gap(p, c, u) == 0.0 && forall x :: x > u ==> Gap(p, c, x) > 0.0
  }

  /** Completing the square. */
  lemma Square(p: real, c: real, x: real)
    ensures (1.0 + c) * Gap(p, c, x) ==
            ((1.0 + c) * x - (p + c / 2.0)) * ((1.0 + c) * x - (p + c / 2.0)) - (c * p * (1.0 - p) + c * c / 4.0)
  {
    var a, h := 1.0 + c, p + c / 2.0;
    var ax := a * x;
    calc {
      a * Gap(p, c, x);
      a * (a * x * x - 2.0 * h * x + p * p);
      ax * ax - 2.0 * h * ax + a * p * p;
      (ax - h) * (ax - h) - h * h + a * p * p;
    }
  }

  /** u, scaled by 1 + c, is the centre plus the margin m. */
  predicate IsScaled(p: real, c: real, m: real, u: real) {
    && c > 0.0 && m >= 0.0 && m * m == c * p * (1.0 - p) + c * c / 4.0
    && (1.0 + c) * u == p + c / 2.0 + m
  }

  lemma UpperEnd(p: real, c: real, m: real, u: real)
    requires IsScaled(p, c, m, u)
    ensures IsUpperEnd(p, c, u)
  {
    var a, h := 1.0 + c, p + c / 2.0;
    Square(p, c, u);
    assert a * Gap(p, c, u) == 0.0;
    forall x | x > u
      ensures Gap(p, c, x) > 0.0
    {
      Square(p, c, x);
      var d, e := a * x - h, a * (x - u);
      assert e > 0.0 && d == m + e;
      assert d * d == m * m + 2.0 * m * e + e * e;
      assert m * e >= 0.0 && e * e > 0.0;
      assert a * Gap(p, c, x) > 0.0;
    }
  }

  lemma Times(x: real, y: real)
    ensures x >= 0.0 && y >= 0.0 ==> x * y >= 0.0
    ensures x > 0.0 && y > 0.0 ==> x * y > 0.0
  {
  }

  lemma Product(x: real, y: real, r: real)
    requires r == x * y && x > 0.0 && y > 0.0
    ensures r > 0.0
  {
  }

  lemma Over(x: real, y: real, d: real)
    requires d > 0.0 && x <= y
    ensures x / d <= y / d
    ensures x < y ==> x / d < y / d
    ensures 0.0 / d == 0.0
  {
    var r := 1.0 / d;
    Times(y - x, r);
    assert x / d == x * r && y / d == y * r;
  }

  lemma PositiveOver(x: real, d: real)
    requires x > 0.0 && d > 0.0
    ensures x / d > 0.0
  {
  }

  lemma SquareOver(z: real, s: real, d: real, nf: real)
    requires z > 0.0 && nf > 0.0 && s == z * z && d == 4.0 * nf * nf
    ensures d > 0.0 && s / d > 0.0
  {
    Product(z, z, s);
    Product(4.0 * nf, nf, d);
    PositiveOver(s, d);
  }

  lemma SquareGrows(x: real, y: real)
    requires 0.0 <= x <= y
    ensures x * x <= y * y
  {
    Times(y - x, y + x);
    assert y * y - x * x == (y - x) * (y + x);
  }

  /** The upper end of an interval around p lies from p to 1. */
  lemma UpperEndIsARate(p: real, c: real, u: real)
    requires c > 0.0 && 0.0 <= p <= 1.0 && IsUpperEnd(p, c, u)
    ensures p <= u <= 1.0
  {
    Times(p, 1.0 - p);
    Times(c, p * (1.0 - p));
    assert Gap(p, c, p) == -(c * (p * (1.0 - p)));
    if u > 1.0 {
      GapAboveOne(p, c, u);
    }
  }

  lemma GapAboveOne(p: real, c: real, x: real)
    requires c > 0.0 && p <= 1.0 < x
    ensures Gap(p, c, x) > 0.0
  {
    var f, y := x - p, x - 1.0;
    var ff, xy := f * f, x * y;
    Product(f, f, ff);
    Product(x, y, xy);
    Product(c, xy, c * xy);
    GapAsASum(p, c, x, ff, xy);
  }

  lemma GapAsASum(p: real, c: real, x: real, ff: real, xy: real)
    requires ff == (x - p) * (x - p) && xy == x * (x - 1.0)
    ensures Gap(p, c, x) == ff + c * xy
  {
    assert c * x * (1.0 - x) == c * (x * (1.0 - x));
    assert x * (1.0 - x) == -xy;
  }

  lemma UpperEndGrowsWithP(p1: real, p2: real, c: real, u1: real, u2: real)
    requires c > 0.0 && 0.0 <= p1 <= p2 <= 1.0 && IsUpperEnd(p1, c, u1) && IsUpperEnd(p2, c, u2)
    ensures u1 <= u2
  {
    UpperEndIsARate(p1, c, u1);
    UpperEndIsARate(p2, c, u2);
    if u1 > p2 {
      SquareGrows(u1 - p2, u1 - p1);
      GapDiffers(p1, p2, c, c, u1);
    }
  }

  lemma GapDiffers(p1: real, p2: real, c1: real, c2: real, x: real)
    ensures Gap(p2, c2, x) - Gap(p1, c1, x) ==
            (x - p2) * (x - p2) - (x - p1) * (x - p1) - (c2 - c1) * (x * (1.0 - x))
  {
  }

  lemma UpperEndGrowsWithC(p: real, c1: real, c2: real, u1: real, u2: real)
    requires 0.0 < c1 <= c2 && 0.0 <= p <= 1.0 && IsUpperEnd(p, c1, u1) && IsUpperEnd(p, c2, u2)
    ensures u1 <= u2
  {
    UpperEndIsARate(p, c1, u1);
    Times(u1, 1.0 - u1);
    Times(c2 - c1, u1 * (1.0 - u1));
    GapDiffers(p, p, c1, c2, u1);
  }

  //
  // The code's formula.
  //

  /** The margin squared, in terms of r = 1/n, q = p (1-p) and z^2. */
  lemma MarginSquared(q: real, r: real, z2: real, root2: real)
    requires root2 == q * r + z2 * r * r / 4.0
    ensures z2 * root2 == z2 * r * q + (z2 * r) * (z2 * r) / 4.0
  {
    assert z2 * (q * r) == z2 * r * q;
    assert z2 * (z2 * r * r / 4.0) == (z2 * r) * (z2 * r) / 4.0;
  }

  lemma RadicandParts(p: real, nf: real, z: real)
    requires nf > 0.0
    ensures Radicand(p, nf, z) == p * (1.0 - p) * (1.0 / nf) + z * z * (1.0 / nf) * (1.0 / nf) / 4.0
  {
    var r, z2, q := 1.0 / nf, z * z, p * (1.0 - p);
    assert q / nf == q * r;
    assert z2 / (4.0 * nf * nf) == z2 * r * r / 4.0;
  }

  lemma SquareOfProduct(z: real, root: real, m: real)
    requires m == z * root
    ensures m * m == z * z * (root * root)
  {
  }

  /** The margin squared in terms of c = z^2/n. */
  lemma MarginOf(p: real, nf: real, z: real, root: real, c: real, m: real)
    requires nf > 0.0 && root * root == Radicand(p, nf, z) && c == z * z / nf && m == z * root
    ensures m * m == c * p * (1.0 - p) + c * c / 4.0
  {
    var r, q, z2 := 1.0 / nf, p * (1.0 - p), z * z;
    RadicandParts(p, nf, z);
    SquareOfProduct(z, root, m);
    MarginSquared(q, r, z2, root * root);
    assert c == z2 * r;
    assert c * q == c * p * (1.0 - p);
  }

  /** What the margin and the formula come to in terms of c = z^2/n. */
  lemma FormulaParts(p: real, nf: real, z: real, root: real, c: real, m: real)
    requires nf > 0.0 && z > 0.0 && root >= 0.0 && root * root == Radicand(p, nf, z)
    requires c == z * z / nf && m == z * root
    ensures IsScaled(p, c, m, Formula(p, nf, z, root))
  {
    MarginOf(p, nf, z, root, c, m);
    Spread(z, z, nf);
    Times(z, root);
    FormulaTimesScale(p, nf, z, root, c);
  }

  lemma RadicandIsNotNegative(p: real, nf: real, z: real)
    requires nf > 0.0 && 0.0 <= p <= 1.0 && z > 0.0
    ensures Radicand(p, nf, z) >= 0.0
  {
    Times(p, 1.0 - p);
    Over(0.0, p * (1.0 - p), nf);
    SquareOver(z, z * z, 4.0 * nf * nf, nf);
  }

  lemma Cancel(x: real, d: real)
    requires d > 0.0
    ensures d * (x / d) == x
  {
  }

  lemma HalfOf(x: real, y: real)
    requires y > 0.0
    ensures x / (2.0 * y) == x / y / 2.0
  {
  }

  /** z^2/n, which is positive and grows with z. */
  lemma Spread(z1: real, z2: real, nf: real)
    requires nf > 0.0 && 0.0 < z1 <= z2
    ensures 0.0 < z1 * z1 / nf <= z2 * z2 / nf
  {
    SquareGrows(z1, z2);
    Product(z1, z1, z1 * z1);
    PositiveOver(z1 * z1, nf);
    Over(z1 * z1, z2 * z2, nf);
  }

  /** The formula is the larger root of (x-p)^2 = z^2 x(1-x)/n. */
  lemma FormulaIsTheUpperEnd(p: real, nf: real, z: real, root: real, c: real)
    requires nf > 0.0 && z > 0.0 && root >= 0.0 && root * root == Radicand(p, nf, z) && c == z * z / nf
    ensures IsUpperEnd(p, c, Formula(p, nf, z, root))
  {
    var m, u := z * root, Formula(p, nf, z, root);
    FormulaParts(p, nf, z, root, c, m);
    UpperEnd(p, c, m, u);
  }

  lemma FormulaTimesScale(p: real, nf: real, z: real, root: real, c: real)
    requires nf > 0.0 && c == z * z / nf && c > 0.0
    ensures (1.0 + c) * Formula(p, nf, z, root) == p + c / 2.0 + z * root
  {
    HalfOf(z * z, nf);
    Cancel(p + z * z / (2.0 * nf) + z * root, 1.0 + c);
  }

  lemma RatesAreRates(k1: int, k2: int, n: int)
    requires n > 0 && 0 <= k1 <= k2 <= n
    ensures 0.0 <= RateOf(k1, n) <= RateOf(k2, n) <= 1.0
  {
    Over(0.0, k1 as real, n as real);
    Over(k1 as real, k2 as real, n as real);
    Over(k2 as real, n as real, n as real);
  }

  /** WilsonUpper is the larger root, which is a rate no lower than the one observed: the
      cut at 1 changes nothing. */
  lemma WilsonIsTheUpperEnd(k: int, n: int, z: real, sqrt: real -> real)
    requires IsSqrt(sqrt) && n > 0 && 0 <= k <= n && z > 0.0
    ensures IsUpperEnd(RateOf(k, n), z * z / n as real, WilsonUpper(k, n, z, sqrt))
    ensures RateOf(k, n) <= WilsonUpper(k, n, z, sqrt) <= 1.0
  {
    var p, nf := RateOf(k, n), n as real;
    var u := Uncut(k, n, z, sqrt);
    RatesAreRates(k, k, n);
    RadicandIsNotNegative(p, nf, z);
    FormulaIsTheUpperEnd(p, nf, z, sqrt(Radicand(p, nf, z)), z * z / nf);
    Spread(z, z, nf);
    UpperEndIsARate(p, z * z / nf, u);
  }

  /** More answers never lower it, */
  lemma WilsonGrowsWithAnswers(k1: int, k2: int, n: int, z: real, sqrt: real -> real)
    requires IsSqrt(sqrt) && n > 0 && 0 <= k1 <= k2 <= n && z > 0.0
    ensures WilsonUpper(k1, n, z, sqrt) <= WilsonUpper(k2, n, z, sqrt)
  {
    WilsonIsTheUpperEnd(k1, n, z, sqrt);
    WilsonIsTheUpperEnd(k2, n, z, sqrt);
    RatesAreRates(k1, k2, n);
    Spread(z, z, n as real);
    UpperEndGrowsWithP(RateOf(k1, n), RateOf(k2, n), z * z / n as real,
                       WilsonUpper(k1, n, z, sqrt), WilsonUpper(k2, n, z, sqrt));
  }

  /** nor does a larger z. */
  lemma WilsonGrowsWithZ(k: int, n: int, z1: real, z2: real, sqrt: real -> real)
    requires IsSqrt(sqrt) && n > 0 && 0 <= k <= n && 0.0 < z1 <= z2
    ensures WilsonUpper(k, n, z1, sqrt) <= WilsonUpper(k, n, z2, sqrt)
  {
    WilsonIsTheUpperEnd(k, n, z1, sqrt);
    WilsonIsTheUpperEnd(k, n, z2, sqrt);
    RatesAreRates(k, k, n);
    Spread(z1, z2, n as real);
    UpperEndGrowsWithC(RateOf(k, n), z1 * z1 / n as real, z2 * z2 / n as real,
                       WilsonUpper(k, n, z1, sqrt), WilsonUpper(k, n, z2, sqrt));
  }

  /** Tightening never lowers the bound a campaign is planned with, and the bound never
      falls below the rate observed. */
  lemma TighteningNeverLowersTheBound(answered: int, rang: int, sqrt: real -> real)
    requires IsSqrt(sqrt) && 0 <= answered <= rang
    ensures AnswerRateBound(answered, rang, false, sqrt) <= AnswerRateBound(answered, rang, true, sqrt) <= 1.0
    ensures rang > 0 ==> RateOf(answered, rang) <= AnswerRateBound(answered, rang, false, sqrt)
  {
    if rang > 0 {
      RatesAreRates(answered, answered, rang);
      WilsonIsTheUpperEnd(answered, rang, Z95, sqrt);
      WilsonIsTheUpperEnd(answered, rang, Z99, sqrt);
      WilsonGrowsWithZ(answered, rang, Z95, Z99, sqrt);
    }
  }
}
