/**
 * The four basis cubics of an interior segment add up to the constant 1
 * (the partition of unity of the cubic B-splines on the padded knots), so
 * a spline whose four coefficients over a segment are all c is the
 * constant c on that segment.
 *
 * Each power-basis coefficient of the sum is a sum of fractions over the
 * prefactors p, q, r, s. The proof pairs the fractions that share a
 * denominator, cancels one factor of the prefactor from each pair, then
 * pairs the results again. Every step is its own small lemma over named
 * differences d41 = u4 - u1, ..., d63 = u6 - u3 of the padded knots.
 */
module BasisPartition {
  import opened Numerics
  import opened CubicSplineBasis

  // ---------------------------------------------------------------------
  // Fractions

  lemma AddFractions(a: real, b: real, n: real, x: real)
    requires n != 0.0 && a + b == x
    ensures a / n + b / n == x / n
  {
  }

  lemma SubtractFractions(a: real, b: real, n: real, x: real)
    requires n != 0.0 && a - b == x
    ensures a / n - b / n == x / n
  {
  }

  lemma Opposite(w: real)
    requires w != 0.0
    ensures -1.0 / w == -(1.0 / w)
  {
  }

  lemma SelfQuotient(w: real)
    requires w != 0.0
    ensures w / w == 1.0
  {
  }

  /** n x / (x y z) = n / (y z). */
  lemma CancelFirstFactor(n: real, x: real, y: real, z: real)
    requires x != 0.0 && y != 0.0 && z != 0.0
    ensures Product(y, z) != 0.0
    ensures (n * x) / Product3(x, y, z) == n / Product(y, z)
  {
    var w := y * z;
    assert Product3(x, y, z) == x * w;
    assert x * w != 0.0;
  }

  /** n y / (x y z) = n / (x z). */
  lemma CancelSecondFactor(n: real, x: real, y: real, z: real)
    requires x != 0.0 && y != 0.0 && z != 0.0
    ensures Product(x, z) != 0.0
    ensures (n * y) / Product3(x, y, z) == n / Product(x, z)
  {
    var w := x * z;
    assert Product3(x, y, z) == y * w;
    assert y * w != 0.0;
  }

  /** n x / (x y) = n / y. */
  lemma CancelFactor(n: real, x: real, y: real)
    requires x != 0.0 && y != 0.0
    ensures (n * x) / Product(x, y) == n / y
  {
    assert Product(x, y) == x * y;
    assert x * y != 0.0;
  }

  /** a / d + b / d where a + b = n x and d = x y z. */
  lemma AddCancellingFirst(a: real, b: real, n: real, x: real, y: real, z: real, d: real)
    requires x != 0.0 && y != 0.0 && z != 0.0 && d == Product3(x, y, z) && a + b == n * x
    ensures a / d + b / d == n / Product(y, z)
  {
    CancelFirstFactor(n, x, y, z);
    AddFractions(a, b, d, n * x);
  }

  /** a / d - b / d where a - b = n x and d = x y z. */
  lemma SubtractCancellingFirst(a: real, b: real, n: real, x: real, y: real, z: real, d: real)
    requires x != 0.0 && y != 0.0 && z != 0.0 && d == Product3(x, y, z) && a - b == n * x
    ensures a / d - b / d == n / Product(y, z)
  {
    CancelFirstFactor(n, x, y, z);
    SubtractFractions(a, b, d, n * x);
  }

  /** a / d - b / d where a - b = n y and d = x y z. */
  lemma SubtractCancellingSecond(a: real, b: real, n: real, x: real, y: real, z: real, d: real)
    requires x != 0.0 && y != 0.0 && z != 0.0 && d == Product3(x, y, z) && a - b == n * y
    ensures a / d - b / d == n / Product(x, z)
  {
    CancelSecondFactor(n, x, y, z);
    SubtractFractions(a, b, d, n * y);
  }

  /** a / w + b / w where a + b = n x and w = x y. */
  lemma AddCancellingPair(a: real, b: real, n: real, x: real, y: real)
    requires x != 0.0 && y != 0.0 && a + b == n * x
    ensures a / Product(x, y) + b / Product(x, y) == n / y
  {
    CancelFactor(n, x, y);
    AddFractions(a, b, Product(x, y), n * x);
  }

  /** The order in which the pairs of the constant and quadratic coefficients are taken. */
  lemma RegroupA(a: real, b: real, c: real, d: real, e: real, f: real, g: real, h: real)
    ensures a + (b - c - d) + (e + f + g) + h == (a + b) + (e - c) + ((f - d) + (g + h))
  {
  }

  /** The order in which the pairs of the linear and cubic coefficients are taken. */
  lemma RegroupB(a: real, b: real, c: real, d: real, e: real, f: real, g: real, h: real)
    ensures a + (b + c + d) + (e - f - g) + h == (a + b) + (c + e) + ((d - f) + (h - g))
  {
  }

  // ---------------------------------------------------------------------
  // The segment's knots and prefactors

  /**
   * u1..u6 are six padded knots around an interior segment (u3 < u4, the
   * others at least as far out) and p, q, r, s are its prefactors.
   */
  ghost predicate SegmentPrefactors(u1: real, u2: real, u3: real, u4: real, u5: real, u6: real,
                                    p: real, q: real, r: real, s: real)
  {
    && u4 - u1 > 0.0 && u4 - u2 > 0.0 && u4 - u3 > 0.0
    && u5 - u2 > 0.0 && u5 - u3 > 0.0 && u6 - u3 > 0.0
    && p == Product3(u4 - u1, u4 - u2, u4 - u3) && q == Product3(u5 - u2, u4 - u2, u4 - u3)
    && r == Product3(u5 - u3, u5 - u2, u4 - u3) && s == Product3(u6 - u3, u5 - u3, u4 - u3)
  }

  lemma PrefactorsNonZero(u1: real, u2: real, u3: real, u4: real, u5: real, u6: real,
                          p: real, q: real, r: real, s: real)
    requires SegmentPrefactors(u1, u2, u3, u4, u5, u6, p, q, r, s)
    ensures p > 0.0 && q > 0.0 && r > 0.0 && s > 0.0
  {
    ProductOfPositives(u4 - u1, u4 - u2, u4 - u3);
    ProductOfPositives(u5 - u2, u4 - u2, u4 - u3);
    ProductOfPositives(u5 - u3, u5 - u2, u4 - u3);
    ProductOfPositives(u6 - u3, u5 - u3, u4 - u3);
  }

  // ---------------------------------------------------------------------
  // Cubic coefficient: -1/p + (1/p + 1/q + 1/r) + (-1/q - 1/r - 1/s) + 1/s

  lemma CubicSum(u1: real, u2: real, u3: real, u4: real, u5: real, u6: real, p: real, q: real, r: real, s: real)
    requires SegmentPrefactors(u1, u2, u3, u4, u5, u6, p, q, r, s)
    ensures p != 0.0 && q != 0.0 && r != 0.0 && s != 0.0
    ensures BasisSumAt(u1, u2, u3, u4, u5, u6, p, q, r, s).c3 == 0.0
  {
    PrefactorsNonZero(u1, u2, u3, u4, u5, u6, p, q, r, s);
    Opposite(p);
    Opposite(q);
    RegroupB(-1.0 / p, 1.0 / p, 1.0 / q, 1.0 / r, -1.0 / q, 1.0 / r, 1.0 / s, 1.0 / s);
  }

  // ---------------------------------------------------------------------
  // Quadratic coefficient

  lemma QuadraticSum(u1: real, u2: real, u3: real, u4: real, u5: real, u6: real, p: real, q: real, r: real, s: real)
    requires SegmentPrefactors(u1, u2, u3, u4, u5, u6, p, q, r, s)
    ensures p != 0.0 && q != 0.0 && r != 0.0 && s != 0.0
    ensures BasisSumAt(u1, u2, u3, u4, u5, u6, p, q, r, s).c2 == 0.0
  {
    PrefactorsNonZero(u1, u2, u3, u4, u5, u6, p, q, r, s);
    AddCancellingFirst(3.0 * u4, -(2.0 * u4 + u1), 1.0, u4 - u1, u4 - u2, u4 - u3, p);
    SubtractCancellingFirst(2.0 * u2 + u4, u2 + u4 + u5, -1.0, u5 - u2, u4 - u2, u4 - u3, q);
    SubtractCancellingSecond(u2 + u5 + u3, 2.0 * u5 + u3, -1.0, u5 - u3, u5 - u2, u4 - u3, r);
    AddCancellingFirst(2.0 * u3 + u6, -3.0 * u3, 1.0, u6 - u3, u5 - u3, u4 - u3, s);
    Opposite(Product(u4 - u2, u4 - u3));
    Opposite(Product(u5 - u3, u4 - u3));
    RegroupA(3.0 * u4 / p, -(2.0 * u4 + u1) / p, (u2 + u4 + u5) / q, (2.0 * u5 + u3) / r,
             (2.0 * u2 + u4) / q, (u2 + u5 + u3) / r, (2.0 * u3 + u6) / s, -3.0 * u3 / s);
  }

  // ---------------------------------------------------------------------
  // Linear coefficient, pair by pair

  lemma LinearPartP(u1: real, u4: real, d41: real, d42: real, d43: real, p: real)
    requires d41 == u4 - u1 && d41 > 0.0 && d42 > 0.0 && d43 > 0.0 && p == Product3(d41, d42, d43)
    ensures -3.0 * u4 * u4 / p + (2.0 * u1 * u4 + u4 * u4) / p == (-2.0 * u4) / Product(d42, d43)
  {
    assert -3.0 * u4 * u4 + (2.0 * u1 * u4 + u4 * u4) == (-2.0 * u4) * d41;
    AddCancellingFirst(-3.0 * u4 * u4, 2.0 * u1 * u4 + u4 * u4, -2.0 * u4, d41, d42, d43, p);
  }

  lemma LinearPartQ(u2: real, u4: real, u5: real, d52: real, d42: real, d43: real, q: real)
    requires d52 == u5 - u2 && d52 > 0.0 && d42 > 0.0 && d43 > 0.0 && q == Product3(d52, d42, d43)
    ensures (u2 * u4 + u2 * u5 + u4 * u5) / q + -(2.0 * u2 * u4 + u2 * u2) / q == (u2 + u4) / Product(d42, d43)
  {
    assert (u2 * u4 + u2 * u5 + u4 * u5) + -(2.0 * u2 * u4 + u2 * u2) == (u2 + u4) * d52;
    AddCancellingFirst(u2 * u4 + u2 * u5 + u4 * u5, -(2.0 * u2 * u4 + u2 * u2), u2 + u4, d52, d42, d43, q);
  }

  lemma LinearPartR(u2: real, u3: real, u5: real, d53: real, d52: real, d43: real, r: real)
    requires d52 == u5 - u2 && d53 > 0.0 && d52 > 0.0 && d43 > 0.0 && r == Product3(d53, d52, d43)
    ensures (2.0 * u3 * u5 + u5 * u5) / r - (u2 * u3 + u2 * u5 + u3 * u5) / r == (u3 + u5) / Product(d53, d43)
  {
    assert (2.0 * u3 * u5 + u5 * u5) - (u2 * u3 + u2 * u5 + u3 * u5) == (u3 + u5) * d52;
    SubtractCancellingSecond(2.0 * u3 * u5 + u5 * u5, u2 * u3 + u2 * u5 + u3 * u5, u3 + u5, d53, d52, d43, r);
  }

  lemma LinearPartS(u3: real, u6: real, d63: real, d53: real, d43: real, s: real)
    requires d63 == u6 - u3 && d63 > 0.0 && d53 > 0.0 && d43 > 0.0 && s == Product3(d63, d53, d43)
    ensures 3.0 * u3 * u3 / s - (2.0 * u3 * u6 + u3 * u3) / s == (-2.0 * u3) / Product(d53, d43)
  {
    assert 3.0 * u3 * u3 - (2.0 * u3 * u6 + u3 * u3) == (-2.0 * u3) * d63;
    SubtractCancellingFirst(3.0 * u3 * u3, 2.0 * u3 * u6 + u3 * u3, -2.0 * u3, d63, d53, d43, s);
  }

  lemma LinearPairPQ(u2: real, u4: real, d42: real, d43: real)
    requires d42 == u4 - u2 && d42 > 0.0 && d43 > 0.0
    ensures (-2.0 * u4) / Product(d42, d43) + (u2 + u4) / Product(d42, d43) == -1.0 / d43
  {
    assert -2.0 * u4 + (u2 + u4) == -1.0 * d42;
    AddCancellingPair(-2.0 * u4, u2 + u4, -1.0, d42, d43);
  }

  lemma LinearPairRS(u3: real, u5: real, d53: real, d43: real)
    requires d53 == u5 - u3 && d53 > 0.0 && d43 > 0.0
    ensures (u3 + u5) / Product(d53, d43) + (-2.0 * u3) / Product(d53, d43) == 1.0 / d43
  {
    assert (u3 + u5) + -2.0 * u3 == 1.0 * d53;
    AddCancellingPair(u3 + u5, -2.0 * u3, 1.0, d53, d43);
  }

  lemma LinearSum(u1: real, u2: real, u3: real, u4: real, u5: real, u6: real, p: real, q: real, r: real, s: real)
    requires SegmentPrefactors(u1, u2, u3, u4, u5, u6, p, q, r, s)
    ensures p != 0.0 && q != 0.0 && r != 0.0 && s != 0.0
    ensures BasisSumAt(u1, u2, u3, u4, u5, u6, p, q, r, s).c1 == 0.0
  {
    PrefactorsNonZero(u1, u2, u3, u4, u5, u6, p, q, r, s);
    LinearPartP(u1, u4, u4 - u1, u4 - u2, u4 - u3, p);
    LinearPartQ(u2, u4, u5, u5 - u2, u4 - u2, u4 - u3, q);
    LinearPartR(u2, u3, u5, u5 - u3, u5 - u2, u4 - u3, r);
    LinearPartS(u3, u6, u6 - u3, u5 - u3, u4 - u3, s);
    LinearPairPQ(u2, u4, u4 - u2, u4 - u3);
    LinearPairRS(u3, u5, u5 - u3, u4 - u3);
    Opposite(u4 - u3);
    RegroupB(-3.0 * u4 * u4 / p, (2.0 * u1 * u4 + u4 * u4) / p, (u2 * u4 + u2 * u5 + u4 * u5) / q,
             (2.0 * u3 * u5 + u5 * u5) / r, -(2.0 * u2 * u4 + u2 * u2) / q, (u2 * u3 + u2 * u5 + u3 * u5) / r,
             (2.0 * u3 * u6 + u3 * u3) / s, 3.0 * u3 * u3 / s);
  }

  // ---------------------------------------------------------------------
  // Constant coefficient, pair by pair

  lemma ConstantPartP(u1: real, u4: real, d41: real, d42: real, d43: real, p: real)
    requires d41 == u4 - u1 && d41 > 0.0 && d42 > 0.0 && d43 > 0.0 && p == Product3(d41, d42, d43)
    ensures u4 * u4 * u4 / p + -u1 * u4 * u4 / p == (u4 * u4) / Product(d42, d43)
  {
    assert u4 * u4 * u4 + -u1 * u4 * u4 == (u4 * u4) * d41;
    AddCancellingFirst(u4 * u4 * u4, -u1 * u4 * u4, u4 * u4, d41, d42, d43, p);
  }

  lemma ConstantPartQ(u2: real, u4: real, u5: real, d52: real, d42: real, d43: real, q: real)
    requires d52 == u5 - u2 && d52 > 0.0 && d42 > 0.0 && d43 > 0.0 && q == Product3(d52, d42, d43)
    ensures u2 * u2 * u4 / q - u2 * u4 * u5 / q == (-u2 * u4) / Product(d42, d43)
  {
    assert u2 * u2 * u4 - u2 * u4 * u5 == (-u2 * u4) * d52;
    SubtractCancellingFirst(u2 * u2 * u4, u2 * u4 * u5, -u2 * u4, d52, d42, d43, q);
  }

  lemma ConstantPartR(u2: real, u3: real, u5: real, d53: real, d52: real, d43: real, r: real)
    requires d52 == u5 - u2 && d53 > 0.0 && d52 > 0.0 && d43 > 0.0 && r == Product3(d53, d52, d43)
    ensures u2 * u3 * u5 / r - u3 * u5 * u5 / r == (-u3 * u5) / Product(d53, d43)
  {
    assert u2 * u3 * u5 - u3 * u5 * u5 == (-u3 * u5) * d52;
    SubtractCancellingSecond(u2 * u3 * u5, u3 * u5 * u5, -u3 * u5, d53, d52, d43, r);
  }

  lemma ConstantPartS(u3: real, u6: real, d63: real, d53: real, d43: real, s: real)
    requires d63 == u6 - u3 && d63 > 0.0 && d53 > 0.0 && d43 > 0.0 && s == Product3(d63, d53, d43)
    ensures u3 * u3 * u6 / s + -u3 * u3 * u3 / s == (u3 * u3) / Product(d53, d43)
  {
    assert u3 * u3 * u6 + -u3 * u3 * u3 == (u3 * u3) * d63;
    AddCancellingFirst(u3 * u3 * u6, -u3 * u3 * u3, u3 * u3, d63, d53, d43, s);
  }

  lemma ConstantPairPQ(u2: real, u4: real, d42: real, d43: real)
    requires d42 == u4 - u2 && d42 > 0.0 && d43 > 0.0
    ensures (u4 * u4) / Product(d42, d43) + (-u2 * u4) / Product(d42, d43) == u4 / d43
  {
    assert u4 * u4 + -u2 * u4 == u4 * d42;
    AddCancellingPair(u4 * u4, -u2 * u4, u4, d42, d43);
  }

  lemma ConstantPairRS(u3: real, u5: real, d53: real, d43: real)
    requires d53 == u5 - u3 && d53 > 0.0 && d43 > 0.0
    ensures (-u3 * u5) / Product(d53, d43) + (u3 * u3) / Product(d53, d43) == -u3 / d43
  {
    assert -u3 * u5 + u3 * u3 == -u3 * d53;
    AddCancellingPair(-u3 * u5, u3 * u3, -u3, d53, d43);
  }

  lemma ConstantSum(u1: real, u2: real, u3: real, u4: real, u5: real, u6: real, p: real, q: real, r: real, s: real)
    requires SegmentPrefactors(u1, u2, u3, u4, u5, u6, p, q, r, s)
    ensures p != 0.0 && q != 0.0 && r != 0.0 && s != 0.0
    ensures BasisSumAt(u1, u2, u3, u4, u5, u6, p, q, r, s).c0 == 1.0
  {
    PrefactorsNonZero(u1, u2, u3, u4, u5, u6, p, q, r, s);
    ConstantPartP(u1, u4, u4 - u1, u4 - u2, u4 - u3, p);
    ConstantPartQ(u2, u4, u5, u5 - u2, u4 - u2, u4 - u3, q);
    ConstantPartR(u2, u3, u5, u5 - u3, u5 - u2, u4 - u3, r);
    ConstantPartS(u3, u6, u6 - u3, u5 - u3, u4 - u3, s);
    ConstantPairPQ(u2, u4, u4 - u2, u4 - u3);
    ConstantPairRS(u3, u5, u5 - u3, u4 - u3);
    AddFractions(u4, -u3, u4 - u3, u4 - u3);
    SelfQuotient(u4 - u3);
    RegroupA(u4 * u4 * u4 / p, -u1 * u4 * u4 / p, u2 * u4 * u5 / q, u3 * u5 * u5 / r,
             u2 * u2 * u4 / q, u2 * u3 * u5 / r, u3 * u3 * u6 / s, -u3 * u3 * u3 / s);
  }

  // ---------------------------------------------------------------------
  // The basis cubics of a segment

  /** B_0 + B_1 + B_2 + B_3 of segment i, added in the order Combination adds them. */
  function BasisSum(u: seq<real>, i: nat, p: real, q: real, r: real, s: real): Cubic
    requires i + 6 < |u|
    requires p != 0.0 && q != 0.0 && r != 0.0 && s != 0.0
  {
    AddCubic(AddCubic(AddCubic(BasisCubic(u, i, p, q, r, s, 0), BasisCubic(u, i, p, q, r, s, 1)),
                      BasisCubic(u, i, p, q, r, s, 2)),
             BasisCubic(u, i, p, q, r, s, 3))
  }

  /** Around an interior segment the padded knots spread out as SegmentPrefactors demands. */
  lemma InteriorKnotsSpread(knots: seq<real>, i: nat)
    requires |knots| >= 2 && Increasing(knots)
    requires i < |knots| - 1
    ensures var u := Padded(knots);
      SegmentPrefactors(u[i + 1], u[i + 2], u[i + 3], u[i + 4], u[i + 5], u[i + 6],
                        PrefactorP(u, i), PrefactorQ(u, i), PrefactorR(u, i), PrefactorS(u, i))
  {
    var u := Padded(knots);
    assert u[i + 3] == knots[i] && u[i + 4] == knots[i + 1];
    KnotsOrdered(knots, i, i + 1);
    PaddedMonotone(knots, i + 1, i + 3);
    PaddedMonotone(knots, i + 2, i + 3);
    PaddedMonotone(knots, i + 4, i + 5);
    PaddedMonotone(knots, i + 4, i + 6);
  }

  /**
   * The sum of the four basis cubics of a segment written out coefficient
   * by coefficient, with u1..u6 the six padded knots around the segment.
   */
  function BasisSumAt(u1: real, u2: real, u3: real, u4: real, u5: real, u6: real,
                      p: real, q: real, r: real, s: real): Cubic
    requires p != 0.0 && q != 0.0 && r != 0.0 && s != 0.0
  {
    Cubic(u4 * u4 * u4 / p
            + (-u1 * u4 * u4 / p - u2 * u4 * u5 / q - u3 * u5 * u5 / r)
            + (u2 * u2 * u4 / q + u2 * u3 * u5 / r + u3 * u3 * u6 / s)
            + -u3 * u3 * u3 / s,
          -3.0 * u4 * u4 / p
            + ((2.0 * u1 * u4 + u4 * u4) / p + (u2 * u4 + u2 * u5 + u4 * u5) / q + (2.0 * u3 * u5 + u5 * u5) / r)
            + (-(2.0 * u2 * u4 + u2 * u2) / q - (u2 * u3 + u2 * u5 + u3 * u5) / r - (2.0 * u3 * u6 + u3 * u3) / s)
            + 3.0 * u3 * u3 / s,
          3.0 * u4 / p
            + (-(2.0 * u4 + u1) / p - (u2 + u4 + u5) / q - (2.0 * u5 + u3) / r)
            + ((2.0 * u2 + u4) / q + (u2 + u5 + u3) / r + (2.0 * u3 + u6) / s)
            + (-3.0 * u3 / s),
          -1.0 / p + (1.0 / p + 1.0 / q + 1.0 / r) + (-1.0 / q - 1.0 / r - 1.0 / s) + 1.0 / s)
  }

  lemma BasisSumWrittenOut(u: seq<real>, i: nat, p: real, q: real, r: real, s: real)
    requires i + 6 < |u| && p != 0.0 && q != 0.0 && r != 0.0 && s != 0.0
    ensures BasisSum(u, i, p, q, r, s) == BasisSumAt(u[i + 1], u[i + 2], u[i + 3], u[i + 4], u[i + 5], u[i + 6], p, q, r, s)
  {
  }

  /**
   * With the prefactors of an interior segment, the four basis cubics add
   * up to the constant polynomial 1, coefficient by coefficient.
   */
  lemma BasisSumIsOne(u: seq<real>, i: nat, p: real, q: real, r: real, s: real)
    requires i + 6 < |u|
    requires SegmentPrefactors(u[i + 1], u[i + 2], u[i + 3], u[i + 4], u[i + 5], u[i + 6], p, q, r, s)
    ensures p != 0.0 && q != 0.0 && r != 0.0 && s != 0.0
    ensures BasisSum(u, i, p, q, r, s) == Cubic(1.0, 0.0, 0.0, 0.0)
  {
    var u1, u2, u3, u4, u5, u6 := u[i + 1], u[i + 2], u[i + 3], u[i + 4], u[i + 5], u[i + 6];
    PrefactorsNonZero(u1, u2, u3, u4, u5, u6, p, q, r, s);
    BasisSumWrittenOut(u, i, p, q, r, s);
    ConstantSum(u1, u2, u3, u4, u5, u6, p, q, r, s);
    LinearSum(u1, u2, u3, u4, u5, u6, p, q, r, s);
    QuadraticSum(u1, u2, u3, u4, u5, u6, p, q, r, s);
    CubicSum(u1, u2, u3, u4, u5, u6, p, q, r, s);
  }

  /**
   * Partition of unity: on every interior segment the four basis cubics
   * add up to the constant polynomial 1.
   */
  lemma PartitionOfUnity(knots: seq<real>, i: nat)
    requires |knots| >= 2 && Increasing(knots)
    requires i < |knots| - 1
    ensures PrefactorP(Padded(knots), i) > 0.0 && PrefactorQ(Padded(knots), i) > 0.0
    ensures PrefactorR(Padded(knots), i) > 0.0 && PrefactorS(Padded(knots), i) > 0.0
    ensures var u := Padded(knots);
      BasisSum(u, i, PrefactorP(u, i), PrefactorQ(u, i), PrefactorR(u, i), PrefactorS(u, i))
        == Cubic(1.0, 0.0, 0.0, 0.0)
  {
    var u := Padded(knots);
    InteriorKnotsSpread(knots, i);
    PrefactorsPositive(knots, i);
    BasisSumIsOne(u, i, PrefactorP(u, i), PrefactorQ(u, i), PrefactorR(u, i), PrefactorS(u, i));
  }

  /** Scaling two cubics by c and adding them scales their sum by c. */
  lemma ScaleAdd(c: real, x: Cubic, y: Cubic)
    ensures AddCubic(ScaleCubic(c, x), ScaleCubic(c, y)) == ScaleCubic(c, AddCubic(x, y))
  {
    Distribute(c, x.c0, y.c0);
    Distribute(c, x.c1, y.c1);
    Distribute(c, x.c2, y.c2);
    Distribute(c, x.c3, y.c3);
  }

  lemma Distribute(c: real, a: real, b: real)
    ensures c * a + c * b == c * (a + b)
  {
  }

  /** Scaling each of four cubics by c and adding them scales their sum by c. */
  lemma ScaleSum(c: real, x: Cubic, y: Cubic, z: Cubic, w: Cubic)
    ensures AddCubic(AddCubic(AddCubic(ScaleCubic(c, x), ScaleCubic(c, y)), ScaleCubic(c, z)), ScaleCubic(c, w))
      == ScaleCubic(c, AddCubic(AddCubic(AddCubic(x, y), z), w))
  {
    ScaleAdd(c, x, y);
    ScaleAdd(c, AddCubic(x, y), z);
    ScaleAdd(c, AddCubic(AddCubic(x, y), z), w);
  }

  /**
   * Where the four coefficients b[i] .. b[i+3] of a segment are all c, the
   * unrounded segment cubic is the constant c, and so is the stored cubic
   * whenever c is not below the rounding threshold.
   */
  lemma FlatSegment(knots: seq<real>, b: seq<real>, i: nat, c: real)
    requires |knots| >= 2 && Increasing(knots) && |b| == |knots| + 2
    requires i < |knots| - 1
    requires b[i] == c && b[i + 1] == c && b[i + 2] == c && b[i + 3] == c
    ensures RawSegment(knots, b, i) == Cubic(c, 0.0, 0.0, 0.0)
    ensures forall x :: Eval(RawSegment(knots, b, i), x) == c
    ensures Abs(c) >= ChopThreshold ==> InteriorSegment(knots, b, i) == Cubic(c, 0.0, 0.0, 0.0)
  {
    var u := Padded(knots);
    var p, q, r, s := PrefactorP(u, i), PrefactorQ(u, i), PrefactorR(u, i), PrefactorS(u, i);
    PartitionOfUnity(knots, i);
    var b0, b1 := BasisCubic(u, i, p, q, r, s, 0), BasisCubic(u, i, p, q, r, s, 1);
    var b2, b3 := BasisCubic(u, i, p, q, r, s, 2), BasisCubic(u, i, p, q, r, s, 3);
    assert Combination(u, b, i, p, q, r, s, 1) == ScaleCubic(c, b0);
    assert Combination(u, b, i, p, q, r, s, 2) == AddCubic(ScaleCubic(c, b0), ScaleCubic(c, b1));
    assert Combination(u, b, i, p, q, r, s, 3)
      == AddCubic(AddCubic(ScaleCubic(c, b0), ScaleCubic(c, b1)), ScaleCubic(c, b2));
    assert RawSegment(knots, b, i) == Combination(u, b, i, p, q, r, s, 4)
      == AddCubic(AddCubic(AddCubic(ScaleCubic(c, b0), ScaleCubic(c, b1)), ScaleCubic(c, b2)), ScaleCubic(c, b3));
    ScaleSum(c, b0, b1, b2, b3);
  }
}
