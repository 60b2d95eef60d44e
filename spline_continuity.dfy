/**
 * Continuity of the spline at its interior knots: before rounding, the
 * cubics of two neighbouring segments take the same value at the knot
 * they share.
 *
 * At x = u4 (the knot between segment i and segment i+1) the first basis
 * function of segment i and the last one of segment i+1 vanish, and each
 * remaining basis value of segment i equals the value of the basis
 * function of segment i+1 that carries the same coefficient b[i+k]. Every
 * equality comes down to cancelling one knot spacing from a prefactor.
 */
module SplineContinuity {
  import opened Numerics
  import opened CubicSplineBasis

  /** A factor common to numerator and denominator cancels. */
  lemma CancelCommon(a: real, m: real, d: real)
    requires m != 0.0 && d != 0.0
    ensures a * d / (m * d) == a / m
  {
    assert m * d != 0.0;
    assert (a / m) * (m * d) == a * d;
  }

  /** Cancelling the last factor of two prefactors that share their first two. */
  lemma SameSpacings(a: real, c: real, d: real, e1: real, e2: real)
    requires c > 0.0 && d > 0.0 && e1 > 0.0 && e2 > 0.0
    ensures a * e1 / Product3(c, d, e1) == a * e2 / Product3(c, d, e2)
  {
    var m := c * d;
    assert m > 0.0;
    CancelCommon(a, m, e1);
    CancelCommon(a, m, e2);
  }

  /** The same with the first two factors of the second prefactor swapped. */
  lemma SwappedSpacings(a: real, c: real, d: real, e1: real, e2: real)
    requires c > 0.0 && d > 0.0 && e1 > 0.0 && e2 > 0.0
    ensures a * e1 / Product3(c, d, e1) == a * e2 / Product3(d, c, e2)
  {
    assert d * c == c * d;
    SameSpacings(a, c, d, e1, e2);
  }

  // ---------------------------------------------------------------------
  // The basis functions at the knot u4 between segments i and i+1, written
  // for segment i (whose right end u4 is) and for segment i+1 (whose left
  // end it is, so its u3 is the u4 of segment i)

  lemma FirstAtRightEnd(u4: real, p: real)
    requires p != 0.0
    ensures FirstBasis(u4, p, u4) == 0.0
  {
  }

  lemma SecondAtRightEnd(u1: real, u2: real, u3: real, u4: real, u5: real, p: real, q: real, r: real)
    requires p != 0.0 && q != 0.0 && r != 0.0
    ensures SecondBasis(u1, u2, u3, u4, u5, p, q, r, u4) == (u5 - u4) * (u5 - u4) * (u4 - u3) / r
  {
    assert (u4 - u1) * (u4 - u4) * (u4 - u4) == 0.0;
    assert (u5 - u4) * (u4 - u2) * (u4 - u4) == 0.0;
  }

  lemma ThirdAtRightEnd(u2: real, u3: real, u4: real, u5: real, u6: real, q: real, r: real, s: real)
    requires q != 0.0 && r != 0.0 && s != 0.0
    ensures ThirdBasis(u2, u3, u4, u5, u6, q, r, s, u4)
         == (u4 - u2) * (u5 - u4) * (u4 - u3) / r + (u6 - u4) * (u4 - u3) * (u4 - u3) / s
  {
    assert (u4 - u2) * (u4 - u2) * (u4 - u4) == 0.0;
  }

  /** Segment i+1 with its knots u1..u7 renamed: u3 is the shared knot. */
  lemma SecondAtLeftEnd(u1: real, u2: real, u3: real, u4: real, u5: real, p: real, q: real, r: real)
    requires p != 0.0 && q != 0.0 && r != 0.0
    ensures SecondBasis(u1, u2, u3, u4, u5, p, q, r, u3)
         == (u3 - u1) * (u4 - u3) * (u4 - u3) / p + (u5 - u3) * (u3 - u2) * (u4 - u3) / q
  {
    assert (u5 - u3) * (u5 - u3) * (u3 - u3) == 0.0;
  }

  lemma ThirdAtLeftEnd(u2: real, u3: real, u4: real, u5: real, u6: real, q: real, r: real, s: real)
    requires q != 0.0 && r != 0.0 && s != 0.0
    ensures ThirdBasis(u2, u3, u4, u5, u6, q, r, s, u3) == (u3 - u2) * (u3 - u2) * (u4 - u3) / q
  {
    assert (u3 - u2) * (u5 - u3) * (u3 - u3) == 0.0;
    assert (u6 - u3) * (u3 - u3) * (u3 - u3) == 0.0;
  }

  lemma FourthAtLeftEnd(u3: real, s: real)
    requires s != 0.0
    ensures FourthBasis(u3, s, u3) == 0.0
  {
  }

  // ---------------------------------------------------------------------
  // Each basis value of segment i at the shared knot is the value of the
  // basis function of segment i+1 that carries the same coefficient

  lemma SecondMeetsFirst(u1: real, u2: real, u3: real, u4: real, u5: real, p: real, q: real, r: real, p1: real)
    requires u2 <= u3 < u4 < u5
    requires p != 0.0 && q != 0.0
    requires r == Product3(u5 - u3, u5 - u2, u4 - u3) && p1 == Product3(u5 - u2, u5 - u3, u5 - u4)
    requires r != 0.0 && p1 != 0.0
    ensures SecondBasis(u1, u2, u3, u4, u5, p, q, r, u4) == FirstBasis(u5, p1, u4)
  {
    SecondAtRightEnd(u1, u2, u3, u4, u5, p, q, r);
    SwappedSpacings((u5 - u4) * (u5 - u4), u5 - u3, u5 - u2, u4 - u3, u5 - u4);
  }

  lemma ThirdMeetsSecond(u2: real, u3: real, u4: real, u5: real, u6: real,
                         q: real, r: real, s: real, p1: real, q1: real, r1: real)
    requires u2 <= u3 < u4 < u5 <= u6
    requires q != 0.0 && r1 != 0.0
    requires r == Product3(u5 - u3, u5 - u2, u4 - u3) && s == Product3(u6 - u3, u5 - u3, u4 - u3)
    requires p1 == Product3(u5 - u2, u5 - u3, u5 - u4) && q1 == Product3(u6 - u3, u5 - u3, u5 - u4)
    requires r != 0.0 && s != 0.0 && p1 != 0.0 && q1 != 0.0
    ensures ThirdBasis(u2, u3, u4, u5, u6, q, r, s, u4) == SecondBasis(u2, u3, u4, u5, u6, p1, q1, r1, u4)
  {
    ThirdAtRightEnd(u2, u3, u4, u5, u6, q, r, s);
    SecondAtLeftEnd(u2, u3, u4, u5, u6, p1, q1, r1);
    SwappedSpacings((u4 - u2) * (u5 - u4), u5 - u3, u5 - u2, u4 - u3, u5 - u4);
    SameSpacings((u6 - u4) * (u4 - u3), u6 - u3, u5 - u3, u4 - u3, u5 - u4);
  }

  lemma FourthMeetsThird(u3: real, u4: real, u5: real, u6: real, u7: real, s: real, q1: real, r1: real, s1: real)
    requires u3 < u4 < u5 <= u6
    requires r1 != 0.0 && s1 != 0.0
    requires s == Product3(u6 - u3, u5 - u3, u4 - u3) && q1 == Product3(u6 - u3, u5 - u3, u5 - u4)
    requires s != 0.0 && q1 != 0.0
    ensures FourthBasis(u3, s, u4) == ThirdBasis(u3, u4, u5, u6, u7, q1, r1, s1, u4)
  {
    ThirdAtLeftEnd(u3, u4, u5, u6, u7, q1, r1, s1);
    SameSpacings((u4 - u3) * (u4 - u3), u6 - u3, u5 - u3, u4 - u3, u5 - u4);
  }

  /**
   * Weights shifted by one place against values shifted by one place: the
   * two sums agree when the values dropped at either end are 0.
   */
  lemma ShiftedSums(b0: real, b1: real, b2: real, b3: real, b4: real,
                    v0: real, v1: real, v2: real, v3: real, w0: real, w1: real, w2: real, w3: real)
    requires v0 == 0.0 && w3 == 0.0
    requires v1 == w0 && v2 == w1 && v3 == w2
    ensures WeightedSum(b0, b1, b2, b3, v0, v1, v2, v3) == WeightedSum(b1, b2, b3, b4, w0, w1, w2, w3)
  {
  }

  /**
   * C0 continuity: at every interior knot knots[i+1] the unrounded cubics of
   * segment i and segment i+1 take the same value.
   */
  lemma RawSegmentsMeet(knots: seq<real>, b: seq<real>, i: nat)
    requires |knots| >= 2 && Increasing(knots) && |b| == |knots| + 2
    requires i + 2 < |knots|
    ensures Eval(RawSegment(knots, b, i), knots[i + 1]) == Eval(RawSegment(knots, b, i + 1), knots[i + 1])
  {
    var u := Padded(knots);
    var x := knots[i + 1];
    PrefactorsPositive(knots, i);
    PrefactorsPositive(knots, i + 1);
    var p, q, r, s := PrefactorP(u, i), PrefactorQ(u, i), PrefactorR(u, i), PrefactorS(u, i);
    var j := i + 1;
    var p1, q1, r1, s1 := PrefactorP(u, j), PrefactorQ(u, j), PrefactorR(u, j), PrefactorS(u, j);
    var u1, u2, u3, u4, u5, u6, u7 := u[i + 1], u[i + 2], u[i + 3], u[i + 4], u[i + 5], u[i + 6], u[i + 7];
    assert u3 == knots[i] && u4 == x && u5 == knots[i + 2];
    KnotsOrdered(knots, i, i + 1);
    KnotsOrdered(knots, i + 1, i + 2);
    PaddedMonotone(knots, i + 2, i + 3);
    PaddedMonotone(knots, i + 5, i + 6);
    assert u2 <= u3 < u4 < u5 <= u6;
    SegmentValue(knots, b, i, x);
    SegmentValue(knots, b, j, x);
    FirstAtRightEnd(u4, p);
    FourthAtLeftEnd(u4, s1);
    SecondMeetsFirst(u1, u2, u3, u4, u5, p, q, r, p1);
    ThirdMeetsSecond(u2, u3, u4, u5, u6, q, r, s, p1, q1, r1);
    FourthMeetsThird(u3, u4, u5, u6, u7, s, q1, r1, s1);
    ShiftedSums(b[i], b[i + 1], b[i + 2], b[i + 3], b[i + 4],
                CoxDeBoor(u, i, p, q, r, s, 0, x), CoxDeBoor(u, i, p, q, r, s, 1, x),
                CoxDeBoor(u, i, p, q, r, s, 2, x), CoxDeBoor(u, i, p, q, r, s, 3, x),
                CoxDeBoor(u, j, p1, q1, r1, s1, 0, x), CoxDeBoor(u, j, p1, q1, r1, s1, 1, x),
                CoxDeBoor(u, j, p1, q1, r1, s1, 2, x), CoxDeBoor(u, j, p1, q1, r1, s1, 3, x));
  }
}
