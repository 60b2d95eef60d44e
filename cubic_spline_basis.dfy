/**
 * The mathematics behind the efficiency spline: the padded knot vector, the
 * prefactors of the cubic B-spline basis, the power-basis cubic of every
 * segment, the linear continuation after the last knot, and the value the
 * spline takes at a point. The class in module CubicSplines fills its tables
 * from these definitions and is proved against them.
 */
module CubicSplineBasis {
  import opened Numerics

  /** Threshold below which a power-basis coefficient is replaced by 0. */
  const ChopThreshold: real := 0.000000001

  /** The value returned where the linear continuation has turned negative. */
  const NegativeFloor: real := 0.001

  /** A cubic c0 + c1 x + c2 x^2 + c3 x^3, one column of the AS table. */
  datatype Cubic = Cubic(c0: real, c1: real, c2: real, c3: real)

  /** Coefficient d (0 <= d < 4) of a cubic, i.e. row d of the AS table. */
  function Coeff(p: Cubic, d: nat): real
    requires d < 4
  {
    match d
    case 0 => p.c0
    case 1 => p.c1
    case 2 => p.c2
    case 3 => p.c3
  }

  function Eval(p: Cubic, x: real): real
  {
    p.c0 + p.c1 * x + p.c2 * x * x + p.c3 * x * x * x
  }

  /** The first derivative of the cubic at x. */
  function Slope(p: Cubic, x: real): real
  {
    p.c1 + 2.0 * p.c2 * x + 3.0 * p.c3 * x * x
  }

  /**
   * Strictly increasing knots. The quantifier fires only on Before terms,
   * so a pairwise fact is drawn out on request, by KnotsOrdered.
   */
  ghost predicate Increasing(s: seq<real>)
  {
    forall i, j {:trigger Before(s, i, j)} :: 0 <= i < j < |s| ==> Before(s, i, j)
  }

  ghost predicate Before(s: seq<real>, i: int, j: int)
    requires 0 <= i < j < |s|
  {
    s[i] < s[j]
  }

  lemma KnotsOrdered(s: seq<real>, i: int, j: int)
    requires Increasing(s) && 0 <= i < j < |s|
    ensures s[i] < s[j]
  {
    assert Before(s, i, j);
  }

  // ---------------------------------------------------------------------
  // Knot padding

  /**
   * The knot vector with the first and the last knot each repeated three
   * more times: nKnots + 6 entries.
   */
  function Padded(knots: seq<real>): (u: seq<real>)
    requires |knots| >= 1
    ensures |u| == |knots| + 6
    ensures u[0] == knots[0] && u[1] == knots[0] && u[2] == knots[0]
    ensures u[3..|knots| + 3] == knots
    ensures u[|knots| + 3] == knots[|knots| - 1] && u[|knots| + 4] == knots[|knots| - 1]
    ensures u[|knots| + 5] == knots[|knots| - 1]
  {
    var first, last := knots[0], knots[|knots| - 1];
    [first, first, first] + knots + [last, last, last]
  }

  /** A sequence that agrees with the padded knots entry by entry is the padded knot vector. */
  lemma PaddedByEntries(knots: seq<real>, v: seq<real>)
    requires |knots| >= 1 && |v| == |knots| + 6
    requires v[0] == knots[0] && v[1] == knots[0] && v[2] == knots[0]
    requires forall j :: 0 <= j < |knots| ==> v[3 + j] == knots[j]
    requires v[|knots| + 3] == knots[|knots| - 1] && v[|knots| + 4] == knots[|knots| - 1]
    requires v[|knots| + 5] == knots[|knots| - 1]
    ensures v == Padded(knots)
  {
    var u := Padded(knots);
    forall k | 0 <= k < |v|
      ensures v[k] == u[k]
    {
      if 3 <= k < |knots| + 3 {
        assert v[3 + (k - 3)] == knots[k - 3];
      }
    }
  }

  /** Increasing knots give a non-decreasing padded vector. */
  lemma PaddedMonotone(knots: seq<real>, a: int, b: int)
    requires |knots| >= 1 && Increasing(knots)
    requires 0 <= a <= b < |knots| + 6
    ensures Padded(knots)[a] <= Padded(knots)[b]
  {
    var u, n := Padded(knots), |knots|;
    // position of an index of u in the knot vector, clamped to its ends
    var ka := if a < 3 then 0 else if a >= n + 3 then n - 1 else a - 3;
    var kb := if b < 3 then 0 else if b >= n + 3 then n - 1 else b - 3;
    assert u[a] == knots[ka] && u[b] == knots[kb];
    if ka < kb {
      KnotsOrdered(knots, ka, kb);
    }
  }

  // ---------------------------------------------------------------------
  // Prefactors and the basis

  /**
   * P = (u4 - u1)(u4 - u2)(u4 - u3) with u_k = u[i+k], the denominator of
   * the first basis spline; positive when its three spacings are.
   */
  function PrefactorP(u: seq<real>, i: nat): (r: real)
    requires i + 6 < |u|
    ensures u[i + 1] < u[i + 4] && u[i + 2] < u[i + 4] && u[i + 3] < u[i + 4] ==> r > 0.0
  {
    ProductOfPositives(u[i + 4] - u[i + 1], u[i + 4] - u[i + 2], u[i + 4] - u[i + 3]);
    Product3(u[i + 4] - u[i + 1], u[i + 4] - u[i + 2], u[i + 4] - u[i + 3])
  }

  /** Q = (u5 - u2)(u4 - u2)(u4 - u3), positive when its three spacings are. */
  function PrefactorQ(u: seq<real>, i: nat): (r: real)
    requires i + 6 < |u|
    ensures u[i + 2] < u[i + 5] && u[i + 2] < u[i + 4] && u[i + 3] < u[i + 4] ==> r > 0.0
  {
    ProductOfPositives(u[i + 5] - u[i + 2], u[i + 4] - u[i + 2], u[i + 4] - u[i + 3]);
    Product3(u[i + 5] - u[i + 2], u[i + 4] - u[i + 2], u[i + 4] - u[i + 3])
  }

  /** R = (u5 - u3)(u5 - u2)(u4 - u3), positive when its three spacings are. */
  function PrefactorR(u: seq<real>, i: nat): (r: real)
    requires i + 6 < |u|
    ensures u[i + 3] < u[i + 5] && u[i + 2] < u[i + 5] && u[i + 3] < u[i + 4] ==> r > 0.0
  {
    ProductOfPositives(u[i + 5] - u[i + 3], u[i + 5] - u[i + 2], u[i + 4] - u[i + 3]);
    Product3(u[i + 5] - u[i + 3], u[i + 5] - u[i + 2], u[i + 4] - u[i + 3])
  }

  /** S = (u6 - u3)(u5 - u3)(u4 - u3), positive when its three spacings are. */
  function PrefactorS(u: seq<real>, i: nat): (r: real)
    requires i + 6 < |u|
    ensures u[i + 3] < u[i + 6] && u[i + 3] < u[i + 5] && u[i + 3] < u[i + 4] ==> r > 0.0
  {
    ProductOfPositives(u[i + 6] - u[i + 3], u[i + 5] - u[i + 3], u[i + 4] - u[i + 3]);
    Product3(u[i + 6] - u[i + 3], u[i + 5] - u[i + 3], u[i + 4] - u[i + 3])
  }

  /**
   * x * y * z; kept as a function so that the sign of a prefactor is
   * established once, by ProductOfPositives, on distinct factors.
   */
  function Product3(x: real, y: real, z: real): real
  {
    x * y * z
  }

  lemma ProductOfPositives(x: real, y: real, z: real)
    ensures x > 0.0 && y > 0.0 && z > 0.0 ==> Product3(x, y, z) > 0.0
  {
    if x > 0.0 && y > 0.0 && z > 0.0 {
      assert x * y > 0.0;
    }
  }

  /**
   * With strictly increasing knots every prefactor of an interior segment
   * is positive, so each division in the basis is defined.
   */
  lemma PrefactorsPositive(knots: seq<real>, i: nat)
    requires |knots| >= 2 && Increasing(knots)
    requires i < |knots| - 1
    ensures PrefactorP(Padded(knots), i) > 0.0 && PrefactorQ(Padded(knots), i) > 0.0
    ensures PrefactorR(Padded(knots), i) > 0.0 && PrefactorS(Padded(knots), i) > 0.0
  {
    var u := Padded(knots);
    assert u[i + 3] == knots[i] && u[i + 4] == knots[i + 1];
    KnotsOrdered(knots, i, i + 1);
    PaddedMonotone(knots, i + 1, i + 3);
    PaddedMonotone(knots, i + 2, i + 3);
    PaddedMonotone(knots, i + 4, i + 5);
    PaddedMonotone(knots, i + 4, i + 6);
  }

  /**
   * The k-th cubic B-spline (k < 4) that is nonzero on segment i, at x, in
   * the factored form of the Cox-de Boor recursion: products of distances
   * from x to the padded knots u1..u6 = u[i+1]..u[i+6], over the
   * prefactors p, q, r, s of the segment.
   */
  function CoxDeBoor(u: seq<real>, i: nat, p: real, q: real, r: real, s: real, k: nat, x: real): real
    requires i + 6 < |u| && k < 4
    requires p != 0.0 && q != 0.0 && r != 0.0 && s != 0.0
  {
    var u1, u2, u3, u4, u5, u6 := u[i + 1], u[i + 2], u[i + 3], u[i + 4], u[i + 5], u[i + 6];
    match k
    case 0 => FirstBasis(u4, p, x)
    case 1 => SecondBasis(u1, u2, u3, u4, u5, p, q, r, x)
    case 2 => ThirdBasis(u2, u3, u4, u5, u6, q, r, s, x)
    case 3 => FourthBasis(u3, s, x)
  }

  function FirstBasis(u4: real, p: real, x: real): real
    requires p != 0.0
  {
    (u4 - x) * (u4 - x) * (u4 - x) / p
  }

  function SecondBasis(u1: real, u2: real, u3: real, u4: real, u5: real, p: real, q: real, r: real, x: real): real
    requires p != 0.0 && q != 0.0 && r != 0.0
  {
    (x - u1) * (u4 - x) * (u4 - x) / p + (u5 - x) * (x - u2) * (u4 - x) / q + (u5 - x) * (u5 - x) * (x - u3) / r
  }

  function ThirdBasis(u2: real, u3: real, u4: real, u5: real, u6: real, q: real, r: real, s: real, x: real): real
    requires q != 0.0 && r != 0.0 && s != 0.0
  {
    (x - u2) * (x - u2) * (u4 - x) / q + (x - u2) * (u5 - x) * (x - u3) / r + (u6 - x) * (x - u3) * (x - u3) / s
  }

  function FourthBasis(u3: real, s: real, x: real): real
    requires s != 0.0
  {
    (x - u3) * (x - u3) * (x - u3) / s
  }

  /**
   * The power-basis cubic of the k-th B-spline (k < 4) that is nonzero on
   * segment i, written with the padded knots u1..u6 = u[i+1]..u[i+6] and
   * the prefactors p, q, r, s of that segment. At every x it takes the
   * value of the factored B-spline.
   */
  function BasisCubic(u: seq<real>, i: nat, p: real, q: real, r: real, s: real, k: nat): (c: Cubic)
    requires i + 6 < |u| && k < 4
    requires p != 0.0 && q != 0.0 && r != 0.0 && s != 0.0
    ensures forall x :: Eval(c, x) == CoxDeBoor(u, i, p, q, r, s, k, x)
  {
    var u1, u2, u3, u4, u5, u6 := u[i + 1], u[i + 2], u[i + 3], u[i + 4], u[i + 5], u[i + 6];
    match k
    case 0 =>
      var c := Cubic(u4 * u4 * u4 / p,
                     -3.0 * u4 * u4 / p,
                     3.0 * u4 / p,
                     -1.0 / p);
      FirstBasisExpanded(u4, p, c);
      c
    case 1 =>
      var c := Cubic(-u1 * u4 * u4 / p - u2 * u4 * u5 / q - u3 * u5 * u5 / r,
                     (2.0 * u1 * u4 + u4 * u4) / p + (u2 * u4 + u2 * u5 + u4 * u5) / q + (2.0 * u3 * u5 + u5 * u5) / r,
                     -(2.0 * u4 + u1) / p - (u2 + u4 + u5) / q - (2.0 * u5 + u3) / r,
                     1.0 / p + 1.0 / q + 1.0 / r);
      SecondBasisExpanded(u1, u2, u3, u4, u5, p, q, r, c);
      c
    case 2 =>
      var c := Cubic(u2 * u2 * u4 / q + u2 * u3 * u5 / r + u3 * u3 * u6 / s,
                     -(2.0 * u2 * u4 + u2 * u2) / q - (u2 * u3 + u2 * u5 + u3 * u5) / r - (2.0 * u3 * u6 + u3 * u3) / s,
                     (2.0 * u2 + u4) / q + (u2 + u5 + u3) / r + (2.0 * u3 + u6) / s,
                     -1.0 / q - 1.0 / r - 1.0 / s);
      ThirdBasisExpanded(u2, u3, u4, u5, u6, q, r, s, c);
      c
    case 3 =>
      var c := Cubic(-u3 * u3 * u3 / s,
                     3.0 * u3 * u3 / s,
                     -3.0 * u3 / s,
                     1.0 / s);
      FourthBasisExpanded(u3, s, c);
      c
  }

  // ---------------------------------------------------------------------
  // Expanding the factored B-splines into the power basis

  /** A cubic whose coefficients share the denominator n is its numerator polynomial over n. */
  lemma OverCommonDenominator(n0: real, n1: real, n2: real, n3: real, n: real, x: real, f: real)
    requires n != 0.0
    requires n0 + n1 * x + n2 * x * x + n3 * x * x * x == f
    ensures Eval(Cubic(n0 / n, n1 / n, n2 / n, n3 / n), x) == f / n
  {
  }

  lemma Negated(a: real, n: real)
    requires n != 0.0
    ensures -(a / n) == -a / n
  {
  }

  /** Evaluation is additive in the coefficients. */
  lemma EvalOfSum(a: Cubic, b: Cubic, c: Cubic, x: real)
    ensures Eval(Cubic(a.c0 + b.c0 + c.c0, a.c1 + b.c1 + c.c1, a.c2 + b.c2 + c.c2, a.c3 + b.c3 + c.c3), x)
         == Eval(a, x) + Eval(b, x) + Eval(c, x)
  {
  }

  lemma FirstBasisExpanded(u4: real, p: real, c: Cubic)
    requires p != 0.0
    requires c == Cubic(u4 * u4 * u4 / p, -3.0 * u4 * u4 / p, 3.0 * u4 / p, -1.0 / p)
    ensures forall x :: Eval(c, x) == FirstBasis(u4, p, x)
  {
    forall x
      ensures Eval(c, x) == FirstBasis(u4, p, x)
    {
      OuterBasisNumerators(0.0, u4, x);
      OverCommonDenominator(u4 * u4 * u4, -3.0 * u4 * u4, 3.0 * u4, -1.0, p, x, (u4 - x) * (u4 - x) * (u4 - x));
    }
  }

  lemma FourthBasisExpanded(u3: real, s: real, c: Cubic)
    requires s != 0.0
    requires c == Cubic(-u3 * u3 * u3 / s, 3.0 * u3 * u3 / s, -3.0 * u3 / s, 1.0 / s)
    ensures forall x :: Eval(c, x) == FourthBasis(u3, s, x)
  {
    forall x
      ensures Eval(c, x) == FourthBasis(u3, s, x)
    {
      OuterBasisNumerators(u3, 0.0, x);
      OverCommonDenominator(-u3 * u3 * u3, 3.0 * u3 * u3, -3.0 * u3, 1.0, s, x, (x - u3) * (x - u3) * (x - u3));
    }
  }

  /** The three products of the second B-spline, multiplied out. */
  lemma SecondBasisNumerators(u1: real, u2: real, u3: real, u4: real, u5: real, x: real)
    ensures -u1 * u4 * u4 + (2.0 * u1 * u4 + u4 * u4) * x + -(2.0 * u4 + u1) * x * x + 1.0 * x * x * x
         == (x - u1) * (u4 - x) * (u4 - x)
    ensures -(u2 * u4 * u5) + (u2 * u4 + u2 * u5 + u4 * u5) * x + -(u2 + u4 + u5) * x * x + 1.0 * x * x * x
         == (u5 - x) * (x - u2) * (u4 - x)
    ensures -(u3 * u5 * u5) + (2.0 * u3 * u5 + u5 * u5) * x + -(2.0 * u5 + u3) * x * x + 1.0 * x * x * x
         == (u5 - x) * (u5 - x) * (x - u3)
  {
  }

  /** The three products of the third B-spline, multiplied out. */
  lemma ThirdBasisNumerators(u2: real, u3: real, u4: real, u5: real, u6: real, x: real)
    ensures u2 * u2 * u4 + -(2.0 * u2 * u4 + u2 * u2) * x + (2.0 * u2 + u4) * x * x + -1.0 * x * x * x
         == (x - u2) * (x - u2) * (u4 - x)
    ensures u2 * u3 * u5 + -(u2 * u3 + u2 * u5 + u3 * u5) * x + (u2 + u5 + u3) * x * x + -1.0 * x * x * x
         == (x - u2) * (u5 - x) * (x - u3)
    ensures u3 * u3 * u6 + -(2.0 * u3 * u6 + u3 * u3) * x + (2.0 * u3 + u6) * x * x + -1.0 * x * x * x
         == (u6 - x) * (x - u3) * (x - u3)
  {
  }

  /** The cubes of the first and the fourth B-spline, multiplied out. */
  lemma OuterBasisNumerators(u3: real, u4: real, x: real)
    ensures u4 * u4 * u4 + -3.0 * u4 * u4 * x + 3.0 * u4 * x * x + -1.0 * x * x * x == (u4 - x) * (u4 - x) * (u4 - x)
    ensures -u3 * u3 * u3 + 3.0 * u3 * u3 * x + -3.0 * u3 * x * x + 1.0 * x * x * x == (x - u3) * (x - u3) * (x - u3)
  {
  }

  lemma SecondBasisLeft(u1: real, u4: real, p: real, x: real)
    requires p != 0.0
    requires -u1 * u4 * u4 + (2.0 * u1 * u4 + u4 * u4) * x + -(2.0 * u4 + u1) * x * x + 1.0 * x * x * x
          == (x - u1) * (u4 - x) * (u4 - x)
    ensures Eval(Cubic(-u1 * u4 * u4 / p, (2.0 * u1 * u4 + u4 * u4) / p, -(2.0 * u4 + u1) / p, 1.0 / p), x)
         == (x - u1) * (u4 - x) * (u4 - x) / p
  {
    OverCommonDenominator(-u1 * u4 * u4, 2.0 * u1 * u4 + u4 * u4, -(2.0 * u4 + u1), 1.0, p, x,
                          (x - u1) * (u4 - x) * (u4 - x));
  }

  lemma SecondBasisMiddle(u2: real, u4: real, u5: real, q: real, x: real)
    requires q != 0.0
    requires -(u2 * u4 * u5) + (u2 * u4 + u2 * u5 + u4 * u5) * x + -(u2 + u4 + u5) * x * x + 1.0 * x * x * x
          == (u5 - x) * (x - u2) * (u4 - x)
    ensures Eval(Cubic(-(u2 * u4 * u5 / q), (u2 * u4 + u2 * u5 + u4 * u5) / q, -((u2 + u4 + u5) / q), 1.0 / q), x)
         == (u5 - x) * (x - u2) * (u4 - x) / q
  {
    Negated(u2 * u4 * u5, q);
    Negated(u2 + u4 + u5, q);
    OverCommonDenominator(-(u2 * u4 * u5), u2 * u4 + u2 * u5 + u4 * u5, -(u2 + u4 + u5), 1.0, q, x,
                          (u5 - x) * (x - u2) * (u4 - x));
  }

  lemma SecondBasisRight(u3: real, u5: real, r: real, x: real)
    requires r != 0.0
    requires -(u3 * u5 * u5) + (2.0 * u3 * u5 + u5 * u5) * x + -(2.0 * u5 + u3) * x * x + 1.0 * x * x * x
          == (u5 - x) * (u5 - x) * (x - u3)
    ensures Eval(Cubic(-(u3 * u5 * u5 / r), (2.0 * u3 * u5 + u5 * u5) / r, -((2.0 * u5 + u3) / r), 1.0 / r), x)
         == (u5 - x) * (u5 - x) * (x - u3) / r
  {
    Negated(u3 * u5 * u5, r);
    Negated(2.0 * u5 + u3, r);
    OverCommonDenominator(-(u3 * u5 * u5), 2.0 * u3 * u5 + u5 * u5, -(2.0 * u5 + u3), 1.0, r, x,
                          (u5 - x) * (u5 - x) * (x - u3));
  }

  lemma ThirdBasisLeft(u2: real, u4: real, q: real, x: real)
    requires q != 0.0
    requires u2 * u2 * u4 + -(2.0 * u2 * u4 + u2 * u2) * x + (2.0 * u2 + u4) * x * x + -1.0 * x * x * x
          == (x - u2) * (x - u2) * (u4 - x)
    ensures Eval(Cubic(u2 * u2 * u4 / q, -(2.0 * u2 * u4 + u2 * u2) / q, (2.0 * u2 + u4) / q, -1.0 / q), x)
         == (x - u2) * (x - u2) * (u4 - x) / q
  {
    OverCommonDenominator(u2 * u2 * u4, -(2.0 * u2 * u4 + u2 * u2), 2.0 * u2 + u4, -1.0, q, x,
                          (x - u2) * (x - u2) * (u4 - x));
  }

  lemma ThirdBasisMiddle(u2: real, u3: real, u5: real, r: real, x: real)
    requires r != 0.0
    requires u2 * u3 * u5 + -(u2 * u3 + u2 * u5 + u3 * u5) * x + (u2 + u5 + u3) * x * x + -1.0 * x * x * x
          == (x - u2) * (u5 - x) * (x - u3)
    ensures Eval(Cubic(u2 * u3 * u5 / r, -((u2 * u3 + u2 * u5 + u3 * u5) / r), (u2 + u5 + u3) / r, -(1.0 / r)), x)
         == (x - u2) * (u5 - x) * (x - u3) / r
  {
    Negated(u2 * u3 + u2 * u5 + u3 * u5, r);
    Negated(1.0, r);
    OverCommonDenominator(u2 * u3 * u5, -(u2 * u3 + u2 * u5 + u3 * u5), u2 + u5 + u3, -1.0, r, x,
                          (x - u2) * (u5 - x) * (x - u3));
  }

  lemma ThirdBasisRight(u3: real, u6: real, s: real, x: real)
    requires s != 0.0
    requires u3 * u3 * u6 + -(2.0 * u3 * u6 + u3 * u3) * x + (2.0 * u3 + u6) * x * x + -1.0 * x * x * x
          == (u6 - x) * (x - u3) * (x - u3)
    ensures Eval(Cubic(u3 * u3 * u6 / s, -((2.0 * u3 * u6 + u3 * u3) / s), (2.0 * u3 + u6) / s, -(1.0 / s)), x)
         == (u6 - x) * (x - u3) * (x - u3) / s
  {
    Negated(2.0 * u3 * u6 + u3 * u3, s);
    Negated(1.0, s);
    OverCommonDenominator(u3 * u3 * u6, -(2.0 * u3 * u6 + u3 * u3), 2.0 * u3 + u6, -1.0, s, x,
                          (u6 - x) * (x - u3) * (x - u3));
  }

  lemma SecondBasisExpanded(u1: real, u2: real, u3: real, u4: real, u5: real, p: real, q: real, r: real, c: Cubic)
    requires p != 0.0 && q != 0.0 && r != 0.0
    requires c == Cubic(-u1 * u4 * u4 / p - u2 * u4 * u5 / q - u3 * u5 * u5 / r,
                        (2.0 * u1 * u4 + u4 * u4) / p + (u2 * u4 + u2 * u5 + u4 * u5) / q + (2.0 * u3 * u5 + u5 * u5) / r,
                        -(2.0 * u4 + u1) / p - (u2 + u4 + u5) / q - (2.0 * u5 + u3) / r,
                        1.0 / p + 1.0 / q + 1.0 / r)
    ensures forall x :: Eval(c, x) == SecondBasis(u1, u2, u3, u4, u5, p, q, r, x)
  {
    var P := Cubic(-u1 * u4 * u4 / p, (2.0 * u1 * u4 + u4 * u4) / p, -(2.0 * u4 + u1) / p, 1.0 / p);
    var Q := Cubic(-(u2 * u4 * u5 / q), (u2 * u4 + u2 * u5 + u4 * u5) / q, -((u2 + u4 + u5) / q), 1.0 / q);
    var R := Cubic(-(u3 * u5 * u5 / r), (2.0 * u3 * u5 + u5 * u5) / r, -((2.0 * u5 + u3) / r), 1.0 / r);
    forall x
      ensures Eval(c, x) == SecondBasis(u1, u2, u3, u4, u5, p, q, r, x)
    {
      SecondBasisNumerators(u1, u2, u3, u4, u5, x);
      SecondBasisLeft(u1, u4, p, x);
      SecondBasisMiddle(u2, u4, u5, q, x);
      SecondBasisRight(u3, u5, r, x);
      EvalOfSum(P, Q, R, x);
    }
  }

  lemma ThirdBasisExpanded(u2: real, u3: real, u4: real, u5: real, u6: real, q: real, r: real, s: real, c: Cubic)
    requires q != 0.0 && r != 0.0 && s != 0.0
    requires c == Cubic(u2 * u2 * u4 / q + u2 * u3 * u5 / r + u3 * u3 * u6 / s,
                        -(2.0 * u2 * u4 + u2 * u2) / q - (u2 * u3 + u2 * u5 + u3 * u5) / r - (2.0 * u3 * u6 + u3 * u3) / s,
                        (2.0 * u2 + u4) / q + (u2 + u5 + u3) / r + (2.0 * u3 + u6) / s,
                        -1.0 / q - 1.0 / r - 1.0 / s)
    ensures forall x :: Eval(c, x) == ThirdBasis(u2, u3, u4, u5, u6, q, r, s, x)
  {
    var Q := Cubic(u2 * u2 * u4 / q, -(2.0 * u2 * u4 + u2 * u2) / q, (2.0 * u2 + u4) / q, -1.0 / q);
    var R := Cubic(u2 * u3 * u5 / r, -((u2 * u3 + u2 * u5 + u3 * u5) / r), (u2 + u5 + u3) / r, -(1.0 / r));
    var S := Cubic(u3 * u3 * u6 / s, -((2.0 * u3 * u6 + u3 * u3) / s), (2.0 * u3 + u6) / s, -(1.0 / s));
    forall x
      ensures Eval(c, x) == ThirdBasis(u2, u3, u4, u5, u6, q, r, s, x)
    {
      ThirdBasisNumerators(u2, u3, u4, u5, u6, x);
      ThirdBasisLeft(u2, u4, q, x);
      ThirdBasisMiddle(u2, u3, u5, r, x);
      ThirdBasisRight(u3, u6, s, x);
      EvalOfSum(Q, R, S, x);
    }
  }

  function AddCubic(p: Cubic, q: Cubic): Cubic
  {
    Cubic(p.c0 + q.c0, p.c1 + q.c1, p.c2 + q.c2, p.c3 + q.c3)
  }

  function ScaleCubic(k: real, p: Cubic): Cubic
  {
    Cubic(k * p.c0, k * p.c1, k * p.c2, k * p.c3)
  }

  /** Evaluation distributes over the sum of two cubics. */
  lemma EvalAdd(a: Cubic, b: Cubic, x: real)
    ensures Eval(AddCubic(a, b), x) == Eval(a, x) + Eval(b, x)
  {
  }

  /** Evaluation commutes with scaling. */
  lemma EvalScale(k: real, a: Cubic, x: real)
    ensures Eval(ScaleCubic(k, a), x) == k * Eval(a, x)
  {
    assert k * a.c0 + k * a.c1 * x + k * a.c2 * x * x + k * a.c3 * x * x * x
        == k * (a.c0 + a.c1 * x + a.c2 * x * x + a.c3 * x * x * x);
  }

  /**
   * The first m terms b[i] B_0 + ... + b[i+m-1] B_(m-1) of the combination
   * of the four basis cubics of segment i, summed left to right; at every x
   * it takes the value of the same sum of B-splines.
   */
  function Combination(u: seq<real>, b: seq<real>, i: nat, p: real, q: real, r: real, s: real, m: nat): Cubic
    requires i + 6 < |u| && i + 3 < |b| && 1 <= m <= 4
    requires p != 0.0 && q != 0.0 && r != 0.0 && s != 0.0
  {
    var term := ScaleCubic(b[i + m - 1], BasisCubic(u, i, p, q, r, s, m - 1));
    if m == 1 then term else AddCubic(Combination(u, b, i, p, q, r, s, m - 1), term)
  }

  /** The value of w0 B0 + w1 B1 + w2 B2 + w3 B3 is the same sum of the values. */
  lemma SumOfFourValue(c: Cubic, b0: Cubic, b1: Cubic, b2: Cubic, b3: Cubic, w0: real, w1: real, w2: real, w3: real,
                       v0: real, v1: real, v2: real, v3: real, x: real)
    requires c == AddCubic(AddCubic(AddCubic(ScaleCubic(w0, b0), ScaleCubic(w1, b1)), ScaleCubic(w2, b2)), ScaleCubic(w3, b3))
    requires Eval(b0, x) == v0 && Eval(b1, x) == v1 && Eval(b2, x) == v2 && Eval(b3, x) == v3
    ensures Eval(c, x) == WeightedSum(w0, w1, w2, w3, v0, v1, v2, v3)
  {
    EvalScale(w0, b0, x);
    EvalScale(w1, b1, x);
    EvalScale(w2, b2, x);
    EvalScale(w3, b3, x);
    EvalAdd(ScaleCubic(w0, b0), ScaleCubic(w1, b1), x);
    EvalAdd(AddCubic(ScaleCubic(w0, b0), ScaleCubic(w1, b1)), ScaleCubic(w2, b2), x);
    EvalAdd(AddCubic(AddCubic(ScaleCubic(w0, b0), ScaleCubic(w1, b1)), ScaleCubic(w2, b2)), ScaleCubic(w3, b3), x);
  }

  /**
   * The spline sum b[i] B_i(x) + b[i+1] B_(i+1)(x) + b[i+2] B_(i+2)(x) +
   * b[i+3] B_(i+3)(x) of interior segment i, with the B-splines over the
   * padded knots.
   */
  function SegmentBlend(knots: seq<real>, b: seq<real>, i: nat, x: real): real
    requires |knots| >= 2 && Increasing(knots) && |b| == |knots| + 2
    requires i < |knots| - 1
  {
    var u := Padded(knots);
    PrefactorsPositive(knots, i);
    var p, q, r, s := PrefactorP(u, i), PrefactorQ(u, i), PrefactorR(u, i), PrefactorS(u, i);
    WeightedSum(b[i], b[i + 1], b[i + 2], b[i + 3], CoxDeBoor(u, i, p, q, r, s, 0, x), CoxDeBoor(u, i, p, q, r, s, 1, x),
                CoxDeBoor(u, i, p, q, r, s, 2, x), CoxDeBoor(u, i, p, q, r, s, 3, x))
  }

  /** w0 v0 + w1 v1 + w2 v2 + w3 v3. */
  function WeightedSum(w0: real, w1: real, w2: real, w3: real, v0: real, v1: real, v2: real, v3: real): real
  {
    w0 * v0 + w1 * v1 + w2 * v2 + w3 * v3
  }

  /** The unrounded power-basis cubic of interior segment i (i < nKnots - 1). */
  function RawSegment(knots: seq<real>, b: seq<real>, i: nat): Cubic
    requires |knots| >= 2 && Increasing(knots) && |b| == |knots| + 2
    requires i < |knots| - 1
  {
    var u := Padded(knots);
    PrefactorsPositive(knots, i);
    Combination(u, b, i, PrefactorP(u, i), PrefactorQ(u, i), PrefactorR(u, i), PrefactorS(u, i), 4)
  }

  /** The segment cubic written out as the four weighted basis cubics. */
  lemma RawSegmentExpanded(knots: seq<real>, b: seq<real>, i: nat)
    requires |knots| >= 2 && Increasing(knots) && |b| == |knots| + 2
    requires i < |knots| - 1
    ensures PrefactorP(Padded(knots), i) > 0.0 && PrefactorQ(Padded(knots), i) > 0.0
    ensures PrefactorR(Padded(knots), i) > 0.0 && PrefactorS(Padded(knots), i) > 0.0
    ensures var u := Padded(knots);
            var p, q, r, s := PrefactorP(u, i), PrefactorQ(u, i), PrefactorR(u, i), PrefactorS(u, i);
            RawSegment(knots, b, i)
            == AddCubic(AddCubic(AddCubic(ScaleCubic(b[i], BasisCubic(u, i, p, q, r, s, 0)),
                                          ScaleCubic(b[i + 1], BasisCubic(u, i, p, q, r, s, 1))),
                                 ScaleCubic(b[i + 2], BasisCubic(u, i, p, q, r, s, 2))),
                        ScaleCubic(b[i + 3], BasisCubic(u, i, p, q, r, s, 3)))
  {
    var u := Padded(knots);
    PrefactorsPositive(knots, i);
    var p, q, r, s := PrefactorP(u, i), PrefactorQ(u, i), PrefactorR(u, i), PrefactorS(u, i);
    var t0, t1 := ScaleCubic(b[i], BasisCubic(u, i, p, q, r, s, 0)), ScaleCubic(b[i + 1], BasisCubic(u, i, p, q, r, s, 1));
    var t2, t3 := ScaleCubic(b[i + 2], BasisCubic(u, i, p, q, r, s, 2)), ScaleCubic(b[i + 3], BasisCubic(u, i, p, q, r, s, 3));
    assert Combination(u, b, i, p, q, r, s, 1) == t0;
    assert Combination(u, b, i, p, q, r, s, 2) == AddCubic(t0, t1);
    assert Combination(u, b, i, p, q, r, s, 3) == AddCubic(AddCubic(t0, t1), t2);
  }

  /**
   * The power-basis conversion is exact: at every x the cubic of interior
   * segment i takes the value of the spline sum over its four B-splines.
   */
  lemma SegmentValue(knots: seq<real>, b: seq<real>, i: nat, x: real)
    requires |knots| >= 2 && Increasing(knots) && |b| == |knots| + 2
    requires i < |knots| - 1
    ensures Eval(RawSegment(knots, b, i), x) == SegmentBlend(knots, b, i, x)
  {
    var u := Padded(knots);
    PrefactorsPositive(knots, i);
    var p, q, r, s := PrefactorP(u, i), PrefactorQ(u, i), PrefactorR(u, i), PrefactorS(u, i);
    var b0, b1 := BasisCubic(u, i, p, q, r, s, 0), BasisCubic(u, i, p, q, r, s, 1);
    var b2, b3 := BasisCubic(u, i, p, q, r, s, 2), BasisCubic(u, i, p, q, r, s, 3);
    RawSegmentExpanded(knots, b, i);
    SumOfFourValue(RawSegment(knots, b, i), b0, b1, b2, b3, b[i], b[i + 1], b[i + 2], b[i + 3],
                   CoxDeBoor(u, i, p, q, r, s, 0, x), CoxDeBoor(u, i, p, q, r, s, 1, x),
                   CoxDeBoor(u, i, p, q, r, s, 2, x), CoxDeBoor(u, i, p, q, r, s, 3, x), x);
  }

  // ---------------------------------------------------------------------
  // Rounding of tiny coefficients

  /** A coefficient whose magnitude is below 1e-9 becomes exactly 0. */
  function Chop(y: real): (r: real)
    ensures r == 0.0 || (r == y && Abs(r) >= ChopThreshold)
    ensures Abs(y) >= ChopThreshold ==> r == y
    ensures Abs(y) < ChopThreshold ==> r == 0.0
  {
    if Abs(y) < ChopThreshold then 0.0 else y
  }

  function ChopCubic(p: Cubic): Cubic
  {
    Cubic(Chop(p.c0), Chop(p.c1), Chop(p.c2), Chop(p.c3))
  }

  /** The stored cubic of interior segment i: each coefficient 0 or at least 1e-9 in magnitude. */
  function InteriorSegment(knots: seq<real>, b: seq<real>, i: nat): (c: Cubic)
    requires |knots| >= 2 && Increasing(knots) && |b| == |knots| + 2
    requires i < |knots| - 1
    ensures forall d :: 0 <= d < 4 ==> Coeff(c, d) == 0.0 || Abs(Coeff(c, d)) >= ChopThreshold
  {
    ChopCubic(RawSegment(knots, b, i))
  }

  // ---------------------------------------------------------------------
  // Linear continuation after the last knot

  /** A cubic whose quadratic and cubic coefficients vanish: a line. */
  predicate Linear(t: Cubic)
  {
    t.c2 == 0.0 && t.c3 == 0.0
  }

  /**
   * The line through the value of `last` at v with the slope of `last` at
   * v: quadratic and cubic coefficients 0, same value and first derivative
   * at v.
   */
  function Tail(last: Cubic, v: real): (t: Cubic)
    ensures Linear(t)
    ensures Eval(t, v) == Eval(last, v)
    ensures t.c1 == Slope(last, v)
  {
    var slope := Slope(last, v);
    Cubic(Eval(last, v) - slope * v, slope, 0.0, 0.0)
  }

  /** The sequence f(0), ..., f(m-1). */
  function Tabulate(f: nat --> Cubic, m: nat): (table: seq<Cubic>)
    requires forall j: nat :: j < m ==> f.requires(j)
    ensures |table| == m
  {
    if m == 0 then [] else Tabulate(f, m - 1) + [f(m - 1)]
  }

  lemma {:induction false} TabulateIndex(f: nat --> Cubic, m: nat, i: nat)
    requires forall j: nat :: j < m ==> f.requires(j)
    requires i < m
    ensures Tabulate(f, m)[i] == f(i)
  {
    if i < m - 1 {
      TabulateIndex(f, m - 1, i);
    }
  }

  /** The stored cubics of the interior segments 0 .. m-1, in order. */
  function InteriorsBelow(knots: seq<real>, b: seq<real>, m: nat): (rows: seq<Cubic>)
    requires |knots| >= 2 && Increasing(knots) && |b| == |knots| + 2
    requires m < |knots|
    ensures |rows| == m
  {
    Tabulate((i: nat) requires i < |knots| - 1 => InteriorSegment(knots, b, i), m)
  }

  lemma InteriorsBelowIndex(knots: seq<real>, b: seq<real>, m: nat, i: nat)
    requires |knots| >= 2 && Increasing(knots) && |b| == |knots| + 2
    requires i < m < |knots|
    ensures InteriorsBelow(knots, b, m)[i] == InteriorSegment(knots, b, i)
  {
    TabulateIndex((i: nat) requires i < |knots| - 1 => InteriorSegment(knots, b, i), m, i);
  }

  /** Every row of InteriorsBelow is the stored cubic of its segment. */
  lemma InteriorsBelowAll(knots: seq<real>, b: seq<real>, m: nat)
    requires |knots| >= 2 && Increasing(knots) && |b| == |knots| + 2
    requires m < |knots|
    ensures forall i :: 0 <= i < m ==> InteriorsBelow(knots, b, m)[i] == InteriorSegment(knots, b, i)
  {
    forall i | 0 <= i < m
      ensures InteriorsBelow(knots, b, m)[i] == InteriorSegment(knots, b, i)
    {
      InteriorsBelowIndex(knots, b, m, i);
    }
  }

  /** One more interior segment extends the sequence by its cubic. */
  lemma InteriorsBelowNext(knots: seq<real>, b: seq<real>, m: nat)
    requires |knots| >= 2 && Increasing(knots) && |b| == |knots| + 2
    requires m < |knots| - 1
    ensures InteriorsBelow(knots, b, m + 1) == InteriorsBelow(knots, b, m) + [InteriorSegment(knots, b, m)]
  {
  }

  /**
   * The whole AS table as a sequence of cubics, one per segment: the
   * interior cubics followed by the linear continuation of the last of
   * them, taken at the last knot.
   */
  function Segments(knots: seq<real>, b: seq<real>): (table: seq<Cubic>)
    requires |knots| >= 2 && Increasing(knots) && |b| == |knots| + 2
    ensures |table| == |knots|
    ensures Linear(table[|knots| - 1])
    ensures Eval(table[|knots| - 1], knots[|knots| - 1]) == Eval(table[|knots| - 2], knots[|knots| - 1])
    ensures table[|knots| - 1].c1 == Slope(table[|knots| - 2], knots[|knots| - 1])
    ensures forall i :: 0 <= i < |knots| - 1 ==> table[i] == InteriorSegment(knots, b, i)
  {
    var n := |knots|;
    var rows := InteriorsBelow(knots, b, n - 1);
    InteriorsBelowAll(knots, b, n - 1);
    rows + [Tail(rows[n - 2], knots[n - 1])]
  }

  /** A line c0 + c1 x with c1 != 0 vanishes at -c0 / c1. */
  function LineRoot(t: Cubic): (x: real)
    requires Linear(t) && t.c1 != 0.0
    ensures Eval(t, x) == 0.0
  {
    var x := -t.c0 / t.c1;
    assert t.c1 * x == -t.c0;
    x
  }

  /** A descending line is past its root at x: where the spline value is floored. */
  predicate PastRoot(t: Cubic, x: real)
    requires Linear(t)
  {
    t.c1 < 0.0 && x > LineRoot(t)
  }

  /** The tail of the spline slopes down, so it turns negative somewhere after the last knot. */
  predicate NegativeTail(knots: seq<real>, b: seq<real>)
    requires |knots| >= 2 && Increasing(knots) && |b| == |knots| + 2
  {
    Segments(knots, b)[|knots| - 1].c1 < 0.0
  }

  /** The root of the descending tail line. */
  function XNegative(knots: seq<real>, b: seq<real>): (x: real)
    requires |knots| >= 2 && Increasing(knots) && |b| == |knots| + 2
    requires NegativeTail(knots, b)
    ensures Eval(Segments(knots, b)[|knots| - 1], x) == 0.0
  {
    LineRoot(Segments(knots, b)[|knots| - 1])
  }

  // ---------------------------------------------------------------------
  // Locating the segment and evaluating

  /**
   * The index left in j by scanning knots[0..m) and remembering every i
   * with x >= knots[i]; 0 if there is none.
   */
  function LastAtMost(knots: seq<real>, x: real, m: nat): (j: nat)
    requires m <= |knots|
    ensures j < m || j == 0
    ensures j == 0 || knots[j] <= x
    ensures forall i :: j < i < m ==> x < knots[i]
  {
    if m == 0 then 0
    else if x >= knots[m - 1] then m - 1
    else LastAtMost(knots, x, m - 1)
  }

  /** The segment a point belongs to: the last knot at or below x, else 0. */
  function KnotIndex(knots: seq<real>, x: real): (j: nat)
    requires |knots| >= 1
    ensures j < |knots|
    ensures j == 0 || knots[j] <= x
    ensures forall i :: j < i < |knots| ==> x < knots[i]
  {
    LastAtMost(knots, x, |knots|)
  }

  /**
   * x lies in segment j: below the second knot for j = 0, at or after the
   * last knot for j = nKnots - 1, and in [knots[j], knots[j+1]) otherwise.
   */
  predicate InSegment(knots: seq<real>, j: nat, x: real)
    requires j < |knots|
  {
    && (j == 0 || knots[j] <= x)
    && (j == |knots| - 1 || x < knots[j + 1])
  }

  /** With increasing knots x lies in the bracket of its segment. */
  lemma KnotIndexBracket(knots: seq<real>, x: real)
    requires |knots| >= 1 && Increasing(knots)
    ensures KnotIndex(knots, x) < |knots|
    ensures x < knots[0] ==> KnotIndex(knots, x) == 0
    ensures knots[0] <= x ==> knots[KnotIndex(knots, x)] <= x
    ensures KnotIndex(knots, x) < |knots| - 1 ==> x < knots[KnotIndex(knots, x) + 1]
    ensures knots[|knots| - 1] <= x ==> KnotIndex(knots, x) == |knots| - 1
    ensures InSegment(knots, KnotIndex(knots, x), x)
    ensures forall j :: 0 <= j < |knots| && InSegment(knots, j, x) ==> j == KnotIndex(knots, x)
  {
    var k := KnotIndex(knots, x);
    if 0 < k {
      KnotsOrdered(knots, 0, k);
    }
    forall j | 0 <= j < |knots| && InSegment(knots, j, x)
      ensures j == k
    {
      if j + 1 < k {
        KnotsOrdered(knots, j + 1, k);
      }
    }
  }

  /**
   * The value at x of a spline with the given table of segment cubics (the
   * last one a line): the floor 1e-3 where the line has turned negative,
   * otherwise the cubic of the segment x falls in.
   */
  function TableValue(knots: seq<real>, table: seq<Cubic>, x: real): (r: real)
    requires |knots| >= 1 && Increasing(knots)
    requires |table| == |knots| && Linear(table[|table| - 1])
    ensures PastRoot(table[|table| - 1], x) ==> r == NegativeFloor
    ensures !PastRoot(table[|table| - 1], x) ==>
      forall j :: 0 <= j < |knots| && InSegment(knots, j, x) ==> r == Eval(table[j], x)
  {
    if PastRoot(table[|table| - 1], x) then NegativeFloor
    else
      KnotIndexBracket(knots, x);
      Eval(table[KnotIndex(knots, x)], x)
  }

  /** The value of the spline built from the knots and the coefficients b. */
  function SplineValue(knots: seq<real>, b: seq<real>, x: real): (r: real)
    requires |knots| >= 2 && Increasing(knots) && |b| == |knots| + 2
    ensures NegativeTail(knots, b) && x > XNegative(knots, b) ==> r == NegativeFloor
    ensures !(NegativeTail(knots, b) && x > XNegative(knots, b)) ==>
      && (forall j :: 0 <= j < |knots| - 1 && InSegment(knots, j, x) ==> r == Eval(InteriorSegment(knots, b, j), x))
      && (knots[|knots| - 1] <= x ==> r == Eval(Segments(knots, b)[|knots| - 1], x))
  {
    KnotIndexBracket(knots, x);
    TableValue(knots, Segments(knots, b), x)
  }

  /** A descending line is non-negative up to its root. */
  lemma LineNonNegativeBeforeRoot(t: Cubic, x: real)
    requires Linear(t) && t.c1 < 0.0
    requires x <= LineRoot(t)
    ensures Eval(t, x) >= 0.0
  {
    var root := LineRoot(t);
    assert t.c1 * x >= t.c1 * root;
  }

  /**
   * When the tail slopes down, the value past the last knot is never
   * negative: up to the root the line is above 0, after it the floor is
   * returned.
   */
  lemma SplineNonNegativeAfterLastKnot(knots: seq<real>, b: seq<real>, x: real)
    requires |knots| >= 2 && Increasing(knots) && |b| == |knots| + 2
    requires NegativeTail(knots, b)
    requires x >= knots[|knots| - 1]
    ensures SplineValue(knots, b, x) >= 0.0
  {
    var t := Segments(knots, b)[|knots| - 1];
    if x <= LineRoot(t) {
      KnotIndexBracket(knots, x);
      LineNonNegativeBeforeRoot(t, x);
    }
  }
}
