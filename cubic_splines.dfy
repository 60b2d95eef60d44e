/**
 * The efficiency spline as a stateful object. The constructors pad the
 * knot vector, turn the B-spline coefficients into one power-basis cubic per
 * segment (the AS table, row d holding the coefficients of x^d), round tiny
 * coefficients to 0, replace the last segment by its linear continuation and
 * record where that line turns negative. Evaluation locates the segment by a
 * linear scan of the knots.
 *
 * The template parameter nKnots is the constant field `n`; the fixed-size
 * member arrays are arrays allocated once by the constructors.
 */
module CubicSplines {
  import opened Numerics
  import opened CubicSplineBasis

  class CubicSpline {
    /** The number of knots (the template parameter nKnots). */
    const n: nat
    /** The padded knots, n + 6 entries. */
    const u: array<real>
    /** AS[d, i] is the coefficient of x^d on segment i; 4 x n entries. */
    const AS: array2<real>
    /** 0!, 1!, 2!, 3! */
    const factorial: array<int>
    var NegativePart: bool
    var xNegative: real

    /** The knots and B-spline coefficients the spline was built from. */
    ghost var knots: seq<real>
    ghost var coeffs: seq<real>
    /** The AS table read as one cubic per segment. */
    ghost var table: seq<Cubic>

    ghost predicate Valid()
      reads this, u, AS, factorial
    {
      && KnotsValid()
      && |coeffs| == n + 2
      && AS.Length0 == 4 && AS.Length1 == n
      && table == Segments(knots, coeffs)
      && (forall d, i :: 0 <= d < 4 && 0 <= i < n ==> AS[d, i] == Coeff(table[i], d))
      && NegativePart == (table[n - 1].c1 < 0.0)
      && (NegativePart ==> xNegative == LineRoot(table[n - 1]))
      && factorial.Length == 4 && factorial[..] == [1, 1, 2, 6]
    }

    /** The knots are strictly increasing and u holds them padded. */
    ghost predicate KnotsValid()
      reads this, u
    {
      n >= 2 && |knots| == n && Increasing(knots) && u.Length == n + 6 && u[..] == Padded(knots)
    }

    /** The spline from a knot array and a list of nKnots + 2 coefficients. */
    constructor (knotArr: array<real>, coefficients: seq<real>)
      requires knotArr.Length >= 2 && Increasing(knotArr[..])
      requires |coefficients| == knotArr.Length + 2
      ensures Valid() && fresh(u) && fresh(AS) && fresh(factorial)
      ensures n == knotArr.Length && knots == knotArr[..] && coeffs == coefficients
    {
      n := knotArr.Length;
      knots := knotArr[..];
      coeffs := coefficients;
      var padded, columns, negative, root, segments := Build(knotArr, knotArr[..], coefficients);
      u, AS := padded, columns;
      NegativePart, xNegative := negative, root;
      table := segments;
      var f := Factorials();
      factorial := f;
    }

    /** The spline from a knot array and an array of nKnots + 2 coefficients; same result as the list form. */
    constructor FromArrays(knotArr: array<real>, coefficientArr: array<real>)
      requires knotArr.Length >= 2 && Increasing(knotArr[..])
      requires coefficientArr.Length == knotArr.Length + 2
      ensures Valid() && fresh(u) && fresh(AS) && fresh(factorial)
      ensures n == knotArr.Length && knots == knotArr[..] && coeffs == coefficientArr[..]
    {
      n := knotArr.Length;
      knots := knotArr[..];
      coeffs := coefficientArr[..];
      var padded, columns, negative, root, segments := Build(knotArr, knotArr[..], coefficientArr[..]);
      u, AS := padded, columns;
      NegativePart, xNegative := negative, root;
      table := segments;
      var f := Factorials();
      factorial := f;
    }

    /** The table of factorials k! for k < 4. */
    static method Factorials() returns (f: array<int>)
      ensures fresh(f) && f[..] == [1, 1, 2, 6]
    {
      f := new int[4];
      f[0] := 1;
      f[1] := 1;
      f[2] := 2;
      f[3] := 6;
    }

    /**
     * The body both value constructors share: pad the knots, compute the
     * prefactors, fill the AS table with the rounded interior cubics, append
     * the linear tail and decide where it turns negative. `root` is only
     * meaningful when `negative` holds.
     */
    static method Build(knotArr: array<real>, ghost knots: seq<real>, coefficients: seq<real>)
      returns (u: array<real>, AS: array2<real>, negative: bool, root: real, ghost table: seq<Cubic>)
      requires knotArr[..] == knots && |knots| >= 2 && Increasing(knots)
      requires |coefficients| == |knots| + 2
      ensures fresh(u) && fresh(AS)
      ensures u[..] == Padded(knots)
      ensures table == Segments(knots, coefficients)
      ensures AS.Length0 == 4 && AS.Length1 == |knots|
      ensures forall d, i :: 0 <= d < 4 && 0 <= i < |knots| ==> AS[d, i] == Coeff(table[i], d)
      ensures negative == NegativeTail(knots, coefficients)
      ensures negative ==> root == XNegative(knots, coefficients)
    {
      var n := knotArr.Length;
      var b;
      u, b := PadKnots(knotArr, knots, coefficients);
      var P, Q, R, S := Prefactors(u, Padded(knots));
      ghost var rows;
      AS, rows := InteriorColumns(u, b, P, Q, R, S, knots, coefficients);

      // linear continuation after the last knot
      var v := u[n + 2];
      ghost var last := LinearTail(AS, v);
      assert last == rows[n - 2];
      table := rows + [Tail(last, v)];
      forall d, i | 0 <= d < 4 && 0 <= i < n
        ensures AS[d, i] == Coeff(table[i], d)
      {
        if i < n - 1 {
          assert table[i] == rows[i];
        }
      }

      // where the continuation turns negative
      if AS[1, n - 1] < 0.0 {
        negative := true;
        root := -AS[0, n - 1] / AS[1, n - 1];
      } else {
        // the C++ constructor leaves xNegative unset here; any value will do
        negative, root := false, 0.0;
      }
    }

    /**
     * The last column of AS replaced by the linear continuation of the
     * cubic in the column before it, taken at v; `last` is that cubic.
     */
    static method LinearTail(AS: array2<real>, v: real) returns (ghost last: Cubic)
      requires AS.Length0 == 4 && AS.Length1 >= 2
      modifies AS
      ensures var k := AS.Length1 - 2;
        last == Cubic(old(AS[0, k]), old(AS[1, k]), old(AS[2, k]), old(AS[3, k]))
      ensures forall d :: 0 <= d < 4 ==> AS[d, AS.Length1 - 1] == Coeff(Tail(last, v), d)
      ensures forall d, j :: 0 <= d < 4 && 0 <= j < AS.Length1 - 1 ==> AS[d, j] == old(AS[d, j])
    {
      var n := AS.Length1;
      var previous := Cubic(AS[0, n - 2], AS[1, n - 2], AS[2, n - 2], AS[3, n - 2]);
      AS[3, n - 1] := 0.0;
      AS[2, n - 1] := 0.0;
      AS[1, n - 1] := Slope(previous, v);
      AS[0, n - 1] := Eval(previous, v) - AS[1, n - 1] * v;
      last := previous;
    }

    /** The padded knot vector (first and last knot repeated three times more) and a copy of the coefficients. */
    static method PadKnots(knotArr: array<real>, ghost knots: seq<real>, coefficients: seq<real>)
      returns (u: array<real>, b: array<real>)
      requires knotArr[..] == knots && |knots| >= 1
      requires |coefficients| == |knots| + 2
      ensures fresh(u) && fresh(b)
      ensures u[..] == Padded(knots) && b[..] == coefficients
    {
      var n := knotArr.Length;
      u := new real[n + 6];
      b := new real[n + 2];
      u[0], u[1], u[2] := knotArr[0], knotArr[0], knotArr[0];
      for i := 0 to n
        modifies u, b
        invariant u[0] == knotArr[0] && u[1] == knotArr[0] && u[2] == knotArr[0]
        invariant forall j :: 0 <= j < i ==> u[3 + j] == knotArr[j]
        invariant forall j :: 0 <= j < i ==> b[j] == coefficients[j]
      {
        u[3 + i] := knotArr[i];
        b[i] := coefficients[i];
      }
      b[n] := coefficients[n];
      b[n + 1] := coefficients[n + 1];
      assert b[..] == coefficients;
      u[n + 3] := knotArr[n - 1];
      u[n + 4] := knotArr[n - 1];
      u[n + 5] := knotArr[n - 1];
      PaddedByEntries(knots, u[..]);
    }

    /** The four prefactor products of every segment, read off the padded knots `padded` held in u. */
    static method Prefactors(u: array<real>, ghost padded: seq<real>)
      returns (P: array<real>, Q: array<real>, R: array<real>, S: array<real>)
      requires u.Length >= 6 && u[..] == padded
      ensures fresh(P) && fresh(Q) && fresh(R) && fresh(S)
      ensures P.Length == Q.Length == R.Length == S.Length == u.Length - 6
      ensures forall j :: 0 <= j < u.Length - 6 ==> P[j] == PrefactorP(padded, j)
      ensures forall j :: 0 <= j < u.Length - 6 ==> Q[j] == PrefactorQ(padded, j)
      ensures forall j :: 0 <= j < u.Length - 6 ==> R[j] == PrefactorR(padded, j)
      ensures forall j :: 0 <= j < u.Length - 6 ==> S[j] == PrefactorS(padded, j)
    {
      var n := u.Length - 6;
      P, Q, R, S := new real[n], new real[n], new real[n], new real[n];
      for i := 0 to n
        modifies P, Q, R, S
        invariant forall j :: 0 <= j < i ==> P[j] == PrefactorP(padded, j)
        invariant forall j :: 0 <= j < i ==> Q[j] == PrefactorQ(padded, j)
        invariant forall j :: 0 <= j < i ==> R[j] == PrefactorR(padded, j)
        invariant forall j :: 0 <= j < i ==> S[j] == PrefactorS(padded, j)
      {
        var p := Product3(u[i + 4] - u[i + 1], u[i + 4] - u[i + 2], u[i + 4] - u[i + 3]);
        var q := Product3(u[i + 5] - u[i + 2], u[i + 4] - u[i + 2], u[i + 4] - u[i + 3]);
        var r := Product3(u[i + 5] - u[i + 3], u[i + 5] - u[i + 2], u[i + 4] - u[i + 3]);
        var s := Product3(u[i + 6] - u[i + 3], u[i + 5] - u[i + 3], u[i + 4] - u[i + 3]);
        assert p == PrefactorP(padded, i) && q == PrefactorQ(padded, i);
        assert r == PrefactorR(padded, i) && s == PrefactorS(padded, i);
        P[i], Q[i], R[i], S[i] := p, q, r, s;
      }
    }

    /**
     * The AS columns of the interior segments: segment i combines the four
     * basis cubics with weights b[i..i+4], and each coefficient below 1e-9
     * in magnitude is rounded to 0. Column n - 1 is left for the tail.
     */
    static method InteriorColumns(u: array<real>, b: array<real>, P: array<real>, Q: array<real>,
                                  R: array<real>, S: array<real>, ghost knots: seq<real>,
                                  ghost coefficients: seq<real>)
      returns (AS: array2<real>, ghost rows: seq<Cubic>)
      requires |knots| >= 2 && Increasing(knots) && u[..] == Padded(knots) && b[..] == coefficients
      requires |coefficients| == |knots| + 2
      requires P.Length == Q.Length == R.Length == S.Length == |knots|
      requires forall j :: 0 <= j < |knots| ==> P[j] == PrefactorP(Padded(knots), j)
      requires forall j :: 0 <= j < |knots| ==> Q[j] == PrefactorQ(Padded(knots), j)
      requires forall j :: 0 <= j < |knots| ==> R[j] == PrefactorR(Padded(knots), j)
      requires forall j :: 0 <= j < |knots| ==> S[j] == PrefactorS(Padded(knots), j)
      ensures fresh(AS) && AS.Length0 == 4 && AS.Length1 == |knots|
      ensures rows == InteriorsBelow(knots, coefficients, |knots| - 1)
      ensures forall d, j :: 0 <= d < 4 && 0 <= j < |knots| - 1 ==> AS[d, j] == Coeff(rows[j], d)
    {
      var n := b.Length - 2;
      AS := new real[4, n];
      rows := [];
      for i := 0 to n - 1
        modifies AS
        invariant u[..] == Padded(knots) && b[..] == coefficients
        invariant rows == InteriorsBelow(knots, coefficients, i)
        invariant forall d, j :: 0 <= d < 4 && 0 <= j < i ==> AS[d, j] == Coeff(rows[j], d)
      {
        PrefactorsPositive(knots, i);
        var raw := SegmentSums(u, b, P[i], Q[i], R[i], S[i], i);
        assert raw == RawSegment(knots, coefficients, i);
        StoreColumn(AS, i, raw);
        InteriorsBelowNext(knots, coefficients, i);
        rows := rows + [InteriorSegment(knots, coefficients, i)];
      }
    }

    /** Column i of AS set to the cubic c, each coefficient below 1e-9 in magnitude rounded to 0. */
    static method StoreColumn(AS: array2<real>, i: nat, c: Cubic)
      requires AS.Length0 == 4 && i < AS.Length1
      modifies AS
      ensures forall d :: 0 <= d < 4 ==> AS[d, i] == Coeff(ChopCubic(c), d)
      ensures forall d, j :: 0 <= d < 4 && 0 <= j < AS.Length1 && j != i ==> AS[d, j] == old(AS[d, j])
    {
      AS[0, i] := c.c0;
      AS[1, i] := c.c1;
      AS[2, i] := c.c2;
      AS[3, i] := c.c3;
      if Abs(AS[0, i]) < ChopThreshold { AS[0, i] := 0.0; }
      if Abs(AS[1, i]) < ChopThreshold { AS[1, i] := 0.0; }
      if Abs(AS[2, i]) < ChopThreshold { AS[2, i] := 0.0; }
      if Abs(AS[3, i]) < ChopThreshold { AS[3, i] := 0.0; }
    }

    /**
     * The unrounded cubic of segment i: b[i] B_0 + b[i+1] B_1 + b[i+2] B_2 +
     * b[i+3] B_3, where B_k is the k-th basis cubic of the segment.
     */
    static method SegmentSums(u: array<real>, b: array<real>, p: real, q: real, r: real, s: real, i: nat)
      returns (c: Cubic)
      requires i + 6 < u.Length && i + 3 < b.Length
      requires p != 0.0 && q != 0.0 && r != 0.0 && s != 0.0
      ensures c == Combination(u[..], b[..], i, p, q, r, s, 4)
    {
      var a0 := BasisCubic(u[..], i, p, q, r, s, 0);
      var a1 := BasisCubic(u[..], i, p, q, r, s, 1);
      var a2 := BasisCubic(u[..], i, p, q, r, s, 2);
      var a3 := BasisCubic(u[..], i, p, q, r, s, 3);
      ghost var U, B := u[..], b[..];
      // the four rows of AS summed together, one weighted basis cubic at a time
      c := ScaleCubic(b[i], a0);
      assert c == Combination(U, B, i, p, q, r, s, 1);
      c := AddCubic(c, ScaleCubic(b[i + 1], a1));
      assert c == Combination(U, B, i, p, q, r, s, 2);
      c := AddCubic(c, ScaleCubic(b[i + 2], a2));
      assert c == Combination(U, B, i, p, q, r, s, 3);
      c := AddCubic(c, ScaleCubic(b[i + 3], a3));
    }

    /** The copy constructor: every field reproduced, in fresh arrays. */
    constructor Copy(other: CubicSpline)
      requires other.Valid()
      ensures Valid() && fresh(u) && fresh(AS) && fresh(factorial)
      ensures n == other.n && knots == other.knots && coeffs == other.coeffs && table == other.table
      ensures u[..] == other.u[..] && factorial[..] == other.factorial[..]
      ensures forall d, i :: 0 <= d < 4 && 0 <= i < n ==> AS[d, i] == other.AS[d, i]
      ensures NegativePart == other.NegativePart && xNegative == other.xNegative
    {
      n := other.n;
      knots, coeffs, table := other.knots, other.coeffs, other.table;
      u := new real[other.n + 6];
      AS := new real[4, other.n];
      factorial := new int[4];
      new;
      CopyFrom(other);
    }

    /** Assignment: copy every field of other, or nothing when other is this object. */
    method Assign(other: CubicSpline)
      requires other.Valid() && other.n == n
      requires u.Length == n + 6 && AS.Length0 == 4 && AS.Length1 == n && factorial.Length == 4
      requires other != this ==> u != other.u && AS != other.AS && factorial != other.factorial
      modifies this, u, AS, factorial
      ensures Valid()
      ensures knots == old(other.knots) && coeffs == old(other.coeffs) && table == old(other.table)
      ensures u[..] == old(other.u[..]) && factorial[..] == old(other.factorial[..])
      ensures forall d, i :: 0 <= d < 4 && 0 <= i < n ==> AS[d, i] == old(other.AS[d, i])
      ensures NegativePart == old(other.NegativePart) && xNegative == old(other.xNegative)
      ensures other == this ==> unchanged(this, u, AS, factorial)
    {
      if this == other {
        return;
      }
      CopyFrom(other);
    }

    /** The field-by-field copy shared by the copy constructor and the assignment. */
    method CopyFrom(other: CubicSpline)
      requires other != this && other.n == n
      requires u.Length == n + 6 && AS.Length0 == 4 && AS.Length1 == n && factorial.Length == 4
      requires other.u.Length == n + 6 && other.AS.Length0 == 4 && other.AS.Length1 == n
      requires other.factorial.Length == 4
      requires u != other.u && AS != other.AS && factorial != other.factorial
      modifies this, u, AS, factorial
      ensures knots == other.knots && coeffs == other.coeffs && table == other.table
      ensures u[..] == other.u[..] && factorial[..] == other.factorial[..]
      ensures forall d, i :: 0 <= d < 4 && 0 <= i < n ==> AS[d, i] == other.AS[d, i]
      ensures NegativePart == other.NegativePart && xNegative == other.xNegative
    {
      CopyTables(other);
      NegativePart := other.NegativePart;
      xNegative := other.xNegative;
      for i := 0 to 4
        modifies factorial
        invariant forall j :: 0 <= j < i ==> factorial[j] == other.factorial[j]
      {
        factorial[i] := other.factorial[i];
      }
      assert factorial[..] == other.factorial[..];
      knots, coeffs, table := other.knots, other.coeffs, other.table;
    }

    /** The knot vector and the AS table copied entry by entry from other. */
    method CopyTables(other: CubicSpline)
      requires other.n == n
      requires u.Length == n + 6 && AS.Length0 == 4 && AS.Length1 == n
      requires other.u.Length == n + 6 && other.AS.Length0 == 4 && other.AS.Length1 == n
      requires u != other.u && AS != other.AS
      modifies u, AS
      ensures u[..] == other.u[..]
      ensures forall d, i :: 0 <= d < 4 && 0 <= i < n ==> AS[d, i] == other.AS[d, i]
    {
      u[0], u[1], u[2] := other.u[0], other.u[1], other.u[2];
      for i := 0 to n
        modifies u, AS
        invariant u[0] == other.u[0] && u[1] == other.u[1] && u[2] == other.u[2]
        invariant forall j :: 3 <= j < 3 + i ==> u[j] == other.u[j]
        invariant forall d, j :: 0 <= d < 4 && 0 <= j < i ==> AS[d, j] == other.AS[d, j]
      {
        u[3 + i] := other.u[3 + i];
        AS[0, i] := other.AS[0, i];
        AS[1, i] := other.AS[1, i];
        AS[2, i] := other.AS[2, i];
        AS[3, i] := other.AS[3, i];
      }
      u[n + 3], u[n + 4], u[n + 5] := other.u[n + 3], other.u[n + 4], other.u[n + 5];
      assert u[..] == other.u[..];
    }

    /**
     * The segment of x: the last knot index i with x >= knots[i], or 0 when
     * x lies below every knot.
     */
    method FindKnot(x: real) returns (j: nat)
      requires KnotsValid()
      ensures j == KnotIndex(knots, x) && j < n
    {
      j := 0;
      for i := 0 to n
        invariant j == LastAtMost(knots, x, i)
      {
        assert u[3 + i] == knots[i];
        if x >= u[3 + i] {
          j := i;
        }
      }
    }

    /**
     * The spline at x: 1e-3 where the linear tail has turned negative,
     * otherwise the cubic of the segment of x.
     */
    method CSplineEval(x: real) returns (r: real)
      requires Valid()
      ensures r == SplineValue(knots, coeffs, x)
      ensures NegativePart && x >= knots[n - 1] ==> r >= 0.0
    {
      if x > xNegative && NegativePart {
        r := NegativeFloor;
      } else {
        var j := FindKnot(x);
        var segment := Cubic(AS[0, j], AS[1, j], AS[2, j], AS[3, j]);
        assert segment == table[j];
        r := Eval(segment, x);
      }
      if NegativePart && x >= knots[n - 1] {
        SplineNonNegativeAfterLastKnot(knots, coeffs, x);
      }
    }

    function GetFactorial(): (f: seq<int>)
      reads this, u, AS, factorial
      requires Valid()
      ensures f == [1, 1, 2, 6]
    {
      factorial[..]
    }

    /** The padded knot vector. */
    function GetKnots(): (k: seq<real>)
      reads this, u, AS, factorial
      requires Valid()
      ensures k == Padded(knots)
    {
      u[..]
    }

    /** Coefficient of x^d on segment i. */
    function GetOverCoeff(d: nat, i: nat): (c: real)
      reads this, u, AS, factorial
      requires Valid() && d < 4 && i < n
      ensures c == Coeff(Segments(knots, coeffs)[i], d)
      ensures i < n - 1 ==> c == 0.0 || Abs(c) >= ChopThreshold
    {
      AS[d, i]
    }

    function GetNegativePart(): (b: bool)
      reads this, u, AS, factorial
      requires Valid()
      ensures b <==> NegativeTail(knots, coeffs)
    {
      NegativePart
    }

    /** Where the tail line crosses 0; meaningful only when it slopes down. */
    function GetxNegative(): (x: real)
      reads this, u, AS, factorial
      requires Valid()
      ensures NegativePart ==> x == XNegative(knots, coeffs)
    {
      xNegative
    }
  }
}
