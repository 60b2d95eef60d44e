/**
 * The phi_s signal functor as a stateful object: the 17 parameters, and
 * the cached coefficient tables A, B, C, D (a_k, b_k, c_k, d_k) and N
 * (polarization factors) that Update derives from them and Evaluate reads.
 *
 * The template parameter B0sbar is the constant field `antiparticle`. The
 * transcendental functions, the angular basis and the coefficient
 * derivation of Update_ATCoefficients are constant fields holding function
 * values. Each coefficient table is a ten-entry array owned by the object.
 */
module PhisSignals {
  import opened Numerics
  import opened PhisSignalDensity

  class PhisSignal {
    /** B0sbar: the functor describes the antiparticle. */
    const antiparticle: bool
    const m: Math
    /** Update_ATCoefficients: the tables a_k, b_k, c_k, d_k for given parameters. */
    const derive: Derivation
    /** parameters::AngularFunctions. */
    const angular: AngularBasis
    /** The 17 parameters, in the order A_0^2, A_perp^2, A_S^2, DeltaGamma_sd, DeltaGamma, DeltaM, ... */
    var par: seq<real>
    const A: array<real>
    const B: array<real>
    const C: array<real>
    const D: array<real>
    const N: array<real>

    /** Sizes, and five distinct tables. */
    ghost predicate Shape()
      reads this
    {
      && |par| == ParameterCount && WellFormed(derive(par)) && Sized(angular)
      && A.Length == TermCount && B.Length == TermCount && C.Length == TermCount
      && D.Length == TermCount && N.Length == TermCount
      && A != B && A != C && A != D && A != N && B != C && B != D && B != N
      && C != D && C != N && D != N
    }

    /**
     * The tables are up to date: A, B, C, D are the derivation of the
     * parameters, and N holds the polarization factors whenever A_par2 >= 0.
     */
    ghost predicate Ready()
      reads this, A, B, C, D, N
    {
      && Shape()
      && A[..] == derive(par).a && B[..] == derive(par).b
      && C[..] == derive(par).c && D[..] == derive(par).d
      && (Apar2(par) >= 0.0 ==> N[..] == NFactors(m, par))
    }

    /** The five tables. */
    function Tables(): set<array<real>>
    {
      {A, B, C, D, N}
    }

    /** The functor from its 17 parameters, given in order (a parameter list or a parameter array). */
    constructor (antiparticle: bool, m: Math, derive: Derivation, angular: AngularBasis, params: seq<real>)
      requires |params| == ParameterCount && WellFormed(derive(params)) && Sized(angular)
      ensures Ready()
      ensures this.antiparticle == antiparticle && this.m == m && this.derive == derive && this.angular == angular
      ensures par == params
      ensures fresh(A) && fresh(B) && fresh(C) && fresh(D) && fresh(N)
    {
      this.antiparticle, this.m, this.derive, this.angular := antiparticle, m, derive, angular;
      par := params;
      A, B, C, D, N := new real[TermCount], new real[TermCount], new real[TermCount], new real[TermCount], new real[TermCount];
      new;
      Update();
    }

    /** The functor from an array of 17 parameter values; same result as the list form. */
    constructor FromArray(antiparticle: bool, m: Math, derive: Derivation, angular: AngularBasis, hs: array<real>)
      requires hs.Length == ParameterCount && WellFormed(derive(hs[..])) && Sized(angular)
      ensures Ready()
      ensures this.antiparticle == antiparticle && this.m == m && this.derive == derive && this.angular == angular
      ensures par == hs[..]
      ensures fresh(A) && fresh(B) && fresh(C) && fresh(D) && fresh(N)
    {
      this.antiparticle, this.m, this.derive, this.angular := antiparticle, m, derive, angular;
      par := hs[..];
      A, B, C, D, N := new real[TermCount], new real[TermCount], new real[TermCount], new real[TermCount], new real[TermCount];
      new;
      Update();
    }

    /** The copy constructor: the parameters and all five tables, in fresh arrays. */
    constructor Copy(other: PhisSignal)
      requires other.Shape()
      ensures Shape() && (other.Ready() ==> Ready())
      ensures antiparticle == other.antiparticle && m == other.m && derive == other.derive && angular == other.angular
      ensures par == other.par
      ensures A[..] == other.A[..] && B[..] == other.B[..] && C[..] == other.C[..]
      ensures D[..] == other.D[..] && N[..] == other.N[..]
      ensures fresh(A) && fresh(B) && fresh(C) && fresh(D) && fresh(N)
    {
      antiparticle, m, derive, angular := other.antiparticle, other.m, other.derive, other.angular;
      par := other.par;
      A, B, C, D, N := new real[TermCount], new real[TermCount], new real[TermCount], new real[TermCount], new real[TermCount];
      new;
      CopyTables(other);
    }

    /**
     * Assignment from a functor of the same type: the parameters and all
     * five tables of other, or nothing when other is this object.
     */
    method Assign(other: PhisSignal)
      requires Shape() && other.Shape()
      requires antiparticle == other.antiparticle && m == other.m && derive == other.derive && angular == other.angular
      requires other != this ==> Tables() !! other.Tables()
      modifies this, A, B, C, D, N
      ensures Shape() && (old(other.Ready()) ==> Ready())
      ensures par == old(other.par)
      ensures A[..] == old(other.A[..]) && B[..] == old(other.B[..]) && C[..] == old(other.C[..])
      ensures D[..] == old(other.D[..]) && N[..] == old(other.N[..])
      ensures other == this ==> unchanged(this, A, B, C, D, N)
    {
      if this == other {
        return;
      }
      par := other.par;
      CopyTables(other);
    }

    /** The five tables copied entry by entry from other. */
    method CopyTables(other: PhisSignal)
      requires other != this && Tables() !! other.Tables()
      requires A.Length == TermCount && B.Length == TermCount && C.Length == TermCount
      requires D.Length == TermCount && N.Length == TermCount
      requires other.A.Length == TermCount && other.B.Length == TermCount && other.C.Length == TermCount
      requires other.D.Length == TermCount && other.N.Length == TermCount
      requires A != B && A != C && A != D && A != N && B != C && B != D && B != N && C != D && C != N && D != N
      modifies A, B, C, D, N
      ensures A[..] == other.A[..] && B[..] == other.B[..] && C[..] == other.C[..]
      ensures D[..] == other.D[..] && N[..] == other.N[..]
    {
      for i := 0 to TermCount
        modifies A, B, C, D, N
        invariant forall j :: 0 <= j < i ==> A[j] == other.A[j] && B[j] == other.B[j]
        invariant forall j :: 0 <= j < i ==> C[j] == other.C[j] && D[j] == other.D[j] && N[j] == other.N[j]
      {
        A[i] := other.A[i];
        B[i] := other.B[i];
        C[i] := other.C[i];
        D[i] := other.D[i];
        N[i] := other.N[i];
      }
    }

    /**
     * Derive A, B, C and D from the parameters, then the polarization
     * factors; N keeps its old entries when A_par2 < 0.
     */
    method Update()
      requires Shape()
      modifies A, B, C, D, N
      ensures Ready()
      ensures Apar2(par) < 0.0 ==> N[..] == old(N[..])
    {
      UpdateATCoefficients();
      UpdateNFactors();
    }

    /** Store the derivation of the parameters in A, B, C and D. */
    method UpdateATCoefficients()
      requires Shape()
      modifies A, B, C, D
      ensures A[..] == derive(par).a && B[..] == derive(par).b
      ensures C[..] == derive(par).c && D[..] == derive(par).d
    {
      var k := derive(par);
      for i := 0 to TermCount
        modifies A, B, C, D
        invariant A[..i] == k.a[..i] && B[..i] == k.b[..i] && C[..i] == k.c[..i] && D[..i] == k.d[..i]
      {
        A[i], B[i], C[i], D[i] := k.a[i], k.b[i], k.c[i], k.d[i];
      }
      assert A[..] == A[..TermCount] && B[..] == B[..TermCount];
      assert C[..] == C[..TermCount] && D[..] == D[..TermCount];
    }

    /** The polarization factors from the amplitudes, only inside the physical simplex. */
    method UpdateNFactors()
      requires |par| == ParameterCount && N.Length == TermCount
      modifies N
      ensures Apar2(par) >= 0.0 ==> N[..] == NFactors(m, par)
      ensures Apar2(par) < 0.0 ==> N[..] == old(N[..])
    {
      var ap := 1.0 - par[0] - par[1];
      if ap >= 0.0 {
        var nf := NFactors(m, par);
        for i := 0 to TermCount
          invariant N[..i] == nf[..i]
        {
          N[i] := nf[i];
        }
        assert N[..] == N[..TermCount];
      }
    }

    /**
     * The density at (time, cos theta_h, cos theta_l, phi): 0 outside the
     * physical simplex, otherwise the ten-term sum clamped at 0. Reads the
     * tables and changes nothing.
     */
    method Evaluate(time: real, costhetaH: real, costhetaL: real, phi: real) returns (r: real)
      requires Ready()
      ensures r == Density(m, derive, angular, antiparticle, par, time, costhetaH, costhetaL, phi)
      ensures r >= 0.0
      ensures Apar2(par) < 0.0 ==> r == 0.0
    {
      var Apar2 := 1.0 - par[0] - par[1];
      var UnnormPDF := 0.0;
      if Apar2 < 0.0 {
        return UnnormPDF;
      }
      var F := angular(costhetaH, costhetaL, phi);
      var T1 := 0.5 * time * par[4];
      var T2 := time * par[5];
      var chT1, shT1, cT2, sT2 := m.cosh(T1), m.sinh(T1), m.cos(T2), m.sin(T2);
      var cp := CP(antiparticle);
      ghost var nf := N[..];
      ghost var h := TimeFactors(m, par, derive(par), cp, time);
      var trig := Trig(chT1, shT1, cT2, sT2);
      assert TimeTrig(m, par, time) == trig;
      for i := 0 to TermCount
        invariant UnnormPDF == PolarizedSum(F, nf, h, i)
      {
        var factor := TimeFactor(m, par[3], A[i], B[i], C[i], D[i], cp, time, trig);
        var term := Weighted(F[i], N[i], factor);
        assert term == Weighted(F[i], nf[i], h[i]) by {
          assert A[i] == derive(par).a[i] && B[i] == derive(par).b[i];
          assert C[i] == derive(par).c[i] && D[i] == derive(par).d[i];
          assert factor == h[i] && N[i] == nf[i];
        }
        UnnormPDF := UnnormPDF + term;
      }
      if UnnormPDF < 0.0 {
        r := 0.0;
      } else {
        r := UnnormPDF;
      }
    }

    /** The table a_k: the derivation of the current parameters. */
    function GetA(): (a: seq<real>)
      reads this, A, B, C, D, N
      requires Ready()
      ensures a == derive(par).a
    {
      A[..]
    }

    /** The table b_k: the derivation of the current parameters. */
    function GetB(): (b: seq<real>)
      reads this, A, B, C, D, N
      requires Ready()
      ensures b == derive(par).b
    {
      B[..]
    }

    /** The table c_k: the derivation of the current parameters. */
    function GetC(): (c: seq<real>)
      reads this, A, B, C, D, N
      requires Ready()
      ensures c == derive(par).c
    {
      C[..]
    }

    /** The table d_k: the derivation of the current parameters. */
    function GetD(): (d: seq<real>)
      reads this, A, B, C, D, N
      requires Ready()
      ensures d == derive(par).d
    {
      D[..]
    }

    /** The polarization factors, those of the current parameters inside the simplex. */
    function GetN(): (nf: seq<real>)
      reads this, A, B, C, D, N
      requires Ready()
      ensures |nf| == TermCount
      ensures Apar2(par) >= 0.0 ==> nf == NFactors(m, par)
    {
      N[..]
    }
  }
}
