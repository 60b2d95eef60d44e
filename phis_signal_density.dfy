/**
 * The time-dependent signal density of the phi_s analysis, as plain values:
 * the polarization factors derived from the amplitude parameters, the time
 * factor of each of the ten terms, their weighted sum and the clamp that
 * keeps the density non-negative.
 *
 * The angular basis (parameters::AngularFunctions) and the derivation of
 * the angular-time coefficients a_k, b_k, c_k, d_k (Update_ATCoefficients)
 * live outside this model; they enter as function values.
 */
module PhisSignalDensity {
  import opened Numerics

  /** The functor has 17 parameters. */
  const ParameterCount: nat := 17

  /** The density is a sum of ten terms. */
  const TermCount: nat := 10

  /** 3 / (4 pi), as the time factor rounds it. */
  const TimeNorm: real := 0.238732414638

  /** The constant added to DeltaGamma_sd in the exponential decay. */
  const GammaOffset: real := 0.65789

  /** The angular-time coefficient tables A, B, C and D (a_k, b_k, c_k, d_k). */
  datatype Coefficients = Coefficients(a: seq<real>, b: seq<real>, c: seq<real>, d: seq<real>)

  /** Each of the four tables holds one entry per term. */
  predicate WellFormed(k: Coefficients)
  {
    |k.a| == TermCount && |k.b| == TermCount && |k.c| == TermCount && |k.d| == TermCount
  }

  /** The derivation of the coefficient tables from the 17 parameters. */
  type Derivation = seq<real> -> Coefficients

  /** The angular basis f_k(cos theta_h, cos theta_l, phi). */
  type AngularBasis = (real, real, real) -> seq<real>

  /** The basis gives one value per term on every input. */
  ghost predicate Sized(angular: AngularBasis)
  {
    forall x, y, z :: |angular(x, y, z)| == TermCount
  }

  /** |A_par|^2 = 1 - |A_0|^2 - |A_perp|^2. */
  function Apar2(par: seq<real>): (r: real)
    requires |par| == ParameterCount
    ensures r + par[0] + par[1] == 1.0
  {
    1.0 - par[0] - par[1]
  }

  /** The CP sign: -1 for the antiparticle (B0sbar), +1 otherwise. */
  function CP(antiparticle: bool): (s: int)
    ensures s == 1 || s == -1
    ensures s < 0 <==> antiparticle
  {
    if antiparticle then -1 else 1
  }

  /** The ten polarization factors N_k, defined when A_par2 >= 0. */
  function NFactors(m: Math, par: seq<real>): (nf: seq<real>)
    requires |par| == ParameterCount
    ensures |nf| == TermCount
  {
    var ap := Apar2(par);
    [ par[0],
      ap,
      par[1],
      m.sqrt(par[1] * ap),
      m.sqrt(par[0] * ap),
      m.sqrt(par[0] * par[1]),
      par[2],
      m.sqrt(par[2] * ap),
      m.sqrt(par[2] * par[1]),
      m.sqrt(par[2] * par[0]) ]
  }

  /**
   * Inside the physical simplex, with non-negative amplitudes squared, every
   * polarization factor is non-negative.
   */
  lemma NFactorsNonNegative(m: Math, par: seq<real>)
    requires SqrtNonNegative(m)
    requires |par| == ParameterCount
    requires par[0] >= 0.0 && par[1] >= 0.0 && par[2] >= 0.0 && Apar2(par) >= 0.0
    ensures forall i :: 0 <= i < TermCount ==> NFactors(m, par)[i] >= 0.0
  {
    var nf := NFactors(m, par);
    forall i | 0 <= i < TermCount
      ensures nf[i] >= 0.0
    {
      if i in {3, 4, 5, 7, 8, 9} {
        assert nf[i] == m.sqrt([0.0, 0.0, 0.0, par[1] * Apar2(par), par[0] * Apar2(par), par[0] * par[1],
                                0.0, par[2] * Apar2(par), par[2] * par[1], par[2] * par[0]][i]);
      }
    }
  }

  /** cosh(T1), sinh(T1), cos(T2) and sin(T2), computed once per evaluation. */
  datatype Trig = Trig(chT1: real, shT1: real, cT2: real, sT2: real)

  /** The hyperbolic and trigonometric values at T1 = t DeltaGamma / 2 and T2 = t DeltaM. */
  function TimeTrig(m: Math, par: seq<real>, time: real): Trig
    requires |par| == ParameterCount
  {
    var T1 := 0.5 * time * par[4];
    var T2 := time * par[5];
    Trig(m.cosh(T1), m.sinh(T1), m.cos(T2), m.sin(T2))
  }

  /** The decay envelope f exp(-(DeltaGamma_sd + 0.65789) t). */
  function Envelope(m: Math, dGsd: real, time: real): real
  {
    TimeNorm * m.exp(-(dGsd + GammaOffset) * time)
  }

  /** The part of a time factor that does not depend on the CP sign. */
  function EvenFactor(m: Math, dGsd: real, a: real, b: real, time: real, t: Trig): real
  {
    Envelope(m, dGsd, time) * (a * t.chT1 + b * t.shT1)
  }

  /** The part of a time factor that the CP sign multiplies. */
  function OddFactor(m: Math, dGsd: real, c: real, d: real, time: real, t: Trig): real
  {
    Envelope(m, dGsd, time) * (c * t.cT2 + d * t.sT2)
  }

  /** x times a CP sign of +1 or -1. */
  function Signed(cp: int, x: real): real
  {
    if cp < 0 then -x else x
  }

  /** Adding one more term to each of three sums keeps h = e + cp o. */
  lemma SignedStep(cp: int, h: real, e: real, o: real, dh: real, de: real, dO: real)
    requires h == e + Signed(cp, o) && dh == de + Signed(cp, dO)
    ensures h + dh == (e + de) + Signed(cp, o + dO)
  {
  }

  /** Multiplication distributes over a sum and a difference. */
  lemma Distribute(w: real, x: real, y: real)
    ensures w * (x + y) == w * x + w * y
    ensures w * (x - y) == w * x - w * y
  {
  }

  /**
   * The time factor h_k of one term, for CP sign cp: for cp = +1 or -1 its
   * even part plus its odd part carrying the CP sign.
   */
  function TimeFactor(m: Math, dGsd: real, a: real, b: real, c: real, d: real, cp: int, time: real, t: Trig): (r: real)
    ensures cp == 1 || cp == -1 ==>
              r == EvenFactor(m, dGsd, a, b, time, t) + Signed(cp, OddFactor(m, dGsd, c, d, time, t))
  {
    var y := c * t.cT2 + d * t.sT2;
    assert cp == 1 || cp == -1 ==> y * (cp as real) == Signed(cp, y);
    Distribute(Envelope(m, dGsd, time), a * t.chT1 + b * t.shT1, y);
    Envelope(m, dGsd, time) * (a * t.chT1 + b * t.shT1 + y * (cp as real))
  }

  /**
   * The particle and antiparticle time factors differ only in the sign of
   * the (c cos + d sin) term: their sum is twice the even part and their
   * difference twice the odd part.
   */
  lemma TimeFactorCP(m: Math, dGsd: real, a: real, b: real, c: real, d: real, time: real, t: Trig)
    ensures TimeFactor(m, dGsd, a, b, c, d, CP(false), time, t) + TimeFactor(m, dGsd, a, b, c, d, CP(true), time, t)
         == 2.0 * EvenFactor(m, dGsd, a, b, time, t)
    ensures TimeFactor(m, dGsd, a, b, c, d, CP(false), time, t) - TimeFactor(m, dGsd, a, b, c, d, CP(true), time, t)
         == 2.0 * OddFactor(m, dGsd, c, d, time, t)
  {
  }

  /** The time factors of all ten terms. */
  function TimeFactors(m: Math, par: seq<real>, k: Coefficients, cp: int, time: real): (h: seq<real>)
    requires |par| == ParameterCount && WellFormed(k)
    ensures |h| == TermCount
  {
    var t := TimeTrig(m, par, time);
    seq(TermCount, i requires 0 <= i < TermCount => TimeFactor(m, par[3], k.a[i], k.b[i], k.c[i], k.d[i], cp, time, t))
  }

  /** The even parts of all ten time factors. */
  function EvenFactors(m: Math, par: seq<real>, k: Coefficients, time: real): (h: seq<real>)
    requires |par| == ParameterCount && WellFormed(k)
    ensures |h| == TermCount
  {
    var t := TimeTrig(m, par, time);
    seq(TermCount, i requires 0 <= i < TermCount => EvenFactor(m, par[3], k.a[i], k.b[i], time, t))
  }

  /** The odd parts of all ten time factors. */
  function OddFactors(m: Math, par: seq<real>, k: Coefficients, time: real): (h: seq<real>)
    requires |par| == ParameterCount && WellFormed(k)
    ensures |h| == TermCount
  {
    var t := TimeTrig(m, par, time);
    seq(TermCount, i requires 0 <= i < TermCount => OddFactor(m, par[3], k.c[i], k.d[i], time, t))
  }

  /** One term F_k N_k h_k of the sum. */
  function Weighted(f: real, n: real, x: real): real
  {
    f * n * x
  }

  /** The sum of F_k N_k h_k over the first count terms. */
  function PolarizedSum(F: seq<real>, nf: seq<real>, h: seq<real>, count: nat): (r: real)
    requires count <= |F| && count <= |nf| && count <= |h|
    ensures (forall i :: 0 <= i < count ==> Weighted(F[i], nf[i], h[i]) >= 0.0) ==> r >= 0.0
    ensures (forall i :: 0 <= i < count ==> nf[i] == 0.0) ==> r == 0.0
  {
    if count == 0 then 0.0
    else PolarizedSum(F, nf, h, count - 1) + Weighted(F[count - 1], nf[count - 1], h[count - 1])
  }

  /** The weighted sum of e + o (or e - o) is the sum of e plus (or minus) the sum of o. */
  lemma {:induction false} PolarizedSumSigned(F: seq<real>, nf: seq<real>, h: seq<real>, e: seq<real>, o: seq<real>,
                                              cp: int, count: nat)
    requires count <= |F| && count <= |nf| && count <= |h| && |h| == |e| == |o|
    requires forall i :: 0 <= i < |h| ==> h[i] == e[i] + Signed(cp, o[i])
    ensures PolarizedSum(F, nf, h, count) == PolarizedSum(F, nf, e, count) + Signed(cp, PolarizedSum(F, nf, o, count))
  {
    if count > 0 {
      var j := count - 1;
      PolarizedSumSigned(F, nf, h, e, o, cp, j);
      assert Weighted(F[j], nf[j], h[j]) == Weighted(F[j], nf[j], e[j]) + Signed(cp, Weighted(F[j], nf[j], o[j])) by {
        Distribute(F[j] * nf[j], e[j], o[j]);
      }
      SignedStep(cp, PolarizedSum(F, nf, h, j), PolarizedSum(F, nf, e, j), PolarizedSum(F, nf, o, j),
                 Weighted(F[j], nf[j], h[j]), Weighted(F[j], nf[j], e[j]), Weighted(F[j], nf[j], o[j]));
    }
  }

  /**
   * The ten-term sum before the clamp: 0 when every polarization factor is
   * 0, and non-negative when every term is.
   */
  function Unclamped(m: Math, par: seq<real>, k: Coefficients, nf: seq<real>, cp: int, F: seq<real>, time: real): (r: real)
    requires |par| == ParameterCount && WellFormed(k) && |nf| == TermCount && |F| == TermCount
    ensures (forall i :: 0 <= i < TermCount ==> nf[i] == 0.0) ==> r == 0.0
    ensures (forall i :: 0 <= i < TermCount ==> Weighted(F[i], nf[i], TimeFactors(m, par, k, cp, time)[i]) >= 0.0) ==> r >= 0.0
  {
    PolarizedSum(F, nf, TimeFactors(m, par, k, cp, time), TermCount)
  }

  /** The ten-term sum is the even sum plus the odd sum carrying the CP sign. */
  lemma UnclampedSplit(m: Math, par: seq<real>, k: Coefficients, nf: seq<real>, cp: int, F: seq<real>, time: real)
    requires |par| == ParameterCount && WellFormed(k) && |nf| == TermCount && |F| == TermCount
    requires cp == 1 || cp == -1
    ensures Unclamped(m, par, k, nf, cp, F, time)
         == PolarizedSum(F, nf, EvenFactors(m, par, k, time), TermCount)
            + Signed(cp, PolarizedSum(F, nf, OddFactors(m, par, k, time), TermCount))
  {
    var h, e, o := TimeFactors(m, par, k, cp, time), EvenFactors(m, par, k, time), OddFactors(m, par, k, time);
    PolarizedSumSigned(F, nf, h, e, o, cp, TermCount);
  }

  /**
   * Flipping the particle flag changes only the sign of the (c cos + d sin)
   * contributions: the particle and antiparticle sums add up to twice the
   * even sum and differ by twice the odd sum.
   */
  lemma UnclampedCP(m: Math, par: seq<real>, k: Coefficients, nf: seq<real>, F: seq<real>, time: real)
    requires |par| == ParameterCount && WellFormed(k) && |nf| == TermCount && |F| == TermCount
    ensures Unclamped(m, par, k, nf, CP(false), F, time) + Unclamped(m, par, k, nf, CP(true), F, time)
         == 2.0 * PolarizedSum(F, nf, EvenFactors(m, par, k, time), TermCount)
    ensures Unclamped(m, par, k, nf, CP(false), F, time) - Unclamped(m, par, k, nf, CP(true), F, time)
         == 2.0 * PolarizedSum(F, nf, OddFactors(m, par, k, time), TermCount)
  {
    UnclampedSplit(m, par, k, nf, CP(false), F, time);
    UnclampedSplit(m, par, k, nf, CP(true), F, time);
  }

  /** The clamp at 0 that absorbs negative rounding noise. */
  function Clamp(x: real): (r: real)
    ensures r >= 0.0
    ensures x >= 0.0 ==> r == x
    ensures x < 0.0 ==> r == 0.0
  {
    if x < 0.0 then 0.0 else x
  }

  /**
   * The signal density at (time, cos theta_h, cos theta_l, phi) for the
   * given parameters: 0 outside the physical simplex (A_par2 < 0), else the
   * clamped ten-term sum over the derived coefficients and polarization
   * factors.
   */
  function Density(m: Math, derive: Derivation, angular: AngularBasis, antiparticle: bool, par: seq<real>,
                   time: real, costhetaH: real, costhetaL: real, phi: real): (r: real)
    requires |par| == ParameterCount && WellFormed(derive(par)) && |angular(costhetaH, costhetaL, phi)| == TermCount
    ensures r >= 0.0
    ensures Apar2(par) < 0.0 ==> r == 0.0
  {
    if Apar2(par) < 0.0 then 0.0
    else
      var F := angular(costhetaH, costhetaL, phi);
      Clamp(Unclamped(m, par, derive(par), NFactors(m, par), CP(antiparticle), F, time))
  }
}
