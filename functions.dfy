/**
 * The time kernels of the decay-rate model: the convolution of
 * exp(-a t) cosh(b t), exp(-a t) sinh(b t), exp(-a t) cos(b t) and
 * exp(-a t) sin(b t) with a Gaussian resolution of mean mu and width sigma,
 * both at a point and integrated over a time window, together with the
 * final normalisation of the decay-plane angle into [0, 2 pi).
 *
 * The Faddeeva function enters only through `erf`, `erfc` and the complex
 * `cexp`/`cerfc` of the `Math` record, so every property proved here is an
 * algebraic consequence of how the kernels combine those terms.
 */
module Functions {
  import opened Numerics

  /** Time measured from mu in units of sigma * sqrt(2). */
  function Rescaled(t: real, mu: real, sigma: real): real
    requires sigma != 0.0
  {
    NonZeroProduct(sigma, SQRT2);
    (t - mu) / (sigma * SQRT2)
  }

  lemma NonZeroProduct(x: real, y: real)
    requires x != 0.0 && y != 0.0
    ensures x * y != 0.0
  {
  }

  /**
   * exp(z^2 - 2 z x) erfc(z - x) for a real z: with u = z - x, the product
   * exp(-x^2) exp(u^2) erfc(u), the scaled complementary error function of
   * u damped by the Gaussian in x.
   */
  function Faddeeva(m: Math, z: real, x: real): (r: real)
    ensures r == m.exp((z - x) * (z - x) - x * x) * m.erfc(z - x)
  {
    assert z * z - 2.0 * z * x == (z - x) * (z - x) - x * x;
    m.exp(z * z - 2.0 * z * x) * m.erfc(z - x)
  }

  /** exp(z^2 - 2 z x) erfc(z - x) for a complex z: the same in u = z - x. */
  function ComplexFaddeeva(m: Math, z: Complex, x: real): (r: Complex)
    ensures var u := Sub(z, OfReal(x));
            r == Mul(m.cexp(Sub(Mul(u, u), OfReal(x * x))), m.cerfc(u))
  {
    ShiftedSquare(z, x);
    Mul(m.cexp(Sub(Mul(z, z), Scale(2.0 * x, z))), m.cerfc(Sub(z, OfReal(x))))
  }

  /** z^2 - 2 x z = (z - x)^2 - x^2 for a complex z and a real x. */
  lemma ShiftedSquare(z: Complex, x: real)
    ensures var u := Sub(z, OfReal(x));
            Sub(Mul(z, z), Scale(2.0 * x, z)) == Sub(Mul(u, u), OfReal(x * x))
  {
    var a, b := z.re, z.im;
    assert a * a - b * b - 2.0 * x * a == (a - x) * (a - x) - b * b - x * x;
    assert a * b + b * a - 2.0 * x * b == (a - x) * b + b * (a - x) - 0.0;
  }

  // ---------------------------------------------------------------------
  // Hyperbolic kernels

  /** z1 = (a - b) sigma / sqrt(2), the rate of the exp(-(a - b) t) part. */
  function HyperbolicZ1(a: real, b: real, sigma: real): (r: real)
    ensures r * SQRT2 == (a - b) * sigma
  {
    (a - b) * sigma / SQRT2
  }

  /** z2 = (a + b) sigma / sqrt(2), the rate of the exp(-(a + b) t) part. */
  function HyperbolicZ2(a: real, b: real, sigma: real): (r: real)
    ensures r * SQRT2 == (a + b) * sigma
  {
    (a + b) * sigma / SQRT2
  }

  /**
   * Gaussian-convolved exp(-a t) cosh(b t) for tag > 0 and
   * exp(-a t) sinh(b t) for tag < 0; any other tag gives 0.
   */
  function ConvolutedExpSinhCosh(m: Math, time: real, a: real, b: real, mu: real, sigma: real, tag: int): (r: real)
    requires sigma != 0.0
    ensures tag == 0 ==> r == 0.0
    ensures tag > 0 ==> r == 0.25 * (Faddeeva(m, HyperbolicZ1(a, b, sigma), Rescaled(time, mu, sigma))
                                   + Faddeeva(m, HyperbolicZ2(a, b, sigma), Rescaled(time, mu, sigma)))
    ensures tag < 0 ==> r == 0.25 * (Faddeeva(m, HyperbolicZ1(a, b, sigma), Rescaled(time, mu, sigma))
                                   - Faddeeva(m, HyperbolicZ2(a, b, sigma), Rescaled(time, mu, sigma)))
  {
    var x := Rescaled(time, mu, sigma);
    var f1 := Faddeeva(m, HyperbolicZ1(a, b, sigma), x);
    var f2 := Faddeeva(m, HyperbolicZ2(a, b, sigma), x);
    if tag > 0 then 0.25 * (f1 + f2)
    else if tag < 0 then 0.25 * (f1 - f2)
    else 0.0
  }

  /** Flipping the sign of b swaps z1 and z2. */
  lemma HyperbolicMirror(a: real, b: real, sigma: real)
    ensures HyperbolicZ1(a, -b, sigma) == HyperbolicZ2(a, b, sigma)
    ensures HyperbolicZ2(a, -b, sigma) == HyperbolicZ1(a, b, sigma)
  {
  }

  /** cosh is even and sinh is odd in b: the cosh kernel is unchanged and the sinh kernel negated. */
  lemma ConvolutedSinhCoshMirror(m: Math, time: real, a: real, b: real, mu: real, sigma: real, tag: int)
    requires sigma != 0.0
    ensures tag >= 0 ==> (ConvolutedExpSinhCosh(m, time, a, -b, mu, sigma, tag)
                      == ConvolutedExpSinhCosh(m, time, a, b, mu, sigma, tag))
    ensures tag < 0 ==> (ConvolutedExpSinhCosh(m, time, a, -b, mu, sigma, tag)
                     == -ConvolutedExpSinhCosh(m, time, a, b, mu, sigma, tag))
  {
    HyperbolicMirror(a, b, sigma);
  }

  /**
   * cosh(bt) + sinh(bt) = exp(bt) and cosh(bt) - sinh(bt) = exp(-bt): the
   * two branches add up to half the convolved exp(-(a - b) t) term and
   * subtract to half the convolved exp(-(a + b) t) term.
   */
  lemma ConvolutedSinhCoshBranches(m: Math, time: real, a: real, b: real, mu: real, sigma: real)
    requires sigma != 0.0
    ensures ConvolutedExpSinhCosh(m, time, a, b, mu, sigma, 1) + ConvolutedExpSinhCosh(m, time, a, b, mu, sigma, -1)
         == 0.5 * Faddeeva(m, HyperbolicZ1(a, b, sigma), Rescaled(time, mu, sigma))
    ensures ConvolutedExpSinhCosh(m, time, a, b, mu, sigma, 1) - ConvolutedExpSinhCosh(m, time, a, b, mu, sigma, -1)
         == 0.5 * Faddeeva(m, HyperbolicZ2(a, b, sigma), Rescaled(time, mu, sigma))
  {
  }

  /** sinh(0) = 0: with b = 0 the sinh kernel vanishes. */
  lemma ConvolutedSinhVanishes(m: Math, time: real, a: real, mu: real, sigma: real, tag: int)
    requires sigma != 0.0
    requires tag < 0
    ensures ConvolutedExpSinhCosh(m, time, a, 0.0, mu, sigma, tag) == 0.0
  {
  }

  // ---------------------------------------------------------------------
  // Trigonometric kernels

  /** z1 = (a sigma - i b sigma) / sqrt(2). */
  function TrigonometricZ1(a: real, b: real, sigma: real): (r: Complex)
    ensures r.re * SQRT2 == a * sigma && r.im * SQRT2 == -(b * sigma)
  {
    Complex(a * sigma / SQRT2, -b * sigma / SQRT2)
  }

  /** z2 = (a sigma + i b sigma) / sqrt(2). */
  function TrigonometricZ2(a: real, b: real, sigma: real): (r: Complex)
    ensures r.re * SQRT2 == a * sigma && r.im * SQRT2 == b * sigma
  {
    Complex(a * sigma / SQRT2, b * sigma / SQRT2)
  }

  /** z1 and z2 are complex conjugates, and flipping the sign of b swaps them. */
  lemma TrigonometricMirror(a: real, b: real, sigma: real)
    ensures TrigonometricZ1(a, b, sigma) == Conjugate(TrigonometricZ2(a, b, sigma))
    ensures TrigonometricZ1(a, -b, sigma) == TrigonometricZ2(a, b, sigma)
    ensures TrigonometricZ2(a, -b, sigma) == TrigonometricZ1(a, b, sigma)
  {
  }

  /**
   * Gaussian-convolved exp(-a t) cos(b t) for tag > 0 and
   * exp(-a t) sin(b t) for tag < 0; any other tag gives 0.
   */
  function ConvolutedExpSinCos(m: Math, time: real, a: real, b: real, mu: real, sigma: real, tag: int): (r: real)
    requires sigma != 0.0
    ensures tag == 0 ==> r == 0.0
    ensures tag > 0 ==> r == 0.25 * (ComplexFaddeeva(m, TrigonometricZ1(a, b, sigma), Rescaled(time, mu, sigma)).re
                                   + ComplexFaddeeva(m, TrigonometricZ2(a, b, sigma), Rescaled(time, mu, sigma)).re)
    ensures tag < 0 ==> r == 0.25 * (ComplexFaddeeva(m, TrigonometricZ1(a, b, sigma), Rescaled(time, mu, sigma)).im
                                   - ComplexFaddeeva(m, TrigonometricZ2(a, b, sigma), Rescaled(time, mu, sigma)).im)
  {
    var x := Rescaled(time, mu, sigma);
    var f1 := ComplexFaddeeva(m, TrigonometricZ1(a, b, sigma), x);
    var f2 := ComplexFaddeeva(m, TrigonometricZ2(a, b, sigma), x);
    DivByI(Sub(f1, f2));
    var result :=
      if tag > 0 then Add(f1, f2)
      else if tag < 0 then Div(Sub(f1, f2), I)
      else Zero;
    0.25 * result.re
  }

  /** cos is even and sin is odd in b: the cos kernel is unchanged and the sin kernel negated. */
  lemma ConvolutedSinCosMirror(m: Math, time: real, a: real, b: real, mu: real, sigma: real, tag: int)
    requires sigma != 0.0
    ensures tag >= 0 ==> (ConvolutedExpSinCos(m, time, a, -b, mu, sigma, tag)
                      == ConvolutedExpSinCos(m, time, a, b, mu, sigma, tag))
    ensures tag < 0 ==> (ConvolutedExpSinCos(m, time, a, -b, mu, sigma, tag)
                     == -ConvolutedExpSinCos(m, time, a, b, mu, sigma, tag))
  {
    TrigonometricMirror(a, b, sigma);
  }

  /** sin(0) = 0: with b = 0 the sin kernel vanishes. */
  lemma ConvolutedSinVanishes(m: Math, time: real, a: real, mu: real, sigma: real, tag: int)
    requires sigma != 0.0
    requires tag < 0
    ensures ConvolutedExpSinCos(m, time, a, 0.0, mu, sigma, tag) == 0.0
  {
    ConvolutedSinCosMirror(m, time, a, 0.0, mu, sigma, tag);
  }

  // ---------------------------------------------------------------------
  // Kernels integrated over a time window

  /** The antiderivative term erf(x) - exp(z^2 - 2 z x) erfc(z - x), for a real z. */
  function Primitive(m: Math, z: real, x: real): real
  {
    m.erf(x) - Faddeeva(m, z, x)
  }

  /** The antiderivative difference between x1 and x2, divided by z. */
  function Cumulative(m: Math, z: real, x1: real, x2: real): (c: real)
    requires z != 0.0
    ensures x1 == x2 ==> c == 0.0
  {
    (Primitive(m, z, x2) - Primitive(m, z, x1)) / z
  }

  /** Cumulative terms over adjacent windows add up. */
  lemma CumulativeAdditive(m: Math, z: real, x1: real, x2: real, x3: real)
    requires z != 0.0
    ensures Cumulative(m, z, x1, x2) + Cumulative(m, z, x2, x3) == Cumulative(m, z, x1, x3)
  {
    var p1, p2, p3 := Primitive(m, z, x1), Primitive(m, z, x2), Primitive(m, z, x3);
    DivSum(p2 - p1, p3 - p2, z);
    assert (p2 - p1) + (p3 - p2) == p3 - p1;
  }

  /**
   * Integral over [LowerLimit, UpperLimit] of the convolved hyperbolic
   * kernel: cosh for tag > 0, sinh for tag < 0, 0 for tag == 0. The
   * kernel divides by z1 and z2, so a nonzero tag requires a != b and
   * a != -b. The time argument is accepted and ignored.
   */
  function IntegratedConvolutedExpSinhCosh(m: Math, time: real, a: real, b: real, mu: real, sigma: real,
                                           lower: real, upper: real, tag: int): (r: real)
    requires sigma != 0.0
    requires tag != 0 ==> a - b != 0.0 && a + b != 0.0
    ensures tag == 0 ==> r == 0.0
    ensures lower == upper ==> r == 0.0
  {
    var x1 := Rescaled(lower, mu, sigma);
    var x2 := Rescaled(upper, mu, sigma);
    if tag == 0 then 0.0
    else
      var z1, z2 := HyperbolicZ1(a, b, sigma), HyperbolicZ2(a, b, sigma);
      NonZeroRates(a - b, sigma);
      NonZeroRates(a + b, sigma);
      var c1 := Cumulative(m, z1, x1, x2);
      var c2 := Cumulative(m, z2, x1, x2);
      if tag > 0 then c1 + c2 else c1 - c2
  }

  lemma NonZeroRates(k: real, sigma: real)
    requires k != 0.0 && sigma != 0.0
    ensures k * sigma / SQRT2 != 0.0
  {
    NonZeroProduct(k, sigma);
  }

  /** The integrated hyperbolic kernel does not depend on its time argument. */
  lemma IntegratedSinhCoshTimeFree(m: Math, t1: real, t2: real, a: real, b: real, mu: real, sigma: real,
                                   lower: real, upper: real, tag: int)
    requires sigma != 0.0
    requires tag != 0 ==> a - b != 0.0 && a + b != 0.0
    ensures IntegratedConvolutedExpSinhCosh(m, t1, a, b, mu, sigma, lower, upper, tag)
         == IntegratedConvolutedExpSinhCosh(m, t2, a, b, mu, sigma, lower, upper, tag)
  {
  }

  /** The integral over [L, M] plus the integral over [M, U] is the integral over [L, U]. */
  lemma IntegratedSinhCoshAdditive(m: Math, time: real, a: real, b: real, mu: real, sigma: real,
                                   lower: real, middle: real, upper: real, tag: int)
    requires sigma != 0.0
    requires tag != 0 ==> a - b != 0.0 && a + b != 0.0
    ensures IntegratedConvolutedExpSinhCosh(m, time, a, b, mu, sigma, lower, middle, tag)
          + IntegratedConvolutedExpSinhCosh(m, time, a, b, mu, sigma, middle, upper, tag)
         == IntegratedConvolutedExpSinhCosh(m, time, a, b, mu, sigma, lower, upper, tag)
  {
    if tag != 0 {
      var x1, x2, x3 := Rescaled(lower, mu, sigma), Rescaled(middle, mu, sigma), Rescaled(upper, mu, sigma);
      var z1, z2 := HyperbolicZ1(a, b, sigma), HyperbolicZ2(a, b, sigma);
      NonZeroRates(a - b, sigma);
      NonZeroRates(a + b, sigma);
      CumulativeAdditive(m, z1, x1, x2, x3);
      CumulativeAdditive(m, z2, x1, x2, x3);
    }
  }

  /** Flipping the sign of b leaves the integrated cosh kernel unchanged and negates the sinh kernel. */
  lemma IntegratedSinhCoshMirror(m: Math, time: real, a: real, b: real, mu: real, sigma: real,
                                 lower: real, upper: real, tag: int)
    requires sigma != 0.0
    requires tag != 0 ==> a - b != 0.0 && a + b != 0.0
    ensures tag >= 0 ==> (IntegratedConvolutedExpSinhCosh(m, time, a, -b, mu, sigma, lower, upper, tag)
                      == IntegratedConvolutedExpSinhCosh(m, time, a, b, mu, sigma, lower, upper, tag))
    ensures tag < 0 ==> (IntegratedConvolutedExpSinhCosh(m, time, a, -b, mu, sigma, lower, upper, tag)
                     == -IntegratedConvolutedExpSinhCosh(m, time, a, b, mu, sigma, lower, upper, tag))
  {
    HyperbolicMirror(a, b, sigma);
  }

  /** The antiderivative term erf(x) - exp(z^2 - 2 z x) erfc(z - x), for a complex z. */
  function ComplexPrimitive(m: Math, z: Complex, x: real): Complex
  {
    Sub(OfReal(m.erf(x)), ComplexFaddeeva(m, z, x))
  }

  /** The antiderivative difference between x1 and x2 (not yet divided by z). */
  function ComplexCumulative(m: Math, z: Complex, x1: real, x2: real): (c: Complex)
    ensures x1 == x2 ==> c == Zero
  {
    Sub(ComplexPrimitive(m, z, x2), ComplexPrimitive(m, z, x1))
  }

  /** Complex cumulative terms over adjacent windows add up. */
  lemma ComplexCumulativeAdditive(m: Math, z: Complex, x1: real, x2: real, x3: real)
    ensures Add(ComplexCumulative(m, z, x1, x2), ComplexCumulative(m, z, x2, x3)) == ComplexCumulative(m, z, x1, x3)
  {
  }

  /** The weighted sum of the two cumulative terms, before its real part is taken. */
  function TrigonometricIntegral(m: Math, a: real, b: real, sigma: real, x1: real, x2: real, tag: int): (q: Complex)
    requires tag != 0 ==> TrigonometricZ1(a, b, sigma) != Zero && TrigonometricZ2(a, b, sigma) != Zero
    ensures tag == 0 ==> q == Zero
  {
    var z1, z2 := TrigonometricZ1(a, b, sigma), TrigonometricZ2(a, b, sigma);
    if tag == 0 then Zero
    else
      var d1 := Div(ComplexCumulative(m, z1, x1, x2), z1);
      var d2 := Div(ComplexCumulative(m, z2, x1, x2), z2);
      if tag > 0 then Add(d1, d2) else Div(Sub(d1, d2), I)
  }

  /** Over an empty window both cumulative terms, and so the integral, vanish. */
  lemma TrigonometricIntegralEmpty(m: Math, a: real, b: real, sigma: real, x1: real, x2: real, tag: int)
    requires tag != 0 ==> TrigonometricZ1(a, b, sigma) != Zero && TrigonometricZ2(a, b, sigma) != Zero
    ensures x1 == x2 ==> TrigonometricIntegral(m, a, b, sigma, x1, x2, tag) == Zero
  {
    if tag != 0 && x1 == x2 {
      var x := x1;
      var z1, z2 := TrigonometricZ1(a, b, sigma), TrigonometricZ2(a, b, sigma);
      var c1, c2 := ComplexCumulative(m, z1, x, x), ComplexCumulative(m, z2, x, x);
      assert c1 == Zero && c2 == Zero;
      var d1, d2 := Div(c1, z1), Div(c2, z2);
      assert d1 == Zero by { DivZero(z1); }
      assert d2 == Zero by { DivZero(z2); }
      assert Div(Sub(d1, d2), I) == Zero by { DivZero(I); }
    }
  }

  /** With a or b nonzero (and sigma nonzero), neither z1 nor z2 is zero. */
  lemma TrigonometricRatesNonZero(a: real, b: real, sigma: real)
    requires sigma != 0.0
    requires a != 0.0 || b != 0.0
    ensures TrigonometricZ1(a, b, sigma) != Zero && TrigonometricZ2(a, b, sigma) != Zero
  {
    if a != 0.0 {
      NonZeroRates(a, sigma);
    } else {
      NonZeroRates(b, sigma);
      NonZeroRates(-b, sigma);
    }
  }

  /**
   * Integral over [LowerLimit, UpperLimit] of the convolved trigonometric
   * kernel: cos for tag > 0, sin for tag < 0, 0 for tag == 0. The kernel
   * divides by z1 and z2, so a nonzero tag requires a or b to be nonzero.
   * The time argument is accepted and ignored.
   */
  function IntegratedConvolutedExpSinCos(m: Math, time: real, a: real, b: real, mu: real, sigma: real,
                                         lower: real, upper: real, tag: int): (r: real)
    requires sigma != 0.0
    requires tag != 0 ==> a != 0.0 || b != 0.0
    ensures tag == 0 ==> r == 0.0
    ensures lower == upper ==> r == 0.0
  {
    var x1 := Rescaled(lower, mu, sigma);
    var x2 := Rescaled(upper, mu, sigma);
    if tag == 0 then 0.0
    else
      TrigonometricRatesNonZero(a, b, sigma);
      TrigonometricIntegralEmpty(m, a, b, sigma, x1, x2, tag);
      TrigonometricIntegral(m, a, b, sigma, x1, x2, tag).re
  }

  /** Zero divided by anything nonzero is zero. */
  lemma DivZero(z: Complex)
    requires z != Zero
    ensures Div(Zero, z) == Zero
  {
    NormSign(z);
  }

  /** The integrated trigonometric kernel does not depend on its time argument. */
  lemma IntegratedSinCosTimeFree(m: Math, t1: real, t2: real, a: real, b: real, mu: real, sigma: real,
                                 lower: real, upper: real, tag: int)
    requires sigma != 0.0
    requires tag != 0 ==> a != 0.0 || b != 0.0
    ensures IntegratedConvolutedExpSinCos(m, t1, a, b, mu, sigma, lower, upper, tag)
         == IntegratedConvolutedExpSinCos(m, t2, a, b, mu, sigma, lower, upper, tag)
  {
  }

  /** The integral over [L, M] plus the integral over [M, U] is the integral over [L, U]. */
  lemma IntegratedSinCosAdditive(m: Math, time: real, a: real, b: real, mu: real, sigma: real,
                                 lower: real, middle: real, upper: real, tag: int)
    requires sigma != 0.0
    requires tag != 0 ==> a != 0.0 || b != 0.0
    ensures IntegratedConvolutedExpSinCos(m, time, a, b, mu, sigma, lower, middle, tag)
          + IntegratedConvolutedExpSinCos(m, time, a, b, mu, sigma, middle, upper, tag)
         == IntegratedConvolutedExpSinCos(m, time, a, b, mu, sigma, lower, upper, tag)
  {
    if tag != 0 {
      var x1, x2, x3 := Rescaled(lower, mu, sigma), Rescaled(middle, mu, sigma), Rescaled(upper, mu, sigma);
      var z1, z2 := TrigonometricZ1(a, b, sigma), TrigonometricZ2(a, b, sigma);
      TrigonometricRatesNonZero(a, b, sigma);
      var c1a, c1b, c1 := ComplexCumulative(m, z1, x1, x2), ComplexCumulative(m, z1, x2, x3), ComplexCumulative(m, z1, x1, x3);
      var c2a, c2b, c2 := ComplexCumulative(m, z2, x1, x2), ComplexCumulative(m, z2, x2, x3), ComplexCumulative(m, z2, x1, x3);
      ComplexCumulativeAdditive(m, z1, x1, x2, x3);
      ComplexCumulativeAdditive(m, z2, x1, x2, x3);
      DivLinear(c1a, c1b, z1);
      DivLinear(c2a, c2b, z2);
      var d1a, d1b, d2a, d2b := Div(c1a, z1), Div(c1b, z1), Div(c2a, z2), Div(c2b, z2);
      if tag < 0 {
        DivLinear(Sub(d1a, d2a), Sub(d1b, d2b), I);
        assert Add(Sub(d1a, d2a), Sub(d1b, d2b)) == Sub(Add(d1a, d1b), Add(d2a, d2b));
      }
    }
  }

  /** Flipping the sign of b leaves the integrated cos kernel unchanged and negates the sin kernel. */
  lemma IntegratedSinCosMirror(m: Math, time: real, a: real, b: real, mu: real, sigma: real,
                               lower: real, upper: real, tag: int)
    requires sigma != 0.0
    requires tag != 0 ==> a != 0.0 || b != 0.0
    ensures tag >= 0 ==> (IntegratedConvolutedExpSinCos(m, time, a, -b, mu, sigma, lower, upper, tag)
                      == IntegratedConvolutedExpSinCos(m, time, a, b, mu, sigma, lower, upper, tag))
    ensures tag < 0 ==> (IntegratedConvolutedExpSinCos(m, time, a, -b, mu, sigma, lower, upper, tag)
                     == -IntegratedConvolutedExpSinCos(m, time, a, b, mu, sigma, lower, upper, tag))
  {
    TrigonometricMirror(a, b, sigma);
    if tag < 0 {
      TrigonometricRatesNonZero(a, b, sigma);
      var x1, x2 := Rescaled(lower, mu, sigma), Rescaled(upper, mu, sigma);
      var z1, z2 := TrigonometricZ1(a, b, sigma), TrigonometricZ2(a, b, sigma);
      var d1 := Div(ComplexCumulative(m, z1, x1, x2), z1);
      var d2 := Div(ComplexCumulative(m, z2, x1, x2), z2);
      DivByI(Sub(d1, d2));
      DivByI(Sub(d2, d1));
    }
  }

  // ---------------------------------------------------------------------
  // Decay-plane angle

  /** Maps an angle from atan2 into [0, 2 pi) by adding 2 pi to negative values. */
  function NormalizeAngle(phi: real): (r: real)
    ensures -PI < phi <= PI ==> 0.0 <= r < 2.0 * PI
    ensures r == phi || r == phi + 2.0 * PI
    ensures 0.0 <= phi ==> r == phi
  {
    if phi >= 0.0 then phi else phi + 2.0 * PI
  }

  /**
   * The last step of the decay-plane angle: atan2 of the sine and cosine of
   * the angle, folded into [0, 2 pi). The four-vector geometry that
   * produces the sine and cosine is not part of this model.
   */
  function PhiPlaneAngle(m: Math, sinPhi: real, cosPhi: real): (r: real)
    ensures -PI < m.atan2(sinPhi, cosPhi) <= PI ==> 0.0 <= r < 2.0 * PI
  {
    NormalizeAngle(m.atan2(sinPhi, cosPhi))
  }

  /** Normalising an angle already in (-pi, pi] a second time changes nothing. */
  lemma NormalizeAngleIdempotent(phi: real)
    requires -PI < phi <= PI
    ensures NormalizeAngle(NormalizeAngle(phi)) == NormalizeAngle(phi)
  {
  }
}
