/**
 * Numeric primitives shared by the decay-time likelihood model.
 *
 * The library evaluates everything in double precision and calls the C
 * math library and a Faddeeva package for its transcendental functions.
 * Here numbers are Dafny `real`s and every transcendental primitive is an
 * arbitrary total function, gathered in the record `Math` and passed to
 * the operations that call it: nothing is assumed about `exp`, `erf`,
 * `erfc`, `cosh`, `sinh`, `cos`, `sin` or `atan2`, and the only fact ever
 * used about `sqrt` is that it is never negative (`SqrtNonNegative`).
 */
module Numerics {

  /** A complex number, as hydra::complex<double> holds it. */
  datatype Complex = Complex(re: real, im: real)

  /** The imaginary unit. */
  const I: Complex := Complex(0.0, 1.0)

  /** The complex zero. */
  const Zero: Complex := Complex(0.0, 0.0)

  /** The constant pi, to 21 significant digits. */
  const PI: real := 3.14159265358979323846

  /** The constant sqrt(2) (hydra::math_constants::sqrt2). */
  const SQRT2: real := 1.41421356237309504880

  /** The transcendental primitives the library calls, left uninterpreted. */
  datatype Math = Math(
    exp: real -> real,
    cosh: real -> real,
    sinh: real -> real,
    cos: real -> real,
    sin: real -> real,
    sqrt: real -> real,
    atan2: (real, real) -> real,
    erf: real -> real,           // Faddeeva erf on a real argument
    erfc: real -> real,          // Faddeeva erfc on a real argument
    cexp: Complex -> Complex,    // hydra::exp on a complex argument
    cerfc: Complex -> Complex    // Faddeeva erfc on a complex argument
  )

  /** The one property of `sqrt` the model relies on. */
  ghost predicate SqrtNonNegative(m: Math)
  {
    forall x :: m.sqrt(x) >= 0.0
  }

  function Abs(x: real): (r: real)
    ensures r >= 0.0 && (r == x || r == -x)
  {
    if x < 0.0 then -x else x
  }

  function OfReal(x: real): Complex
  {
    Complex(x, 0.0)
  }

  function Add(z: Complex, w: Complex): Complex
  {
    Complex(z.re + w.re, z.im + w.im)
  }

  function Sub(z: Complex, w: Complex): Complex
  {
    Complex(z.re - w.re, z.im - w.im)
  }

  function Mul(z: Complex, w: Complex): Complex
  {
    Complex(z.re * w.re - z.im * w.im, z.re * w.im + z.im * w.re)
  }

  /** A complex number times a real one. */
  function Scale(k: real, z: Complex): Complex
  {
    Complex(k * z.re, k * z.im)
  }

  /**
   * A product of two reals. The squared modulus is written with it so that
   * its sign can be established once, by ProductSign, and then reused.
   */
  function Product(a: real, b: real): real
  {
    a * b
  }

  lemma ProductSign(a: real, b: real)
    ensures (a >= 0.0 && b >= 0.0) || (a <= 0.0 && b <= 0.0) ==> Product(a, b) >= 0.0
    ensures (a > 0.0 && b > 0.0) || (a < 0.0 && b < 0.0) ==> Product(a, b) > 0.0
  {
  }

  /** The squared modulus, the denominator of a complex division. */
  function Norm(z: Complex): real
  {
    Product(z.re, z.re) + Product(z.im, z.im)
  }

  /** The squared modulus is never negative and vanishes only at zero. */
  lemma NormSign(z: Complex)
    ensures Norm(z) >= 0.0
    ensures Norm(z) > 0.0 <==> z != Zero
  {
    ProductSign(z.re, z.re);
    ProductSign(z.im, z.im);
  }

  lemma DivSum(a: real, b: real, n: real)
    requires n != 0.0
    ensures a / n + b / n == (a + b) / n
    ensures a / n - b / n == (a - b) / n
  {
  }

  /** The complex conjugate. */
  function Conjugate(z: Complex): Complex
  {
    Complex(z.re, -z.im)
  }

  /**
   * Complex division, w times the conjugate of z over the squared modulus
   * of z: the one number that multiplied by z gives w.
   */
  function Div(w: Complex, z: Complex): (r: Complex)
    requires z != Zero
    ensures Mul(r, z) == w
  {
    NormSign(z);
    var q := Complex((w.re * z.re + w.im * z.im) / Norm(z), (w.im * z.re - w.re * z.im) / Norm(z));
    QuotientInverse(w, z, q);
    q
  }

  /** Dividing both parts by n is scaling by the reciprocal of n. */
  lemma QuotientAsScale(p: real, q: real, n: real)
    requires n != 0.0
    ensures Complex(p / n, q / n) == Scale(1.0 / n, Complex(p, q))
  {
  }

  /** The parts of w times the conjugate of z: the numerators of w / z. */
  lemma ConjugateNumerators(w: Complex, z: Complex)
    ensures Mul(w, Conjugate(z)) == Complex(w.re * z.re + w.im * z.im, w.im * z.re - w.re * z.im)
  {
  }

  /** Dividing by z is multiplying by the conjugate of z and scaling by the reciprocal of its squared modulus. */
  lemma DivByConjugate(w: Complex, z: Complex)
    requires z != Zero
    ensures Norm(z) > 0.0
    ensures Div(w, z) == Scale(1.0 / Norm(z), Mul(w, Conjugate(z)))
  {
    NormSign(z);
    ConjugateNumerators(w, z);
    QuotientAsScale(w.re * z.re + w.im * z.im, w.im * z.re - w.re * z.im, Norm(z));
  }

  /** A number times a conjugate, times the number conjugated, is scaled by the squared modulus. */
  lemma MulConjugate(w: Complex, z: Complex)
    ensures Mul(Mul(w, Conjugate(z)), z) == Scale(Norm(z), w)
  {
    var a, b, x, y := w.re, w.im, z.re, z.im;
    assert (a * x - b * -y) * x - (a * -y + b * x) * y == a * (x * x + y * y);
    assert (a * x - b * -y) * y + (a * -y + b * x) * x == b * (x * x + y * y);
  }

  /** Scaling commutes with multiplication. */
  lemma MulScale(k: real, w: Complex, z: Complex)
    ensures Mul(Scale(k, w), z) == Scale(k, Mul(w, z))
  {
    assert k * w.re * z.re - k * w.im * z.im == k * (w.re * z.re - w.im * z.im);
    assert k * w.re * z.im + k * w.im * z.re == k * (w.re * z.im + w.im * z.re);
  }

  /** Scaling twice is scaling by the product. */
  lemma ScaleScale(k: real, l: real, w: Complex)
    ensures Scale(k, Scale(l, w)) == Scale(k * l, w)
  {
  }

  /** Multiplication distributes over sums and differences. */
  lemma MulLinear(w1: Complex, w2: Complex, z: Complex)
    ensures Mul(Add(w1, w2), z) == Add(Mul(w1, z), Mul(w2, z))
    ensures Mul(Sub(w1, w2), z) == Sub(Mul(w1, z), Mul(w2, z))
  {
    assert (w1.re + w2.re) * z.re == w1.re * z.re + w2.re * z.re;
    assert (w1.im + w2.im) * z.im == w1.im * z.im + w2.im * z.im;
    assert (w1.re + w2.re) * z.im == w1.re * z.im + w2.re * z.im;
    assert (w1.im + w2.im) * z.re == w1.im * z.re + w2.im * z.re;
    assert (w1.re - w2.re) * z.re == w1.re * z.re - w2.re * z.re;
    assert (w1.im - w2.im) * z.im == w1.im * z.im - w2.im * z.im;
    assert (w1.re - w2.re) * z.im == w1.re * z.im - w2.re * z.im;
    assert (w1.im - w2.im) * z.re == w1.im * z.re - w2.im * z.re;
  }

  /** Scaling distributes over sums and differences. */
  lemma ScaleLinear(k: real, w1: Complex, w2: Complex)
    ensures Scale(k, Add(w1, w2)) == Add(Scale(k, w1), Scale(k, w2))
    ensures Scale(k, Sub(w1, w2)) == Sub(Scale(k, w1), Scale(k, w2))
  {
  }

  lemma Reciprocal(n: real)
    requires n != 0.0
    ensures (1.0 / n) * n == 1.0
  {
  }

  /** The quotient formula times the divisor gives back the dividend. */
  lemma QuotientInverse(w: Complex, z: Complex, q: Complex)
    requires z != Zero
    requires Norm(z) != 0.0
    requires q == Complex((w.re * z.re + w.im * z.im) / Norm(z), (w.im * z.re - w.re * z.im) / Norm(z))
    ensures Mul(q, z) == w
  {
    var k, c := 1.0 / Norm(z), Mul(w, Conjugate(z));
    ConjugateNumerators(w, z);
    QuotientAsScale(w.re * z.re + w.im * z.im, w.im * z.re - w.re * z.im, Norm(z));
    MulScale(k, c, z);
    MulConjugate(w, z);
    ScaleScale(k, Norm(z), w);
    Reciprocal(Norm(z));
    assert Scale(1.0, w) == w;
  }

  /** Division by a fixed divisor distributes over sums and differences. */
  lemma DivLinear(w1: Complex, w2: Complex, z: Complex)
    requires z != Zero
    ensures Add(Div(w1, z), Div(w2, z)) == Div(Add(w1, w2), z)
    ensures Sub(Div(w1, z), Div(w2, z)) == Div(Sub(w1, w2), z)
  {
    NormSign(z);
    DivByConjugate(w1, z);
    DivByConjugate(w2, z);
    DivByConjugate(Add(w1, w2), z);
    DivByConjugate(Sub(w1, w2), z);
    MulLinear(w1, w2, Conjugate(z));
    ScaleLinear(1.0 / Norm(z), Mul(w1, Conjugate(z)), Mul(w2, Conjugate(z)));
  }

  /** Dividing by the imaginary unit turns x + iy into y - ix. */
  lemma DivByI(w: Complex)
    ensures Div(w, I) == Complex(w.im, -w.re)
  {
  }
}
