# Medusa decay-time likelihood core, modelled in Dafny

Medusa fits the time-dependent angular distribution of B_s^0 -> J/psi phi decays. This project models three of its pieces and proves properties of them over exact real arithmetic:

- **`CubicSpline`** (module `CubicSplines`, with its mathematics in `CubicSplineBasis`, and the partition of unity and the continuity at interior knots in `BasisPartition` and `SplineContinuity`) is the efficiency spline. The constructor does the following:
  - pads the knot vector;
  - computes the P, Q, R, S prefactors of the cubic B-spline basis;
  - turns the B-spline coefficients into one power-basis cubic per segment (the `AS` table), replacing coefficients below 1e-9 by 0;
  - continues the spline linearly after the last knot;
  - records whether, and where, that line turns negative.

  `findKnot` locates a point's segment, and `CSplineEval` evaluates the spline with a 1e-3 floor.
- **`PhisSignal`** (module `PhisSignals`, with its density in `PhisSignalDensity`) is the signal functor.
  - It holds 17 parameters and caches the angular-time coefficients a_k, b_k, c_k, d_k and the polarization factors N_k in five ten-entry tables.
  - `Update` refreshes the tables.
  - `Evaluate` returns the ten-term density sum, F_k N_k h_k(t), with these two guards:
    - it is 0 outside the physical simplex (|A_par|^2 < 0);
    - a negative sum is clamped to 0.
- **Kernel functions** (module `Functions`) are the Gaussian-convolved and time-integrated exp·cosh/sinh and exp·cos/sin kernels used by the likelihood. Each dispatches on the sign of `tag`. The module also holds the final [0, 2 pi) fold of the decay-plane angle.

**Common conventions**
- Transcendental functions are fields of a `Math` value (module `Numerics`) and are otherwise uninterpreted: `exp`, `cosh`, `sinh`, `cos`, `sin`, `sqrt`, `atan2`, the Faddeeva `erf`/`erfc` and the complex `exp`/`erfc`. The only property assumed of `sqrt` is that it is non-negative (`SqrtNonNegative`).
- Complex numbers and complex division are modelled in `Numerics`, with the division identities the integrated kernels need.
- Neither the angular basis `parameters::AngularFunctions` nor the coefficient derivation `Update_ATCoefficients` is part of this model. A `PhisSignal` holds each of them as a constant function value.

**Each class is proved against value-level definitions.**
- `CubicSpline`:
  - `u` is `Padded(knots)`;
  - column i of `AS` is `Segments(knots, coeffs)[i]`;
  - `NegativePart`/`xNegative` are `NegativeTail`/`XNegative`;
  - `CSplineEval` is `SplineValue`.
- `PhisSignal`:
  - `Ready()` ties the tables to the derivation and to `NFactors`;
  - `Evaluate` returns `Density`.

## Model

| member | source | states |
|---|---|---|
| CubicSplineBasis.Padded | medusa/generic/CubicSpline.h:96-108 | the padded knot vector has nKnots+6 entries: three copies of knots[0], the knots in order at 3.., then three copies of the last knot |
| CubicSplineBasis.PaddedByEntries | medusa/generic/CubicSpline.h:96-108 | any vector with those entries is the padded knot vector (how the fill loop is tied to it) |
| CubicSplineBasis.PaddedMonotone | medusa/generic/CubicSpline.h:96-118 | for increasing knots the padded vector is non-decreasing at every pair of indices below nKnots+6, so u[i+1..i+6] are in order |
| CubicSplineBasis.PrefactorP | medusa/generic/CubicSpline.h:114 | P[i] = (u[i+4]-u[i+1])(u[i+4]-u[i+2])(u[i+4]-u[i+3]) is positive whenever u[i+1], u[i+2], u[i+3] all lie below u[i+4] |
| CubicSplineBasis.PrefactorQ | medusa/generic/CubicSpline.h:115 | Q[i] = (u[i+5]-u[i+2])(u[i+4]-u[i+2])(u[i+4]-u[i+3]) is positive whenever those three spacings are |
| CubicSplineBasis.PrefactorR | medusa/generic/CubicSpline.h:116 | R[i] = (u[i+5]-u[i+3])(u[i+5]-u[i+2])(u[i+4]-u[i+3]) is positive whenever those three spacings are |
| CubicSplineBasis.PrefactorS | medusa/generic/CubicSpline.h:117 | S[i] = (u[i+6]-u[i+3])(u[i+5]-u[i+3])(u[i+4]-u[i+3]) is positive whenever those three spacings are |
| CubicSplineBasis.PrefactorsPositive | medusa/generic/CubicSpline.h:111-166 | for strictly increasing knots and every segment i < nKnots-1, P[i], Q[i], R[i] and S[i] are strictly positive, so every division by them is defined |
| CubicSplineBasis.BasisCubic | medusa/generic/CubicSpline.h:124-166 | the four power-basis coefficients a_k[0..3][i] of basis function k evaluate, at every x, to the factored cubic B-spline on segment i: (u4-x)^3/P for k = 0, (x-u1)(u4-x)^2/P + (u5-x)(x-u2)(u4-x)/Q + (u5-x)^2(x-u3)/R for k = 1, (x-u2)^2(u4-x)/Q + (x-u2)(u5-x)(x-u3)/R + (u6-x)(x-u3)^2/S for k = 2, (x-u3)^3/S for k = 3 |
| CubicSplineBasis.RawSegmentExpanded | medusa/generic/CubicSpline.h:169-172 | before rounding, the cubic of segment i is b[i] a_0 + b[i+1] a_1 + b[i+2] a_2 + b[i+3] a_3, coefficient by coefficient, with all four prefactors positive |
| CubicSplineBasis.SegmentValue | medusa/generic/CubicSpline.h:124-172 | at every x the unrounded segment cubic equals the B-spline sum b[i] B_0(x) + b[i+1] B_1(x) + b[i+2] B_2(x) + b[i+3] B_3(x) in factored form |
| BasisPartition.BasisSumIsOne | medusa/generic/CubicSpline.h:124-166 | for prefactors built from ordered knots, the four basis cubics of a segment add up to the constant polynomial 1, coefficient by coefficient |
| BasisPartition.PartitionOfUnity | medusa/generic/CubicSpline.h:111-166 | on every interior segment of increasing knots the prefactors are positive and the four basis cubics add up to the constant 1 |
| BasisPartition.FlatSegment | medusa/generic/CubicSpline.h:111-176 | where b[i] .. b[i+3] all equal c, the segment cubic is the constant c, and so is the stored one whenever abs(c) >= 1e-9 |
| SplineContinuity.RawSegmentsMeet | medusa/generic/CubicSpline.h:124-172 | at every interior knot knots[i+1] the unrounded cubics of segments i and i+1 take the same value |
| CubicSplineBasis.Chop | medusa/generic/CubicSpline.h:173-176 | the result is y when abs(y) >= 1e-9 and exactly 0 otherwise |
| CubicSplineBasis.InteriorSegment | medusa/generic/CubicSpline.h:122-177 | every coefficient of an interior segment cubic is exactly 0 or has magnitude >= 1e-9 |
| CubicSplineBasis.Tail | medusa/generic/CubicSpline.h:181-191 | the tail is linear (AS[2], AS[3] are 0), and its value and slope at the last knot v equal the value and derivative of segment nKnots-2 there |
| CubicSplineBasis.Segments | medusa/generic/CubicSpline.h:121-191 | the table has one cubic per knot; entry i < nKnots-1 is the rounded cubic of segment i; the last entry is linear, and its value and slope at the last knot equal those of segment nKnots-2 |
| CubicSplineBasis.InteriorsBelowNext | medusa/generic/CubicSpline.h:122-177 | the interior columns are built one segment at a time, in index order |
| CubicSplineBasis.LineRoot | medusa/generic/CubicSpline.h:194-198 | the tail line vanishes at -AS[0]/AS[1] |
| CubicSplineBasis.XNegative | medusa/generic/CubicSpline.h:194-198 | when the tail slope is negative, the tail line is 0 at xNegative, that is AS[0]+AS[1]*xNegative = 0 |
| CubicSplineBasis.LastAtMost | medusa/generic/CubicSpline.h:410-415 | the scan over knots[0..m) yields 0 or an index whose knot is <= x, and every later knot is > x |
| CubicSplineBasis.KnotIndex | medusa/generic/CubicSpline.h:408-416 | the scan's result j is < nKnots, is 0 or has knots[j] <= x, and every later knot is > x |
| CubicSplineBasis.KnotIndexBracket | medusa/generic/CubicSpline.h:408-416 | for increasing knots findKnot's result is < nKnots, is 0 below the first knot, has knots[j] <= x otherwise, has x < knots[j+1] when j < nKnots-1, and is nKnots-1 from the last knot on; x lies in segment j, and j is the only segment x lies in |
| CubicSplineBasis.TableValue | medusa/generic/CubicSpline.h:421-429 | the value is 1e-3 when the tail line slopes down and x is past its root, and otherwise the value at x of the cubic of the segment x lies in |
| CubicSplineBasis.SplineValue | medusa/generic/CubicSpline.h:421-429 | the spline value is 1e-3 when NegativePart holds and x > xNegative; otherwise it is the rounded interior cubic of the segment x lies in, or the tail line from the last knot on |
| CubicSplineBasis.LineNonNegativeBeforeRoot | medusa/generic/CubicSpline.h:194-198 | a descending tail line is non-negative up to its root |
| CubicSplineBasis.SplineNonNegativeAfterLastKnot | medusa/generic/CubicSpline.h:421-429 | when NegativePart holds, the spline value is >= 0 at every x >= the last knot |
| CubicSplines.CubicSpline.constructor | medusa/generic/CubicSpline.h:92-209 | the initializer-list constructor builds the valid state (padded u, AS equal to Segments, NegativePart and xNegative from the tail, factorial = [1,1,2,6]) from exactly the given knots and coefficients |
| CubicSplines.CubicSpline.FromArrays | medusa/generic/CubicSpline.h:215-332 | the array constructor builds the same valid state from the same knots and coefficients |
| CubicSplines.CubicSpline.Factorials | medusa/generic/CubicSpline.h:204-208 | the factorial table is [1, 1, 2, 6] |
| CubicSplines.CubicSpline.Build | medusa/generic/CubicSpline.h:94-202 | u is Padded(knots), every AS[d][i] is coefficient d of Segments(knots, b)[i], NegativePart is NegativeTail, and xNegative is XNegative when it holds |
| CubicSplines.CubicSpline.PadKnots | medusa/generic/CubicSpline.h:95-108 | the fill loop leaves u equal to Padded(knots) and b equal to the coefficients |
| CubicSplines.CubicSpline.Prefactors | medusa/generic/CubicSpline.h:111-118 | each P[i], Q[i], R[i], S[i] is the product of knot differences that PrefactorP..S define |
| CubicSplines.CubicSpline.InteriorColumns | medusa/generic/CubicSpline.h:121-177 | after the loop, columns 0..nKnots-2 of AS hold the chopped interior segment cubics |
| CubicSplines.CubicSpline.StoreColumn | medusa/generic/CubicSpline.h:169-176 | column i becomes the chopped cubic and every other column is unchanged |
| CubicSplines.CubicSpline.SegmentSums | medusa/generic/CubicSpline.h:124-172 | the four rows of column i are the b-weighted sums of the basis coefficients a0..a3 |
| CubicSplines.CubicSpline.LinearTail | medusa/generic/CubicSpline.h:181-191 | the last column becomes Tail(segment nKnots-2, v) and all other columns are unchanged |
| CubicSplines.CubicSpline.Copy | medusa/generic/CubicSpline.h:337-362 | the copy has the same u, AS, NegativePart, xNegative and factorial, in fresh arrays |
| CubicSplines.CubicSpline.Assign | medusa/generic/CubicSpline.h:370-399 | after assignment every field equals other's, and self-assignment changes nothing |
| CubicSplines.CubicSpline.CopyFrom | medusa/generic/CubicSpline.h:374-396 | u, AS, NegativePart, xNegative and factorial are copied from other |
| CubicSplines.CubicSpline.CopyTables | medusa/generic/CubicSpline.h:374-388 | the loops copy all of u and every column of AS |
| CubicSplines.CubicSpline.FindKnot | medusa/generic/CubicSpline.h:408-416 | the linear scan returns KnotIndex(knots, x), which is < nKnots |
| CubicSplines.CubicSpline.CSplineEval | medusa/generic/CubicSpline.h:421-429 | the result is 1e-3 when NegativePart and x > xNegative, else segment findKnot(x)'s cubic (SplineValue), and it is >= 0 for x >= the last knot when NegativePart holds |
| CubicSplines.CubicSpline.GetFactorial | medusa/generic/CubicSpline.h:477 | the factorials are [1, 1, 2, 6] |
| CubicSplines.CubicSpline.GetKnots | medusa/generic/CubicSpline.h:481 | the stored knot vector is the padded knots |
| CubicSplines.CubicSpline.GetOverCoeff | medusa/generic/CubicSpline.h:485 | AS[d][i] is coefficient d of segment i, and for interior segments it is 0 or at least 1e-9 in magnitude |
| CubicSplines.CubicSpline.GetNegativePart | medusa/generic/CubicSpline.h:489 | NegativePart holds exactly when the tail slope AS[1][nKnots-1] is negative |
| CubicSplines.CubicSpline.GetxNegative | medusa/generic/CubicSpline.h:492 | when NegativePart holds, xNegative is the root of the tail line |
| PhisSignalDensity.Apar2 | medusa/phi_s/phis_signal/PhisSignal.h:206 | A_par2 is what remains of 1 after A_0^2 and A_perp^2: A_par2 + par[0] + par[1] = 1 |
| PhisSignalDensity.CP | medusa/phi_s/phis_signal/PhisSignal.h:338 | CP is +1 or -1, and negative exactly for the antiparticle |
| PhisSignalDensity.NFactors | medusa/phi_s/phis_signal/PhisSignal.h:296-309 | there are ten polarization factors |
| PhisSignalDensity.NFactorsNonNegative | medusa/phi_s/phis_signal/PhisSignal.h:298-309 | inside the simplex, with non-negative amplitudes, every N_k is non-negative (square roots of non-negative products) |
| PhisSignalDensity.TimeFactor | medusa/phi_s/phis_signal/PhisSignal.h:316-334 | for CP = +1 or -1, Time_Factor is f exp(-(par[3]+0.65789) t)(A chT1 + B shT1) plus CP times f exp(...)(C cT2 + D sT2) |
| PhisSignalDensity.TimeFactorCP | medusa/phi_s/phis_signal/PhisSignal.h:327-338 | particle and antiparticle time factors add up to 2 f exp(...)(A chT1 + B shT1) and differ by 2 f exp(...)(C cT2 + D sT2) |
| PhisSignalDensity.PolarizedSum | medusa/phi_s/phis_signal/PhisSignal.h:227-231 | the running sum of F_k N_k h_k over the first count terms is >= 0 when every term is, and 0 when every N_k is 0 |
| PhisSignalDensity.Unclamped | medusa/phi_s/phis_signal/PhisSignal.h:217-231 | the ten-term sum before the clamp is 0 when every N_k is 0 and >= 0 when every term F_k N_k h_k is |
| PhisSignalDensity.PolarizedSumSigned | medusa/phi_s/phis_signal/PhisSignal.h:228-231 | the sum of F_k N_k (e_k ± o_k) is the sum of F_k N_k e_k ± the sum of F_k N_k o_k |
| PhisSignalDensity.UnclampedSplit | medusa/phi_s/phis_signal/PhisSignal.h:217-231 | the unclamped ten-term sum is its CP-even sum plus CP times its CP-odd sum |
| PhisSignalDensity.UnclampedCP | medusa/phi_s/phis_signal/PhisSignal.h:217-231 | the particle and antiparticle sums add up to twice the CP-even sum and differ by twice the CP-odd sum |
| PhisSignalDensity.Clamp | medusa/phi_s/phis_signal/PhisSignal.h:245-252 | the clamp is non-negative, leaves non-negative sums unchanged and turns negative ones into 0 |
| PhisSignalDensity.Density | medusa/phi_s/phis_signal/PhisSignal.h:206-252 | the density is never negative and is exactly 0 whenever 1 - par[0] - par[1] < 0 |
| PhisSignals.PhisSignal.constructor | medusa/phi_s/phis_signal/PhisSignal.h:98-111 | the functor stores the 17 parameters in the given order and leaves every table up to date |
| PhisSignals.PhisSignal.FromArray | medusa/phi_s/phis_signal/PhisSignal.h:116-131 | the array forms store the 17 array entries in order and leave every table up to date |
| PhisSignals.PhisSignal.Copy | medusa/phi_s/phis_signal/PhisSignal.h:136-150 | the copy has the same parameters and all ten entries of A, B, C, D and N, in fresh arrays |
| PhisSignals.PhisSignal.Assign | medusa/phi_s/phis_signal/PhisSignal.h:158-177 | assignment copies the parameters and all ten entries of each table, and self-assignment changes nothing |
| PhisSignals.PhisSignal.CopyTables | medusa/phi_s/phis_signal/PhisSignal.h:140-149 | the loop leaves each of A, B, C, D, N equal to other's |
| PhisSignals.PhisSignal.Update | medusa/phi_s/phis_signal/PhisSignal.h:186-190 | afterwards A, B, C, D are the derivation of the parameters and N holds the polarization factors inside the simplex, while N is untouched outside it |
| PhisSignals.PhisSignal.UpdateATCoefficients | medusa/phi_s/phis_signal/PhisSignal.h:283 | A, B, C, D become the four tables derived from the parameters |
| PhisSignals.PhisSignal.UpdateNFactors | medusa/phi_s/phis_signal/PhisSignal.h:288-311 | when A_par2 >= 0, N becomes [par0, A_par2, par1, sqrt(par1 A_par2), sqrt(par0 A_par2), sqrt(par0 par1), par2, sqrt(par2 A_par2), sqrt(par2 par1), sqrt(par2 par0)]; otherwise N is unchanged |
| PhisSignals.PhisSignal.Evaluate | medusa/phi_s/phis_signal/PhisSignal.h:195-253 | the read-only evaluation returns the clamped sum over k < 10 of F_k N_k Time_Factor(k) with T1 = t par[4]/2 and T2 = t par[5], which is >= 0 and exactly 0 when A_par2 < 0 |
| PhisSignals.PhisSignal.GetA | medusa/phi_s/phis_signal/PhisSignal.h:261 | the a_k table is the derivation of the current parameters |
| PhisSignals.PhisSignal.GetB | medusa/phi_s/phis_signal/PhisSignal.h:264 | the b_k table is the derivation of the current parameters |
| PhisSignals.PhisSignal.GetC | medusa/phi_s/phis_signal/PhisSignal.h:267 | the c_k table is the derivation of the current parameters |
| PhisSignals.PhisSignal.GetD | medusa/phi_s/phis_signal/PhisSignal.h:270 | the d_k table is the derivation of the current parameters |
| PhisSignals.PhisSignal.GetN | medusa/phi_s/phis_signal/PhisSignal.h:273 | the N table has ten entries, which are the polarization factors of the current parameters inside the simplex |
| Numerics.Div | medusa/Functions.h:218-220 | the quotient w / z for z != 0 is the number that multiplied by z gives w |
| Numerics.DivLinear | medusa/Functions.h:218-220 | dividing by a fixed z distributes over sums and differences |
| Numerics.DivByI | medusa/Functions.h:160 | dividing x + iy by the imaginary unit gives y - ix, so the real part of w / I is the imaginary part of w |
| Functions.Faddeeva | medusa/Functions.h:128-129 | exp(z^2 - 2zx) erfc(z - x) equals exp((z-x)^2 - x^2) erfc(z - x), the scaled erfc of z - x damped by exp(-x^2) |
| Functions.HyperbolicZ1 | medusa/Functions.h:125 | z1 times sqrt(2) is (a - b) sigma |
| Functions.HyperbolicZ2 | medusa/Functions.h:126 | z2 times sqrt(2) is (a + b) sigma |
| Functions.ConvolutedExpSinhCosh | medusa/Functions.h:121-138 | the result is 0.25(F(z1)+F(z2)) for tag > 0, 0.25(F(z1)-F(z2)) for tag < 0, and exactly 0 for tag == 0 |
| Functions.HyperbolicMirror | medusa/Functions.h:125-126 | replacing b by -b swaps z1 and z2 |
| Functions.ConvolutedSinhCoshMirror | medusa/Functions.h:125-135 | replacing b by -b leaves the cosh branch (and tag 0) unchanged and negates the sinh branch |
| Functions.ConvolutedSinhCoshBranches | medusa/Functions.h:128-135 | the cosh and sinh branches add up to F(z1)/2 and differ by F(z2)/2 |
| Functions.ConvolutedSinhVanishes | medusa/Functions.h:125-135 | with b = 0 the sinh branch is exactly 0 |
| Functions.TrigonometricMirror | medusa/Functions.h:150-151 | z1 is the complex conjugate of z2, and replacing b by -b swaps them |
| Functions.TrigonometricZ1 | medusa/Functions.h:150 | z1 times sqrt(2) has real part a sigma and imaginary part -b sigma |
| Functions.TrigonometricZ2 | medusa/Functions.h:151 | z2 times sqrt(2) has real part a sigma and imaginary part b sigma |
| Functions.ComplexFaddeeva | medusa/Functions.h:153-154 | for complex z, exp(z^2 - 2zx) erfc(z - x) equals exp(u^2 - x^2) erfc(u) with u = z - x |
| Functions.ConvolutedExpSinCos | medusa/Functions.h:144-165 | the result is 0.25 Re(F(z1)+F(z2)) for tag > 0, 0.25 Im(F(z1)-F(z2)) for tag < 0 (the real part of the quotient by I), and 0 for tag == 0 |
| Functions.ConvolutedSinCosMirror | medusa/Functions.h:150-164 | replacing b by -b leaves the cos branch (and tag 0) unchanged and negates the sin branch |
| Functions.ConvolutedSinVanishes | medusa/Functions.h:150-164 | with b = 0 the sin branch is exactly 0 |
| Functions.Cumulative | medusa/Functions.h:180-184 | a cumulative term over an empty window (x1 == x2) is 0 |
| Functions.CumulativeAdditive | medusa/Functions.h:180-184 | cumulative terms over [x1, x2] and [x2, x3] add up to the term over [x1, x3] |
| Functions.IntegratedConvolutedExpSinhCosh | medusa/Functions.h:171-193 | the integrated hyperbolic kernel is 0 for tag == 0 and 0 when LowerLimit == UpperLimit |
| Functions.IntegratedSinhCoshTimeFree | medusa/Functions.h:171-193 | the integrated hyperbolic kernel does not depend on its time argument |
| Functions.IntegratedSinhCoshAdditive | medusa/Functions.h:180-192 | the value over [L, M] plus the value over [M, U] is the value over [L, U], for every tag |
| Functions.IntegratedSinhCoshMirror | medusa/Functions.h:177-190 | replacing b by -b leaves the integrated cosh branch unchanged and negates the integrated sinh branch |
| Functions.ComplexCumulative | medusa/Functions.h:210-214 | a complex cumulative term over an empty window is 0 |
| Functions.ComplexCumulativeAdditive | medusa/Functions.h:210-214 | complex cumulative terms over adjacent windows add up |
| Functions.TrigonometricIntegral | medusa/Functions.h:216-220 | the combined complex quotient is 0 for tag == 0 |
| Functions.TrigonometricIntegralEmpty | medusa/Functions.h:204-220 | over an empty window the combined complex quotient is 0 for every tag |
| Functions.TrigonometricRatesNonZero | medusa/Functions.h:207-208 | when sigma != 0 and a or b is nonzero, neither z1 nor z2 is 0, so both divisions are defined |
| Functions.IntegratedConvolutedExpSinCos | medusa/Functions.h:199-225 | the integrated trigonometric kernel is 0 for tag == 0 and 0 when LowerLimit == UpperLimit |
| Functions.IntegratedSinCosTimeFree | medusa/Functions.h:199-225 | the integrated trigonometric kernel does not depend on its time argument |
| Functions.IntegratedSinCosAdditive | medusa/Functions.h:210-222 | the value over [L, M] plus the value over [M, U] is the value over [L, U], for every tag |
| Functions.IntegratedSinCosMirror | medusa/Functions.h:207-222 | replacing b by -b leaves the integrated cos branch unchanged and negates the integrated sin branch |
| Functions.NormalizeAngle | medusa/Functions.h:114 | the result is phi or phi + 2 pi, is phi when phi >= 0, and lies in [0, 2 pi) when phi is in (-pi, pi] |
| Functions.PhiPlaneAngle | medusa/Functions.h:112-114 | if atan2 returns a value in (-pi, pi], the angle lies in [0, 2 pi) |
| Functions.NormalizeAngleIdempotent | medusa/Functions.h:114 | folding an angle from (-pi, pi] twice gives the same result as folding it once |

## Left out

- Arithmetic:
  - Floating point is modelled by exact `real` arithmetic, without IEEE rounding, infinities or NaN.
  - Divisions by zero are excluded by preconditions, and only on the branches that divide: sigma != 0, nonzero rates for a nonzero tag, strictly increasing knots. In the C++ code they would yield inf/NaN.
  - The `hydra::CHECK_VALUE` NaN warning in `Evaluate` is a diagnostic printout and is not modelled.
- Transcendentals: the transcendental and special functions (exp, cosh, sinh, cos, sin, sqrt, atan2, Faddeeva erf/erfc) are uninterpreted parameters. No accuracy or identity of them is modelled beyond sqrt being non-negative.
- Spline:
  - The spline integration methods and the helper functions K and M are only declared in CubicSpline.h. They are defined in medusa/generic/CubicSpline.inl, which is not part of this model.
  - CubicSplineBasis.Segments: only continuity of value at the interior knots is proved (`SplineContinuity.RawSegmentsMeet`, for the unrounded cubics). Continuity of the first and second derivatives there, the C2 property of cubic B-splines, is not proved. The stored cubics differ from the unrounded ones by the 1e-9 rounding of each coefficient, so they meet only up to that rounding.
  - ROOT histogram plotting (`CreateHistogramPlot`) is left out.
  - The spline's knot count is a class parameter and its coefficient list is an initializer list. The model takes an array and a sequence, and requires three things of them:
    - nKnots+2 coefficients, as the comments on both constructors demand (CubicSpline.h:89-91, 212-214);
    - strictly increasing knots, which the source leaves to its callers and which keeps every prefactor nonzero;
    - at least two knots, because the linear continuation reads column nKnots-2 (CubicSpline.h:181-191).
  - CubicSplines.CubicSpline.constructor: when the tail line is not negative, the C++ leaves `xNegative` uninitialised. The copy constructor and `operator=` copy that value, and `CSplineEval` compares x with it before testing `NegativePart`, but with `NegativePart` false the comparison cannot change the result. The model leaves the value unconstrained and copies it the same way.
- PhisSignal:
  - `Update_ATCoefficients` and the analytic integral are defined in `Update_ATCoefficients.inl` and `IntegrationFormula.inl`, which are not part of this model. The coefficient formulas enter as an abstract function value of the parameters.
  - `parameters::AngularFunctions` is an abstract function value returning ten entries.
  - PhisSignals.PhisSignal.UpdateATCoefficients: stores the entries of the abstract derivation in a loop of its own. It states what the tables hold afterwards, not how the .inl file computes them.
  - PhisSignals.PhisSignal.constructor: when A_par2 < 0 at construction, the C++ leaves N as its default construction left it (PhisSignal.h:340). The model leaves its entries unconstrained; `Evaluate` never reads them then.
  - The constructor forms that take `hydra::Parameter` objects and plain doubles store the same values. They are modelled by the sequence constructor and `FromArray`, without hydra's parameter metadata (names, limits, errors).
  - The hydra `BaseFunctor` machinery is left out: `SetParameters` (the base-class routine that rewrites the parameters and then calls `Update`), `__hydra_dual__` device dispatch, `#pragma unroll` and the argument-type templates. The angle arguments are plain reals.
- Functions:
  - `cos_decay_angle` and the `Vector4R` boost, dot and cross geometry of `phi_plane_angle` are foreign vector-library computations and are left out. Only the final fold of the atan2 result into [0, 2 pi) is modelled, with atan2 as a parameter.
  - The unused integrand argument `time` of the integrated kernels is kept as a parameter, and its irrelevance is proved.
- The benchmark program that generates datasets and times the fit is I/O and tooling, and is not part of this model.
