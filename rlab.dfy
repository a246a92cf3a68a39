/** Fairchild's refined RLAB colour appearance model (1996), on the path the
    source takes for a single stimulus: chromatic adaptation computed from the
    reference white, projection of the stimulus into the reference space, and
    the lightness, opponent, hue, chroma and saturation correlates. */
module Rlab {
  import opened Wrappers
  import opened Vectors

  /** The matrix R taking adapted cone responses to the reference space. */
  const R_MATRIX := Matrix3(Triple(1.9569, -1.1882, 0.2313),
                            Triple(0.3612, 0.6388, 0.0),
                            Triple(0.0, 0.0, 1.0))

  /** The exponent sigma for each relative luminance of the surround. */
  const RLAB_VIEWING_CONDITIONS: map<string, real> :=
    map["Average" := 1.0 / 2.3, "Dim" := 1.0 / 2.9, "Dark" := 1.0 / 3.5]

  /** The six RLAB correlates. Saturation is None where the source divides by a
      zero lightness and obtains NaN or infinity. */
  datatype RlabSpecification = RlabSpecification(h: real, C: real, s: Option<real>, L: real, a: real, b: real)

  /** The floating-point operations that the model leaves uninterpreted: Python's
      `**`, `np.arctan2`, `math.degrees` and `np.sqrt`. */
  datatype Primitives = Primitives(pow: (real, real) -> real, arctan2: (real, real) -> real,
                                   degrees: real -> real, sqrt: real -> real)

  /** `sqrt` is the principal square root on the non-negative reals. */
  ghost predicate IsSquareRoot(sqrt: real -> real) {
    forall x :: 0.0 <= x ==> 0.0 <= sqrt(x) && sqrt(x) * sqrt(x) == x
  }

  /** The three surround presets and their order: a darker surround has a
      smaller exponent. */
  lemma SurroundPresets()
    ensures RLAB_VIEWING_CONDITIONS.Keys == {"Average", "Dim", "Dark"}
    ensures RLAB_VIEWING_CONDITIONS["Average"] * 2.3 == 1.0
    ensures RLAB_VIEWING_CONDITIONS["Dim"] * 2.9 == 1.0
    ensures RLAB_VIEWING_CONDITIONS["Dark"] * 3.5 == 1.0
    ensures 0.0 < RLAB_VIEWING_CONDITIONS["Dark"] < RLAB_VIEWING_CONDITIONS["Dim"] < RLAB_VIEWING_CONDITIONS["Average"]
  {
  }

  // ---------------------------------------------------------------------------
  // Chromatic adaptation
  // ---------------------------------------------------------------------------

  /** Three channels computed separately, defined when all three are. */
  function AllDefined(a: Option<real>, b: Option<real>, c: Option<real>): Option<Triple> {
    if a.Some? && b.Some? && c.Some? then Some(Triple(a.value, b.value, c.value)) else None
  }

  /** LMS_l_E: the reference white's cone responses scaled to sum to three, so
      that an equal-energy white has 1 in every channel. A zero sum gives NaN
      or infinity. */
  function EqualEnergyNormalised(lmsN: Triple): (r: Option<Triple>)
    ensures r.Some? <==> Sum(lmsN) != 0.0
    ensures r.Some? ==> (r.value.x == 0.0 <==> lmsN.x == 0.0) && (r.value.y == 0.0 <==> lmsN.y == 0.0)
                        && (r.value.z == 0.0 <==> lmsN.z == 0.0)
    ensures Positive(lmsN) ==> r.Some? && Positive(r.value)
  {
    var S := Sum(lmsN);
    if S == 0.0 then None else Some(Triple(3.0 * lmsN.x / S, 3.0 * lmsN.y / S, 3.0 * lmsN.z / S))
  }

  /** The normalised responses sum to exactly three. */
  lemma NormalisedSumIsThree(lmsN: Triple)
    requires Sum(lmsN) != 0.0
    ensures Sum(EqualEnergyNormalised(lmsN).value) == 3.0
  {
    var S := Sum(lmsN);
    var lE := EqualEnergyNormalised(lmsN).value;
    assert lE == Triple(3.0 * lmsN.x / S, 3.0 * lmsN.y / S, 3.0 * lmsN.z / S);
    SumOfQuotients(3.0 * lmsN.x, 3.0 * lmsN.y, 3.0 * lmsN.z, S);
    assert 3.0 * lmsN.x + 3.0 * lmsN.y + 3.0 * lmsN.z == 3.0 * S;
    assert (3.0 * S) / S == 3.0;
    assert Sum(lE) == (3.0 * S) / S;
  }

  /** A white whose cone responses are all equal is normalised to 1 in every
      channel. */
  lemma EqualEnergyWhite(lmsN: Triple)
    requires lmsN.x == lmsN.y == lmsN.z != 0.0
    ensures EqualEnergyNormalised(lmsN) == Some(Ones)
  {
    var S := Sum(lmsN);
    assert S == 3.0 * lmsN.x;
    assert 3.0 * lmsN.x / S == 1.0;
  }

  /** One channel of LMS_p_L, given the cube root of the adapting luminance.
      A zero normalised response makes NumPy's reciprocal infinite and the
      quotient exactly zero; a zero denominator makes the quotient NaN or
      infinite. */
  function LuminanceAdapted(lE: real, cbrtYn: real): (p: Option<real>)
    ensures lE == 1.0 ==> (p.Some? <==> cbrtYn != -2.0) && (p.Some? ==> p.value == 1.0)
    ensures 0.0 < lE && 0.0 <= cbrtYn ==> p.Some? && 0.0 < p.value
  {
    if lE == 0.0 then Some(0.0)
    else
      var den := 1.0 + cbrtYn + 1.0 / lE;
      if den == 0.0 then None else Some((1.0 + cbrtYn + lE) / den)
  }

  /** LMS_p_L, channel by channel: defined when every channel is. */
  function LuminanceAdaptedResponses(lE: Triple, cbrtYn: real): (r: Option<Triple>)
    ensures r.Some? <==> LuminanceAdapted(lE.x, cbrtYn).Some? && LuminanceAdapted(lE.y, cbrtYn).Some?
                         && LuminanceAdapted(lE.z, cbrtYn).Some?
    ensures r.Some? ==> r.value == Triple(LuminanceAdapted(lE.x, cbrtYn).value, LuminanceAdapted(lE.y, cbrtYn).value,
                                          LuminanceAdapted(lE.z, cbrtYn).value)
    // positive normalised responses and a non-negative cube root give positive responses
    ensures Positive(lE) && 0.0 <= cbrtYn ==> r.Some? && Positive(r.value)
    // an equal-energy white is left at 1 in every channel
    ensures lE == Ones ==> (r.Some? <==> cbrtYn != -2.0) && (r.Some? ==> r.value == Ones)
  {
    AllDefined(LuminanceAdapted(lE.x, cbrtYn), LuminanceAdapted(lE.y, cbrtYn), LuminanceAdapted(lE.z, cbrtYn))
  }

  /** One channel of LMS_a_L: the discounting factor D interpolates between the
      luminance-adapted response (D = 0) and complete adaptation (D = 1). A
      zero white response gives NaN or infinity. */
  function AdaptationFactor(pL: real, n: real, D: real): (a: Option<real>)
    ensures a.Some? <==> n != 0.0
    ensures n != 0.0 && D == 1.0 ==> a == Some(1.0 / n)
    ensures n != 0.0 && D == 0.0 ==> a == Some(pL / n)
    ensures n != 0.0 && pL == 1.0 ==> a == Some(1.0 / n)
  {
    if n == 0.0 then None else Some((pL + D * (1.0 - pL)) / n)
  }

  /** LMS_a_L, the diagonal of the adaptation matrix, from the reference white's
      cone responses, the cube root of the adapting luminance and D. */
  function AdaptationFactors(lmsN: Triple, cbrtYn: real, D: real): (r: Option<Triple>)
    // defined for every physical white
    ensures Positive(lmsN) && 0.0 <= cbrtYn ==> r.Some?
    // undefined when a channel of the white is zero
    ensures r.Some? ==> lmsN.x != 0.0 && lmsN.y != 0.0 && lmsN.z != 0.0
  {
    match EqualEnergyNormalised(lmsN)
    case None => None
    case Some(lE) =>
      match LuminanceAdaptedResponses(lE, cbrtYn)
      case None => None
      case Some(pL) =>
        AllDefined(AdaptationFactor(pL.x, lmsN.x, D), AdaptationFactor(pL.y, lmsN.y, D),
                   AdaptationFactor(pL.z, lmsN.z, D))
  }

  /** With complete adaptation (D = 1), or for an equal-energy white at any D,
      each factor is the reciprocal of the white's cone response: the adapted
      white has response 1 in every channel. */
  lemma AdaptedWhiteResponses(lmsN: Triple, cbrtYn: real, D: real)
    requires AdaptationFactors(lmsN, cbrtYn, D).Some?
    requires D == 1.0 || lmsN.x == lmsN.y == lmsN.z
    ensures Hadamard(AdaptationFactors(lmsN, cbrtYn, D).value, lmsN) == Ones
  {
    var aL := AdaptationFactors(lmsN, cbrtYn, D).value;
    if D != 1.0 {
      EqualEnergyWhite(lmsN);
      var pL := LuminanceAdaptedResponses(Ones, cbrtYn).value;
      assert pL == Ones;
    }
    assert aL.x * lmsN.x == 1.0 && aL.y * lmsN.y == 1.0 && aL.z * lmsN.z == 1.0;
  }

  // ---------------------------------------------------------------------------
  // Projection into the reference space
  // ---------------------------------------------------------------------------

  /** R · diag(LMS_a_L) · HPE, multiplied left to right as NumPy's chained `dot`
      does. It takes every vector to its cone responses, scales them channel by
      channel by the adaptation factors and then applies R. */
  function ProjectionMatrix(aL: Triple, hpe: Matrix3): (m: Matrix3)
    ensures forall v :: MatVec(m, v) == MatVec(R_MATRIX, Hadamard(aL, MatVec(hpe, v)))
  {
    ChainedProduct(aL, hpe);
    MatMul(MatMul(R_MATRIX, Diag(aL)), hpe)
  }

  lemma ChainedProduct(aL: Triple, hpe: Matrix3)
    ensures forall v :: MatVec(MatMul(MatMul(R_MATRIX, Diag(aL)), hpe), v)
                        == MatVec(R_MATRIX, Hadamard(aL, MatVec(hpe, v)))
  {
    forall v ensures MatVec(MatMul(MatMul(R_MATRIX, Diag(aL)), hpe), v)
                     == MatVec(R_MATRIX, Hadamard(aL, MatVec(hpe, v))) {
      MatMulMatVec(MatMul(R_MATRIX, Diag(aL)), hpe, v);
      MatMulMatVec(R_MATRIX, Diag(aL), MatVec(hpe, v));
      DiagMatVec(aL, MatVec(hpe, v));
    }
  }

  /** XYZ_ref: the stimulus taken through the projection matrix. */
  function ReferenceXyz(aL: Triple, hpe: Matrix3, xyz: Triple): (r: Triple)
    ensures r == MatVec(R_MATRIX, Hadamard(aL, MatVec(hpe, xyz)))
  {
    MatVec(ProjectionMatrix(aL, hpe), xyz)
  }

  /** The projection is linear in the stimulus. */
  lemma ReferenceXyzLinear(aL: Triple, hpe: Matrix3, k: real, u: Triple, v: Triple)
    ensures ReferenceXyz(aL, hpe, Scale(k, u)) == Scale(k, ReferenceXyz(aL, hpe, u))
    ensures ReferenceXyz(aL, hpe, Add(u, v)) == Add(ReferenceXyz(aL, hpe, u), ReferenceXyz(aL, hpe, v))
  {
    MatVecLinear(ProjectionMatrix(aL, hpe), k, u, v);
  }

  /** Every row of R sums to one, so R leaves an achromatic (1, 1, 1) response
      unchanged. */
  lemma RPreservesOnes()
    ensures MatVec(R_MATRIX, Ones) == Ones
  {
  }

  // ---------------------------------------------------------------------------
  // Correlates
  // ---------------------------------------------------------------------------

  /** `d` is a whole number of turns of 360 degrees. */
  predicate WholeTurns(d: real) {
    (d / 360.0).Floor as real == d / 360.0
  }

  /** Python's `x % 360` on floats: the remainder with the sign of the
      divisor. */
  function Mod360(x: real): (r: real)
    ensures 0.0 <= r < 360.0
    ensures WholeTurns(x - r)
  {
    x - 360.0 * ((x / 360.0).Floor as real)
  }

  /** The remainder is the only angle in [0, 360) that differs from x by whole
      turns. */
  lemma Mod360Unique(x: real, y: real)
    requires 0.0 <= y < 360.0 && WholeTurns(x - y)
    ensures Mod360(x) == y
  {
    var i := ((x - y) / 360.0).Floor;
    var j := ((x - Mod360(x)) / 360.0).Floor;
    assert Mod360(x) - y == 360.0 * ((i - j) as real);
  }

  /** Lightness, opponent responses, hue, chroma and saturation from the
      reference-space tristimulus values. */
  function Correlates(p: Primitives, xyzRef: Triple, sigma: real): (r: RlabSpecification)
    // the hue is the angle of (a, b) in degrees, wrapped into [0, 360)
    ensures 0.0 <= r.h < 360.0
    ensures WholeTurns(p.degrees(p.arctan2(r.b, r.a)) - r.h)
    // saturation is chroma over lightness, and undefined exactly at zero lightness
    ensures r.s.Some? <==> r.L != 0.0
    ensures r.s.Some? ==> r.s.value * r.L == r.C
    // equal reference-space components are achromatic
    ensures xyzRef.x == xyzRef.y == xyzRef.z ==> r.a == 0.0 && r.b == 0.0
    ensures xyzRef.x == xyzRef.y == xyzRef.z && p.sqrt(0.0) == 0.0 ==> r.C == 0.0
    // chroma is the length of (a, b)
    ensures IsSquareRoot(p.sqrt) ==> 0.0 <= r.C && r.C * r.C == r.a * r.a + r.b * r.b
  {
    var xs, ys, zs := p.pow(xyzRef.x, sigma), p.pow(xyzRef.y, sigma), p.pow(xyzRef.z, sigma);
    var lightness := 100.0 * ys;
    var aR := 430.0 * (xs - ys);
    var bR := 170.0 * (ys - zs);
    var hue := Mod360(p.degrees(p.arctan2(bR, aR)));
    var chroma := p.sqrt(aR * aR + bR * bR);
    var saturation := if lightness == 0.0 then None else Some(chroma / lightness);
    assert 0.0 <= aR * aR + bR * bR;
    RlabSpecification(hue, chroma, saturation, lightness, aR, bR)
  }

  /** Given a true square root, chroma is zero exactly when both opponent
      responses are. */
  lemma ChromaZeroIffNeutral(p: Primitives, xyzRef: Triple, sigma: real)
    requires IsSquareRoot(p.sqrt)
    ensures var r := Correlates(p, xyzRef, sigma); r.C == 0.0 <==> r.a == 0.0 && r.b == 0.0
  {
    var r := Correlates(p, xyzRef, sigma);
    assert r.C * r.C == r.a * r.a + r.b * r.b;
    assert 0.0 <= r.a * r.a && 0.0 <= r.b * r.b;
    if r.C == 0.0 {
      assert r.a * r.a == 0.0 && r.b * r.b == 0.0;
      SquareZero(r.a);
      SquareZero(r.b);
    }
    if r.a == 0.0 && r.b == 0.0 {
      SquareZero(r.C);
    }
  }

  // ---------------------------------------------------------------------------
  // XYZ_to_RLAB
  // ---------------------------------------------------------------------------

  /** XYZ_to_RLAB for one stimulus. `hpe` is the Hunt-Pointer-Estévez matrix of
      the Hunt model, by which XYZ_to_rgb multiplies. None stands for a result
      that floating point fills with NaN or infinity. */
  function XyzToRlab(p: Primitives, hpe: Matrix3, xyz: Triple, xyzN: Triple, yN: real, sigma: real, D: real)
    : (r: Option<RlabSpecification>)
    // defined for every white with positive cone responses
    ensures Positive(MatVec(hpe, xyzN)) && 0.0 <= p.pow(yN, 1.0 / 3.0) ==> r.Some?
    // undefined when a cone response of the white is zero
    ensures r.Some? ==> var n := MatVec(hpe, xyzN); n.x != 0.0 && n.y != 0.0 && n.z != 0.0
    ensures r.Some? ==> 0.0 <= r.value.h < 360.0
    ensures r.Some? && r.value.s.Some? ==> r.value.s.value * r.value.L == r.value.C
  {
    var lmsN := MatVec(hpe, xyzN);
    var cbrtYn := p.pow(yN, 1.0 / 3.0);
    match AdaptationFactors(lmsN, cbrtYn, D)
    case None => None
    case Some(aL) => Some(Correlates(p, ReferenceXyz(aL, hpe, xyz), sigma))
  }

  /** Scaling a stimulus, or adding two, does the same to its reference-space
      tristimulus values; the correlates depend on the stimulus only through
      them. */
  lemma XyzToRlabLinear(p: Primitives, hpe: Matrix3, k: real, u: Triple, v: Triple,
                        xyzN: Triple, yN: real, sigma: real, D: real)
    requires AdaptationFactors(MatVec(hpe, xyzN), p.pow(yN, 1.0 / 3.0), D).Some?
    ensures var aL := AdaptationFactors(MatVec(hpe, xyzN), p.pow(yN, 1.0 / 3.0), D).value;
      && XyzToRlab(p, hpe, Scale(k, u), xyzN, yN, sigma, D)
         == Some(Correlates(p, Scale(k, ReferenceXyz(aL, hpe, u)), sigma))
      && XyzToRlab(p, hpe, Add(u, v), xyzN, yN, sigma, D)
         == Some(Correlates(p, Add(ReferenceXyz(aL, hpe, u), ReferenceXyz(aL, hpe, v)), sigma))
  {
    var aL := AdaptationFactors(MatVec(hpe, xyzN), p.pow(yN, 1.0 / 3.0), D).value;
    ReferenceXyzLinear(aL, hpe, k, u, v);
  }

  /** The reference white itself, under complete adaptation or when it is an
      equal-energy white, lands on (1, 1, 1) in the reference space and so has
      no chroma and no hue components. */
  lemma AdaptedWhiteIsAchromatic(p: Primitives, hpe: Matrix3, xyzN: Triple, yN: real,
                                 sigma: real, D: real)
    requires Positive(MatVec(hpe, xyzN)) && 0.0 <= p.pow(yN, 1.0 / 3.0)
    requires D == 1.0 || MatVec(hpe, xyzN).x == MatVec(hpe, xyzN).y == MatVec(hpe, xyzN).z
    requires p.sqrt(0.0) == 0.0
    ensures var r := XyzToRlab(p, hpe, xyzN, xyzN, yN, sigma, D);
      r.Some? && r.value.a == 0.0 && r.value.b == 0.0 && r.value.C == 0.0 && r.value.L == 100.0 * p.pow(1.0, sigma)
  {
    var lmsN := MatVec(hpe, xyzN);
    var cbrtYn := p.pow(yN, 1.0 / 3.0);
    var aL := AdaptationFactors(lmsN, cbrtYn, D).value;
    ReferenceWhiteIsOnes(aL, hpe, xyzN, cbrtYn, D);
    assert XyzToRlab(p, hpe, xyzN, xyzN, yN, sigma, D) == Some(Correlates(p, Ones, sigma));
    NeutralCorrelates(p, sigma);
  }

  /** The correlates of the achromatic point (1, 1, 1) of the reference space. */
  lemma NeutralCorrelates(p: Primitives, sigma: real)
    requires p.sqrt(0.0) == 0.0
    ensures var r := Correlates(p, Ones, sigma);
      r.a == 0.0 && r.b == 0.0 && r.C == 0.0 && r.L == 100.0 * p.pow(1.0, sigma)
  {
  }

  /** Under complete adaptation, or for an equal-energy white, the adapted
      reference white is (1, 1, 1) in the reference space. */
  lemma ReferenceWhiteIsOnes(aL: Triple, hpe: Matrix3, xyzN: Triple, cbrtYn: real, D: real)
    requires AdaptationFactors(MatVec(hpe, xyzN), cbrtYn, D) == Some(aL)
    requires D == 1.0 || MatVec(hpe, xyzN).x == MatVec(hpe, xyzN).y == MatVec(hpe, xyzN).z
    ensures ReferenceXyz(aL, hpe, xyzN) == Ones
  {
    AdaptedWhiteResponses(MatVec(hpe, xyzN), cbrtYn, D);
    RPreservesOnes();
  }
}
