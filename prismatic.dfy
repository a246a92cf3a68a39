/** The Prismatic colour space of Shirley & Hart (2015): a colour is written as
    its lightness L, the largest of its R, G, B channels, together with its
    chromatic coordinates, the channels divided by their sum. */
module Prismatic {
  import opened Vectors

  /** A Prismatic colour: lightness `L` and chromatic coordinates `r, g, b`. */
  datatype Lrgb = Lrgb(L: real, r: real, g: real, b: real)

  function Max3(x: real, y: real, z: real): (m: real)
    ensures x <= m && y <= m && z <= m
    ensures m == x || m == y || m == z
  {
    if y <= x && z <= x then x else if z <= y then y else z
  }

  /** `np.max` along the channel axis. */
  function MaxChannel(v: Triple): real { Max3(v.x, v.y, v.z) }

  /** The chromatic part `Lrgb[..., 1:]`. */
  function Chromatic(p: Lrgb): Triple { Triple(p.r, p.g, p.b) }

  /** The largest finite IEEE 754 binary64 value, 2^1024 - 2^971, which
      `np.nan_to_num` puts in place of positive infinity. */
  const LargestFloat: real :=
    179769313486231570814527423731704356798070567525844996598917476803157260780028538760589558632766878171540458953514382464234321326889464182768467546703537516986049910576551282076245490090389328944075868508455133942304583236903222948165808559332123348274797826204144723168738177180919299881250404026184124858368.0

  /** `np.nan_to_num(1 / S)`. A zero sum makes NumPy's reciprocal +inf (the sum
      is -0.0 only when every channel is -0.0, and then the product with the
      channels is zero whatever the factor), which the guard replaces by the
      largest float. */
  function GuardedReciprocal(S: real): (s: real)
    ensures S != 0.0 ==> s * S == 1.0
    ensures 0.0 < S ==> 0.0 < s
    ensures S == 0.0 ==> s == LargestFloat
  {
    if S == 0.0 then LargestFloat else 1.0 / S
  }

  /** RGB_to_Prismatic for one colour. */
  function RgbToPrismatic(c: Triple): (p: Lrgb)
    // L is the largest channel
    ensures c.x <= p.L && c.y <= p.L && c.z <= p.L
    ensures p.L == c.x || p.L == c.y || p.L == c.z
    // zero in, zero out: the guard leaves no NaN or infinity
    ensures c == Zero ==> p == Lrgb(0.0, 0.0, 0.0, 0.0)
    ensures NonNegative(c) && Sum(c) == 0.0 ==> p == Lrgb(0.0, 0.0, 0.0, 0.0)
  {
    var s := GuardedReciprocal(Sum(c));
    Lrgb(MaxChannel(c), s * c.x, s * c.y, s * c.z)
  }

  /** Away from a zero sum, the chromatic coordinates are the channels divided
      by their sum, and so they sum to one. */
  lemma ChromaticCoordinates(c: Triple)
    requires Sum(c) != 0.0
    ensures var p := RgbToPrismatic(c);
      p.r * Sum(c) == c.x && p.g * Sum(c) == c.y && p.b * Sum(c) == c.z && p.r + p.g + p.b == 1.0
  {
    NormalisedBySum(GuardedReciprocal(Sum(c)), c);
  }

  /** Non-negative colours have non-negative Prismatic coordinates. */
  lemma NonNegativeCoordinates(c: Triple)
    requires NonNegative(c)
    ensures var p := RgbToPrismatic(c); 0.0 <= p.L && NonNegative(Chromatic(p))
  {
    var s := GuardedReciprocal(Sum(c));
    assert 0.0 <= s;
    assert 0.0 <= s * c.x && 0.0 <= s * c.y && 0.0 <= s * c.z;
  }

  /** Multiplying a colour by the reciprocal of its channel sum. */
  lemma NormalisedBySum(s: real, c: Triple)
    requires s * Sum(c) == 1.0
    ensures (s * c.x) * Sum(c) == c.x && (s * c.y) * Sum(c) == c.y && (s * c.z) * Sum(c) == c.z
    ensures s * c.x + s * c.y + s * c.z == 1.0
  {
    var S := Sum(c);
    assert (s * c.x) * S == (s * S) * c.x;
    assert (s * c.y) * S == (s * S) * c.y;
    assert (s * c.z) * S == (s * S) * c.z;
    assert s * c.x + s * c.y + s * c.z == s * S;
  }

  /** The inputs on which Prismatic_to_RGB is determined over the reals. When
      the largest chromatic coordinate is zero and L is not, the source divides
      L by zero and the sign of that zero (which reals do not carry) decides
      whether a negative coordinate becomes plus or minus the largest float.
      With every coordinate zero each product is NaN, and with L zero the
      factor 0/0 is NaN whatever the sign; the guard turns NaN into zero. */
  predicate Determined(p: Lrgb) {
    MaxChannel(Chromatic(p)) == 0.0 ==> Chromatic(p) == Zero || p.L == 0.0
  }

  /** Prismatic_to_RGB for one colour. */
  function PrismaticToRgb(p: Lrgb): (c: Triple)
    requires Determined(p)
    // one factor scales every coordinate
    ensures exists k :: c == Scale(k, Chromatic(p))
    // for a non-negative lightness and a positive largest coordinate, that factor
    // is non-negative, so with the next clause it is L / max(r, g, b)
    ensures 0.0 <= p.L && 0.0 < MaxChannel(Chromatic(p)) ==>
      exists k :: 0.0 <= k && c == Scale(k, Chromatic(p))
    // the largest channel of the result is the lightness
    ensures 0.0 <= p.L && 0.0 < MaxChannel(Chromatic(p)) ==> MaxChannel(c) == p.L
    // zero coordinates give black, not NaN
    ensures Chromatic(p) == Zero ==> c == Zero
    // zero lightness gives black
    ensures p.L == 0.0 ==> c == Zero
  {
    var m := MaxChannel(Chromatic(p));
    var k := if m == 0.0 then 0.0 else p.L / m;
    var c := Scale(k, Chromatic(p));
    assert 0.0 <= p.L && 0.0 < m ==> MaxChannel(c) == p.L by {
      if 0.0 <= p.L && 0.0 < m {
        ScaleMax(k, Chromatic(p));
        assert k * m == p.L;
      }
    }
    c
  }

  /** With a positive largest coordinate, the factor is L / max(r, g, b). */
  lemma PositiveFactor(p: Lrgb)
    requires 0.0 < MaxChannel(Chromatic(p))
    ensures PrismaticToRgb(p) == Scale(p.L / MaxChannel(Chromatic(p)), Chromatic(p))
  {
  }

  /** The common factor that Prismatic_to_RGB applies. */
  lemma FactorOf(p: Lrgb) returns (k: real)
    requires Determined(p)
    ensures PrismaticToRgb(p) == Scale(k, Chromatic(p))
  {
    k :| PrismaticToRgb(p) == Scale(k, Chromatic(p));
  }

  /** Prismatic_to_RGB keeps the ratios between the chromatic coordinates. */
  lemma RatiosPreserved(p: Lrgb)
    requires Determined(p)
    ensures var c := PrismaticToRgb(p);
      c.x * p.g == c.y * p.r && c.y * p.b == c.z * p.g && c.x * p.b == c.z * p.r
  {
    var k := FactorOf(p);
    ScaledCrossProducts(k, Chromatic(p));
  }

  /** A multiple of a vector has the same ratios between its entries. */
  lemma ScaledCrossProducts(k: real, v: Triple)
    ensures var c := Scale(k, v); c.x * v.y == c.y * v.x && c.y * v.z == c.z * v.y && c.x * v.z == c.z * v.x
  {
    assert (k * v.x) * v.y == (k * v.y) * v.x;
    assert (k * v.y) * v.z == (k * v.z) * v.y;
    assert (k * v.x) * v.z == (k * v.z) * v.x;
  }

  /** Scaling by a non-negative factor scales the largest channel. */
  lemma ScaleMax(k: real, v: Triple)
    requires 0.0 <= k
    ensures MaxChannel(Scale(k, v)) == k * MaxChannel(v)
  {
    var m := MaxChannel(v);
    assert k * v.x <= k * m && k * v.y <= k * m && k * v.z <= k * m;
  }

  lemma PositiveProduct(a: real, b: real)
    requires 0.0 < a && 0.0 < b
    ensures 0.0 < a * b
  {
  }

  lemma Quotient(a: real, b: real)
    requires b != 0.0
    ensures (a / b) * b == a
  {
  }

  /** A factor that takes the image m = s * M of a positive M back to M is the
      reciprocal of s. */
  lemma UndoScaling(k: real, s: real, M: real, m: real)
    requires 0.0 < M && m == s * M && k * m == M
    ensures k * s == 1.0
  {
    assert (k * s) * M == k * m;
    Cancel(k * s, 1.0, M);
  }

  /** Scaling by a factor and then by its reciprocal changes nothing. */
  lemma ScaleInverse(k: real, s: real, v: Triple)
    requires k * s == 1.0
    ensures Scale(k, Scale(s, v)) == v
  {
    assert k * (s * v.x) == (k * s) * v.x;
    assert k * (s * v.y) == (k * s) * v.y;
    assert k * (s * v.z) == (k * s) * v.z;
  }

  /** Converting a colour whose channels have a positive sum (every
      non-negative, non-black colour, and mixed-sign ones too) to Prismatic and
      back gives the colour itself. */
  lemma RoundTrip(c: Triple)
    requires 0.0 < Sum(c)
    ensures Determined(RgbToPrismatic(c)) && PrismaticToRgb(RgbToPrismatic(c)) == c
  {
    var M := MaxChannel(c);
    assert 0.0 < M;
    var s := GuardedReciprocal(Sum(c));
    assert 0.0 < s;
    var p := RgbToPrismatic(c);
    assert p.L == M && Chromatic(p) == Scale(s, c);
    ScaleMax(s, c);
    PositiveProduct(s, M);
    var m := MaxChannel(Chromatic(p));
    var k := p.L / m;
    assert m == s * M;
    Quotient(p.L, m);
    UndoScaling(k, s, M, m);
    PositiveFactor(p);
    ScaleInverse(k, s, c);
  }

  /** Converting a Prismatic colour with positive lightness and non-negative
      chromatic coordinates summing to one to RGB and back gives it back. */
  lemma InverseRoundTrip(p: Lrgb)
    requires 0.0 < p.L && NonNegative(Chromatic(p)) && p.r + p.g + p.b == 1.0
    ensures Determined(p) && RgbToPrismatic(PrismaticToRgb(p)) == p
  {
    var v := Chromatic(p);
    var m := MaxChannel(v);
    assert 0.0 < m;
    var k := p.L / m;
    assert 0.0 < k && k * m == p.L;
    var c := PrismaticToRgb(p);
    assert c == Scale(k, v);
    ScaleMax(k, v);
    RescaledCoordinates(k, v);
  }

  /** The chromatic coordinates of a rescaled colour whose channels sum to one
      are its unscaled channels. */
  lemma RescaledCoordinates(k: real, v: Triple)
    requires k != 0.0 && Sum(v) == 1.0
    ensures Chromatic(RgbToPrismatic(Scale(k, v))) == v
  {
    var c := Scale(k, v);
    assert Sum(c) == k by {
      assert Sum(c) == k * Sum(v);
    }
    var s := GuardedReciprocal(k);
    assert s * k == 1.0;
    ScaleInverse(s, k, v);
  }

  /** RGB_to_Prismatic over a batch of colours: NumPy works along the last
      axis, so each colour is converted on its own. */
  function RgbToPrismaticBatch(cs: seq<Triple>): (ps: seq<Lrgb>)
    ensures |ps| == |cs|
    ensures forall i :: 0 <= i < |cs| ==> ps[i] == RgbToPrismatic(cs[i])
  {
    if cs == [] then [] else [RgbToPrismatic(cs[0])] + RgbToPrismaticBatch(cs[1..])
  }

  /** Prismatic_to_RGB over a batch of colours, one colour at a time. */
  function PrismaticToRgbBatch(ps: seq<Lrgb>): (cs: seq<Triple>)
    requires forall i :: 0 <= i < |ps| ==> Determined(ps[i])
    ensures |cs| == |ps|
    ensures forall i :: 0 <= i < |ps| ==> cs[i] == PrismaticToRgb(ps[i])
  {
    if ps == [] then [] else [PrismaticToRgb(ps[0])] + PrismaticToRgbBatch(ps[1..])
  }

  /** The round trip holds for a whole batch of colours with positive sums. */
  lemma {:induction false} BatchRoundTrip(cs: seq<Triple>)
    requires forall i :: 0 <= i < |cs| ==> 0.0 < Sum(cs[i])
    ensures var ps := RgbToPrismaticBatch(cs);
      (forall i :: 0 <= i < |ps| ==> Determined(ps[i])) && PrismaticToRgbBatch(ps) == cs
  {
    var ps := RgbToPrismaticBatch(cs);
    forall i | 0 <= i < |ps| ensures Determined(ps[i]) && PrismaticToRgb(ps[i]) == cs[i] {
      RoundTrip(cs[i]);
    }
  }

  /** A colour with a negative sum does not survive the round trip: the
      coordinates of (1, -2, 0) are (-1, 2, 0), whose largest entry 2 is not
      the image of the lightness 1, so the inverse returns (-0.5, 1, 0). */
  lemma NegativeSumRoundTrip()
    ensures RgbToPrismatic(Triple(1.0, -2.0, 0.0)) == Lrgb(1.0, -1.0, 2.0, 0.0)
    ensures PrismaticToRgb(RgbToPrismatic(Triple(1.0, -2.0, 0.0))) == Triple(-0.5, 1.0, 0.0)
  {
  }

  /** The first docstring example of RGB_to_Prismatic, and the inverse example
      of Prismatic_to_RGB, in exact arithmetic. */
  lemma ConversionExamples()
    ensures RgbToPrismatic(Triple(0.25, 0.50, 0.75)) == Lrgb(0.75, 1.0 / 6.0, 1.0 / 3.0, 0.5)
    ensures var c := PrismaticToRgb(Lrgb(0.75, 0.16666667, 0.33333333, 0.5));
      0.25 <= c.x < 0.2500001 && 0.4999999 <= c.y < 0.5 && c.z == 0.75
  {
  }

  /** The saturation-adjustment docstring example: halving the distance of the
      chromatic coordinates from the grey point 1/3 turns (0.25, 0.5, 0.75)
      into (0.45, 0.6, 0.75). */
  lemma SaturationExample()
    ensures var p := RgbToPrismatic(Triple(0.25, 0.50, 0.75));
      var saturation := 0.5;
      var q := Lrgb(p.L, 1.0 / 3.0 + saturation * (p.r - 1.0 / 3.0),
                         1.0 / 3.0 + saturation * (p.g - 1.0 / 3.0),
                         1.0 / 3.0 + saturation * (p.b - 1.0 / 3.0));
      Determined(q) && PrismaticToRgb(q) == Triple(0.45, 0.6, 0.75)
  {
  }
}
