# Prismatic colour space and RLAB appearance model, in Dafny

This project models two numeric transforms of the `colour` colour-science
library over exact real arithmetic.

- **Prismatic colour space** (Shirley & Hart, 2015), module `Prismatic`.
  `RGB_to_Prismatic` turns an RGB colour into its lightness `L` and its
  chromatic coordinates `(r, g, b)`. `L` is the largest channel. The
  coordinates are the channels divided by their sum. `Prismatic_to_RGB`
  rescales the coordinates by `L / max(r, g, b)`. Both guard their division
  with `np.nan_to_num`. Batched input is converted colour by colour.
- **RLAB colour appearance model** (Fairchild's 1996 refinement), module
  `Rlab`. This is the single-stimulus path of `XYZ_to_RLAB`. It has three stages:
  - chromatic adaptation, computed from the reference white's cone responses
    (`LMS_l_E`, `LMS_p_L`, `LMS_a_L`);
  - projection of the stimulus into the reference space,
    `XYZ_ref = R · diag(LMS_a_L) · HPE · XYZ`;
  - the correlates: lightness, the opponent responses `a` and `b`, hue,
    chroma and saturation.
  The module also holds the constant matrix `R_MATRIX` and the three
  surround presets.

Module `Vectors` holds real triples and 3×3 matrices. Their operations stand
for NumPy's `dot` and `diag`, and for elementwise products. Module `Wrappers`
holds `Option`.

Design choices:

- **Transcendental operations.** Python's `**`, `np.arctan2`, `math.degrees`
  and `np.sqrt` have no exact model. They are fields of the `Rlab.Primitives`
  value, which `XyzToRlab` takes as a parameter. The lemmas assume only what
  they need about them:
  - `sqrt(0) = 0`;
  - or that `sqrt` is the principal square root (`Rlab.IsSquareRoot`).
  
  The cube root `Y_n ** (1/3)` is `pow(Y_n, 1/3)`, and the adaptation
  contracts say which value of it each clause needs:
  - the definedness and positivity clauses of `LuminanceAdapted`,
    `LuminanceAdaptedResponses`, `AdaptationFactors` and `XyzToRlab` need a
    non-negative cube root;
  - the equal-energy fixpoint of `LuminanceAdapted` and
    `LuminanceAdaptedResponses` (`LMS_l_E = 1` gives `LMS_p_L = 1`) needs a
    cube root other than -2;
  - `AdaptedWhiteResponses` and `ReferenceWhiteIsOnes` hold for every cube
    root at which the adaptation factors are defined.
- **Hunt-Pointer-Estévez matrix.** `colour/appearance/hunt.py` is not part of
  this model. Its matrix is the parameter `hpe`. `XYZ_to_rgb` is
  multiplication by `hpe`, the same matrix that line 147 uses.
- **NaN and infinity.** Where the source divides by zero, NumPy yields NaN or
  infinity. The model returns `None`:
  - from the adaptation stage, and so from `XyzToRlab`;
  - in the saturation field `s`, when lightness is zero.
  
  One case stays finite: a zero normalised response makes `1 / LMS_l_E`
  infinite, and `LMS_p_L` is then exactly 0. The model returns `Some(0.0)`
  there, as NumPy does.
- **Zero guard in `RGB_to_Prismatic`.** `np.nan_to_num(1 / 0)` is the largest
  finite double, `2^1024 - 2^971`, not 0. The model uses that value. For
  non-negative input a zero sum means every channel is zero, so the output is
  zero either way. Setting the factor to 0 on a zero sum would give the same
  output there. The model follows the code.
- **Errors.** The code does no domain validation. The model reports the
  non-finite outcomes as `None`. It raises no domain error.

## Model

| member | source | states |
|---|---|---|
| Prismatic.Max3 | colour/models/rgb/prismatic.py:73 | The maximum is at least each channel and is one of them. |
| Prismatic.GuardedReciprocal | colour/models/rgb/prismatic.py:74-76 | A non-zero sum gets its exact reciprocal. A zero sum gets the largest float that `nan_to_num` puts in place of +inf. A positive sum gets a positive factor. |
| Prismatic.RgbToPrismatic | colour/models/rgb/prismatic.py:42-79 | `L` is the largest of R, G, B and equals one of them. All-zero input gives (0, 0, 0, 0). So does any non-negative input with zero sum. |
| Prismatic.ChromaticCoordinates | colour/models/rgb/prismatic.py:74-77 | When the sum S is non-zero, the coordinates are R/S, G/S and B/S. They sum to 1. |
| Prismatic.NonNegativeCoordinates | colour/models/rgb/prismatic.py:73-77 | Non-negative RGB gives a non-negative `L` and non-negative coordinates. |
| Prismatic.PrismaticToRgb | colour/models/rgb/prismatic.py:82-112 | The output is the coordinates times one common factor. When `L >= 0` and `max(r,g,b) > 0`, that factor is non-negative and the largest output channel equals `L`, so the factor is `L / max(r,g,b)`. All-zero coordinates, and zero lightness, give black, not NaN. |
| Prismatic.RatiosPreserved | colour/models/rgb/prismatic.py:106-108 | The ratios between channels are kept: each pair of output and input channels has equal cross products. |
| Prismatic.RoundTrip | colour/models/rgb/prismatic.py:42-112 | For every RGB triple whose channels have a positive sum, `Prismatic_to_RGB(RGB_to_Prismatic(x)) = x`. This covers every non-negative, non-black triple and mixed-sign ones too. |
| Prismatic.NegativeSumRoundTrip | colour/models/rgb/prismatic.py:42-112 | The round trip does not extend to negative sums: (1, -2, 0) converts to (1, -1, 2, 0) and back to (-0.5, 1, 0). |
| Prismatic.InverseRoundTrip | colour/models/rgb/prismatic.py:42-112 | If `L > 0` and the coordinates are non-negative and sum to 1, then `RGB_to_Prismatic(Prismatic_to_RGB(p)) = p`. |
| Prismatic.RgbToPrismaticBatch | colour/models/rgb/prismatic.py:71-79 | A batch gives a result of the same length. Element i is the conversion of colour i. |
| Prismatic.PrismaticToRgbBatch | colour/models/rgb/prismatic.py:104-112 | A batch gives a result of the same length. Element i is the conversion of colour i. |
| Prismatic.BatchRoundTrip | colour/models/rgb/prismatic.py:42-112 | The round trip holds for every batch of colours whose channel sums are positive. |
| Prismatic.ConversionExamples | colour/models/rgb/prismatic.py:59-101 | (0.25, 0.5, 0.75) converts exactly to (0.75, 1/6, 1/3, 0.5). The inverse example lands within the printed digits. |
| Prismatic.SaturationExample | colour/models/rgb/prismatic.py:63-68 | Halving the saturation of (0.25, 0.5, 0.75) gives exactly (0.45, 0.6, 0.75). |
| Rlab.SurroundPresets | colour/appearance/rlab.py:54-57 | The presets are exactly Average, Dim and Dark, equal to 1/2.3, 1/2.9 and 1/3.5. They strictly decrease in that order. |
| Rlab.RPreservesOnes | colour/appearance/rlab.py:49-52 | Each row of R sums to 1, so R maps (1, 1, 1) to itself. |
| Rlab.EqualEnergyNormalised | colour/appearance/rlab.py:137 | `LMS_l_E` is defined exactly when the white's responses have a non-zero sum. A channel is zero exactly when the white's channel is. Positive responses give positive results. |
| Rlab.NormalisedSumIsThree | colour/appearance/rlab.py:137 | When the sum of `LMS_n` is non-zero, `LMS_l_E` sums to exactly 3. |
| Rlab.EqualEnergyWhite | colour/appearance/rlab.py:137 | A white with equal, non-zero responses normalises to (1, 1, 1). |
| Rlab.LuminanceAdapted | colour/appearance/rlab.py:138-139 | A channel whose `LMS_l_E` is 1 has `LMS_p_L = 1` for any cube-root value that keeps the denominator non-zero. A positive `LMS_l_E` with a non-negative cube root gives a defined, positive `LMS_p_L`. |
| Rlab.LuminanceAdaptedResponses | colour/appearance/rlab.py:138-139 | `LMS_p_L` is defined exactly when every channel is, and then holds the channel values. Positive `LMS_l_E` with a non-negative cube root gives positive responses. `LMS_l_E = (1, 1, 1)` gives (1, 1, 1) for every cube root other than -2, and is undefined at -2. |
| Rlab.AdaptationFactor | colour/appearance/rlab.py:140 | The factor is defined exactly when `LMS_n` is non-zero. With D = 1 it is `1/LMS_n`. With D = 0 it is `LMS_p_L/LMS_n`. With `LMS_p_L = 1` it is `1/LMS_n` for every D. |
| Rlab.AdaptationFactors | colour/appearance/rlab.py:136-140 | `LMS_a_L` is defined for every white with positive cone responses and a non-negative cube root. It is undefined when any cone response of the white is zero. |
| Rlab.AdaptedWhiteResponses | colour/appearance/rlab.py:137-140 | With D = 1, or for an equal-energy white at any D, `LMS_a_L · LMS_n = (1, 1, 1)`. |
| Rlab.ProjectionMatrix | colour/appearance/rlab.py:146-147 | The chained product `R · diag(LMS_a_L) · HPE` acts on every vector in three steps: take the cone responses, scale each channel by its factor, then apply R. |
| Rlab.ReferenceXyz | colour/appearance/rlab.py:147 | `XYZ_ref` is the projection matrix applied to XYZ, and so equals those three steps applied to the stimulus. |
| Rlab.ReferenceXyzLinear | colour/appearance/rlab.py:146-147 | `XYZ_ref` is linear in the stimulus. It keeps scalar multiples and sums. |
| Rlab.ReferenceWhiteIsOnes | colour/appearance/rlab.py:134-147 | With D = 1, or for an equal-energy white, the reference white maps to (1, 1, 1) in the reference space. |
| Rlab.Mod360 | colour/appearance/rlab.py:176 | The result of `% 360` lies in [0, 360) and differs from the angle by whole turns. |
| Rlab.Mod360Unique | colour/appearance/rlab.py:176 | That value is unique: any angle in [0, 360) that differs by whole turns is the result. |
| Rlab.Correlates | colour/appearance/rlab.py:162-189 | The hue lies in [0, 360) and is the angle of `arctan2(b, a)` in degrees, wrapped. Saturation is defined exactly when lightness is non-zero, and then `s·L = C`. Equal `X_ref`, `Y_ref`, `Z_ref` give a = b = 0, and C = 0 given `sqrt(0) = 0`. With a true square root, `C >= 0` and `C² = a² + b²`. |
| Rlab.NeutralCorrelates | colour/appearance/rlab.py:162-182 | The achromatic reference point (1, 1, 1) has a = b = 0, C = 0 given `sqrt(0) = 0`, and `L = 100·pow(1, sigma)`. |
| Rlab.ChromaZeroIffNeutral | colour/appearance/rlab.py:170-182 | With a true square root, chroma is zero exactly when a = b = 0. |
| Rlab.XyzToRlab | colour/appearance/rlab.py:130-189 | The result is defined for every white with positive cone responses and a non-negative cube root. It is undefined when a cone response of the white is zero. When defined, the hue lies in [0, 360) and saturation times lightness is chroma. |
| Rlab.XyzToRlabLinear | colour/appearance/rlab.py:133-147 | Scaling or adding stimuli does the same to the reference-space values that feed the correlates. |
| Rlab.AdaptedWhiteIsAchromatic | colour/appearance/rlab.py:134-187 | Take the reference white as the stimulus, with D = 1 or an equal-energy white. Then the model is defined, a = b = 0, C = 0, and `L = 100·pow(1, sigma)`. |

## Left out

- The batched branch of `XYZ_to_RLAB` (colour/appearance/rlab.py:148-160) is not modelled. Line 130 unpacks the flattened input into exactly three numbers. For a (3,) or (3, 1) input `X` is then a scalar. For a (3, n) input with n >= 2 the unpacking itself raises `ValueError`, although the docstring (colour/appearance/rlab.py:93) documents that shape. Numeric input therefore never reaches line 148. Only the single-stimulus path is modelled.
- The cone responses `LMS` of the stimulus (colour/appearance/rlab.py:133) are computed and never used, so they are not modelled.
- Hue composition (the TODO at colour/appearance/rlab.py:177) is not implemented in the source and not invented here.
- Python's `**`, `np.arctan2`, `math.degrees` and `np.sqrt` are uninterpreted parameters. As a result:
  - the numeric docstring example (colour/appearance/rlab.py:122-127) is not reproduced;
  - a NaN that `**` produces for a negative base with a fractional exponent is not modelled;
  - Python's complex result for a negative `Y_n ** (1/3)` is not modelled.
- colour/appearance/hunt.py is not part of this model. The Hunt-Pointer-Estévez matrix and `XYZ_to_rgb` enter only as the matrix parameter `hpe`.
- The case-insensitive lookup of `RLAB_VIEWING_CONDITIONS` (an external mapping utility) is not modelled. The presets are a plain `map` keyed by the exact names.
- Rlab.XyzToRlab: when the adaptation stage divides by zero, the source returns a record whose fields are NaN or infinite. The model returns `None` for the whole record.
- Floating-point rounding and overflow are not modelled: all arithmetic is exact over the reals. In particular the hue bound `h < 360` holds only in exact arithmetic: Python's float `%` rounds a tiny negative angle such as `-1e-20 % 360` to exactly 360.0.
- Prismatic.RgbToPrismatic: does not model overflow. For a non-negative colour whose sum is below about 5.6e-309, the source's reciprocal overflows and the guard clamps it to the largest float, so its coordinates sum to less than 1; the model's sum to exactly 1. For a mixed-sign colour whose channels sum to exactly zero, the largest-float factor is kept, but the source's product with a channel larger than 1 in magnitude overflows to ±inf. The model does not overflow in either case.
- Prismatic.PrismaticToRgb: requires that `max(r, g, b) = 0` only when r = g = b = 0 or L = 0. With L ≠ 0 and a negative coordinate the source divides L by a zero whose sign decides whether that coordinate becomes plus or minus the largest float. Reals carry no sign of zero. With L = 0 the factor 0/0 is NaN whatever the sign, and the guard returns black, as the model does.
- colour/models/rgb/dataset/alexa_wide_gamut.py, colour/models/dataset/ekta_space_ps5.py and colour/recovery/__init__.py are not part of this model. They hold colourspace constant tables built through helpers not shown here, real-exponent transfer functions and import wiring.
