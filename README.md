# Speedometer node: the speed computation

`speedometer` is a dependency-graph node for a 3D animation host. Its one
output, `speed`, is recomputed whenever an input changes. The node samples a
driving input twice: at the current frame and at the frame before it. The
input is either a transform matrix (method 0) or a scalar distance channel
(method 1). It measures how far the input moved between the two samples. It
turns that into metres per second using the scene's working units and frame
rate. Then it scales the result into the display unit chosen by the `unit`
enum: km/h, mph, m/s or f/s.

This project models that evaluation as pure functions:

- `wrappers.dfy` holds `Option` and `Result`.
- `vectors.dfy` (module `Vectors`) holds three-component vectors, their
  difference and their Euclidean length. These stand in for the host's
  vector type.
- `speedometer.dfy` (module `Speedometer`) holds the unit table, the two
  displacement measures, the output formula and `Compute`, one evaluation of
  the `speed` output.
- `speedometer_properties.dfy` (module `SpeedometerProperties`) holds the
  lemmas about them.

Host queries are inputs to the model.
- `NodeInputs` carries the attribute values the evaluation reads, and whether
  each input plug has an upstream source.
- `Scene` carries the current frame and the value of each input plug as a
  function of the frame. That function stands in for the host's sampling in a
  time context.
- `Compute` returns either the value written to the output handle or the
  error the evaluation raises.
  - `SourceUnbound`: the method is neither 0 nor 1, so the source name is never
    assigned.
  - `ZeroDivision`: `working_units` is zero.
  - `UnknownUnit`: the unit index is not a key of the table.

The errors come in the order the code meets them. The division by
`working_units` happens before the unit-table lookup. So a zero divisor is
reported even when the unit index is also bad.

Where the method's own docstring and the code differ, the model follows the
code:
- The docstring (speedometer.py:50-57) speaks of speed as distance over time.
  Line 139 multiplies by the `framerate` input, which is frames per second.
  `FrameDurationForm` proves that dividing by the duration of one frame gives
  the same value whenever the frame rate is not zero.
- The code guards none of its numeric inputs. Of the two numeric constants,
  only a zero `working_units` makes it fail. A negative `working_units` or
  frame rate, or a frame rate of zero, produces a number. So non-negativity of the speed is proved only for
  positive working units and a non-negative frame rate (`SpeedNonNegative`).

## Model

| member | source | states |
|---|---|---|
| `Speedometer.LookupUnit` | speedometer.py:31-36 | the table has a row exactly for the keys 0 to 3; every factor is positive; any other key finds nothing |
| `SpeedometerProperties.UnitTableEntries` | speedometer.py:31-36 | the four rows are km/h 3.6, mph 2.23694, m/s 1.0 and f/s 3.28084 |
| `SpeedometerProperties.UnitFactorsMatchUnitDefinitions` | speedometer.py:31-36 | each factor, times the size of its unit in metres per second (from the kilometre, hour, international mile and international foot), is 1: exactly for km/h and m/s, within 2e-6 for mph and f/s |
| `Speedometer.Compute` | speedometer.py:68-143 | a deactivated node writes 0; a method other than 0 or 1 fails as an unbound source; an undriven selected plug writes 0; it fails on division by zero exactly when it samples and `working_units` is 0; it fails on the unit exactly when it samples, the divisor is non-zero and the unit key is missing; a non-zero speed only comes from sampling; and a sampling evaluation with non-zero `working_units` and a table unit always writes a speed |
| `Speedometer.DistanceDisplacement` | speedometer.py:110-119 | the distance-mode displacement is never negative and is either current minus past or past minus current, i.e. the absolute difference |
| `Speedometer.Translation` | speedometer.py:124 | the slice of the flattened 16-entry matrix from the fourth-last entry up to the last is entries 12, 13 and 14 |
| `Speedometer.MatrixDisplacement` | speedometer.py:121-136 | the matrix-mode displacement is never negative, and its square is the squared distance between the past and current translations |
| `Vectors.Length` | speedometer.py:136 | the vector length is never negative and squares to the sum of the squared components |
| `Vectors.LengthPositive` | speedometer.py:136 | the length is positive exactly for a non-zero vector |
| `Speedometer.MetresPerSecond` | speedometer.py:139 | displacement over working units times the frame rate, as the value that times `working_units` gives displacement times frame rate |
| `Speedometer.SpeedFromDisplacement` | speedometer.py:139 | zero working units is a division error; otherwise a missing unit key is a lookup error, not a clamp; otherwise the speed times `working_units` equals displacement times frame rate times the unit's factor |
| `SpeedometerProperties.SpeedInUnit` | speedometer.py:139 | the speed in a table unit is the metres-per-second value times that unit's factor |
| `SpeedometerProperties.UnitRatios` | speedometer.py:139 | for the same displacement, m/s is the bare formula, and mph and f/s relate to km/h in the ratios of their factors |
| `SpeedometerProperties.FrameDurationForm` | speedometer.py:139 | multiplying by frames per second equals dividing by the duration of one frame |
| `SpeedometerProperties.SpeedNonNegative` | speedometer.py:116-139 | with positive working units and a non-negative frame rate, no evaluation writes a negative speed |
| `SpeedometerProperties.DistanceDisplacementSymmetric` | speedometer.py:116-119 | exchanging the two distance samples leaves the displacement unchanged |
| `SpeedometerProperties.DistanceDisplacementZero` | speedometer.py:116-119 | the distance displacement is zero exactly when the two samples are equal |
| `SpeedometerProperties.MatrixDisplacementSymmetric` | speedometer.py:133-136 | exchanging the two matrix samples leaves the displacement unchanged |
| `SpeedometerProperties.MatrixDisplacementZero` | speedometer.py:133-136 | the matrix displacement is zero exactly when the two translations are equal |
| `SpeedometerProperties.MatrixDisplacementShiftInvariant` | speedometer.py:123-136 | moving both matrices by the same vector leaves the displacement unchanged |
| `SpeedometerProperties.MatrixDisplacementPythagorean` | speedometer.py:133-136 | moving from translation (3, 4, 0) to the origin is a displacement of exactly 5 |
| `SpeedometerProperties.SampledIffSelectedPlugDriven` | speedometer.py:68-91 | the condition under which `Compute` samples (`Sampled` in its contract) holds exactly when the node is active and either method 0 has a driven matrix plug or method 1 has a driven distance plug |
| `SpeedometerProperties.UnselectedPlugIgnored` | speedometer.py:80-91 | whether the plug the method does not select is driven never changes the result |
| `Speedometer.Displacement` | speedometer.py:100-136 | the measured displacement is never negative; in distance mode it is plus or minus the change of the scalar between frame t - 1 and frame t; in matrix mode its square is the squared distance between the translations at those two frames |
| `SpeedometerProperties.ShortCircuitReadsNoSamples` | speedometer.py:68-91 | if the node is deactivated, the method is unknown or the selected plug is undriven, the result does not depend on the scene at all, and is 0 or the unbound-source error |
| `SpeedometerProperties.SamplesOnlyCurrentAndPreviousFrame` | speedometer.py:100-108 | two scenes that agree at the current frame and at the current frame minus 1 give the same result |
| `SpeedometerProperties.DistanceModeSpeed` | speedometer.py:107-139 | in distance mode, a non-zero `working_units` and a table unit always give a speed, and speed times working units is the distance displacement between the samples at frame t and t - 1, times frame rate and factor |
| `SpeedometerProperties.MatrixModeSpeed` | speedometer.py:107-139 | in matrix mode, a non-zero `working_units` and a table unit always give a speed, and speed times working units is the matrix displacement between the samples at frame t and t - 1, times frame rate and factor |
| `SpeedometerProperties.SwappedSamplesSameSpeed` | speedometer.py:110-136 | a scene whose current and previous samples are exchanged gives the same result |
| `SpeedometerProperties.TranslatedSceneSameSpeed` | speedometer.py:121-136 | moving the driving transform by a constant vector at both frames gives the same result |
| `SpeedometerProperties.StationarySpeedZero` | speedometer.py:110-139 | if the input the method selects did not move between the two frames, every unit writes 0 or fails, whatever the other input does |
| `SpeedometerProperties.DistanceModeExample` | speedometer.py:110-139 | distance 10 at frame 5 and 4 at frame 4, one unit per metre, 24 frames per second: 144 m/s and 518.4 km/h |
| `SpeedometerProperties.MatrixModeExample` | speedometer.py:121-139 | translation (3, 4, 0) at frame 1 and the origin at frame 2, one frame per second: 5 m/s |

## Left out

- The branch for plugs other than `speed` (speedometer.py:44-46) and the
  `setClean` calls. They are dependency-graph bookkeeping with no value
  written.
- `postConstructor` (speedometer.py:149-197). It derives the frame rate and
  the working units from the host's time and distance settings, connects the
  global time node and locks plugs. The two constants are inputs here.
- `initialize` (speedometer.py:207-303). It declares attributes and their
  dirty propagation. This is schema metadata, with no behaviour to verify.
- Plugin registration and deregistration (speedometer.py:308-333) and the
  scene bootstrap under `__main__` (speedometer.py:336-351). These are host
  commands and file I/O.
- Host calls are represented by their results. The time-context sampling is
  `Scene.matrixAt` and `Scene.distanceAt`. The current-time query is
  `Scene.currentFrame`. Whether a plug has a source is a boolean per plug,
  standing for a non-empty source name.
- Floating point. All arithmetic is exact `real` arithmetic. That covers the
  single-precision matrix entries, the double-precision distance and the
  rounding of the square root.
- `Vectors.Length`: the verifier cannot construct the square root of an
  arbitrary non-negative real. So `len * len == SqNorm(v)` is stated only
  under the hypothesis that such a root exists (`HasRoot`). Over the real
  numbers it always does. Non-negativity, zero-ness and symmetry hold
  without the hypothesis. The 3-4-5 example proves its root directly.
- `Speedometer.MatrixDisplacement`: carries the same hypothesis on its
  squared-distance clause, for the same reason.
- `Speedometer.Displacement`: its matrix-mode clause carries the same
  hypothesis, for the same reason.
