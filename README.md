# Beam load calculator: a verified model of its calculation engine

The beam load calculator finds the internal shear force and bending moment
along a loaded beam and derives the stresses and a safety factor against
yield. It handles a simply supported beam or a cantilever carrying a point
load or a uniform load, on a rectangular section. This project models its
engine, `calculateResults` in `components/beam-load-calculator.tsx`, over
exact real numbers. The engine has two parts.

- **Diagram sampler** (module `Sampler`, with the formulas in `Mechanics`).
  It evaluates one closed-form, piecewise shear and moment formula per
  (beam kind, load kind) pair at 101 equally spaced positions `x_i = i·L/100`
  over the analysed span. `L` is `rightSupport − leftSupport` for a simple
  beam and `beamLength` for a cantilever. The sampler keeps running maxima
  of |shear| and |moment|. `SampleDiagram` is the loop. It is proved to
  emit exactly the grid samples, with maxima that bound every sample and
  equal one of them, or 0.
- **Section and safety evaluator** (module `SectionCheck`). From the two
  peaks and a `width × height` section it computes the area, the second
  moment of area, the extreme-fibre bending stress, the 1.5·V/A shear
  stress and the safety factor `yieldStrength / bending stress`.

`Mechanics` also states the formulas against an independent free-body
reference: the load applied left of a section and its moment about the
section. `Statics` proves the laws the formulas obey:
- the reactions balance the load;
- the moment vanishes at the supports and at a cantilever's free end;
- shear and moment are continuous at the edges of a uniform load, and the
  shear drops by exactly a point load under it;
- the point-load peaks, and the peaks of a uniform load on a cantilever
  (for loads of either sign),
  lie where the mechanics puts them (no lemma locates the peak moment of a
  uniform load on a simple beam);
- within each branch, the moment changes by exactly the trapezoidal
  integral of the shear.

`Calculator.CalculateResults` chains the two parts as the source does.
`BeamInput` holds the inputs and the material's yield strength. `Wrappers`
holds `Option` and `Result`.

Behaviour at the edges, as the code has it:
- **Zero span.** `L == 0` makes the source's loop step by `L/100 = 0`
  forever. The model returns `Failure(NonTerminatingLoop)`.
- **Negative span.** `L < 0` runs the loop zero times. The diagram is empty
  and both maxima are 0. On a section of nonzero width and height the
  bending stress is then 0 and the safety factor is undefined; on a section
  with a zero side the bending stress is undefined too (the source computes
  0/0).
- **Zero-length uniform load.** This divides by zero. In the source every
  sample that uses the load intensity becomes not-a-number. That is every
  sample on a simple beam. On a cantilever it is every sample at or left of
  `loadStart`, and grid point 0 is one of them unless `loadStart < 0`. The
  model returns `Failure(InvalidLoadGeometry)` exactly when some grid
  position would need the intensity (`Sampler.SamplableIffDefinedOnGrid`).
  A cantilever whose zero-length load starts left of the fixed end gets the
  all-zero diagram the source produces.
- **Zero divisors in the section evaluator.** A zero width or height gives
  a zero area and inertia, and a zero bending stress gives a zero divisor
  for the safety factor. Each quantity with a zero divisor is `None`.

Facts about the code that the model keeps:
- **Support offset.** The simple-beam uniform-load branch compares the
  absolute `loadStartPosition`/`loadEndPosition` with the support-relative
  `x` and never subtracts `leftSupport`. The point-load branch does subtract
  it. `Statics.SimplePointFollowsSupports` and
  `Statics.SimpleUniformIgnoresSupportOffset` state the difference. With
  `leftSupport == 0` the two readings agree.
- **Sign convention.** Simple-beam moments satisfy `dM/dx = V`. Cantilever
  moments are reported as positive magnitudes measured toward the free end,
  so `dM/dx = −V` there (`Statics.Orientation`).

## Model

| member | source | states |
|---|---|---|
| `BeamInput.IntensityTimesLength` | components/beam-load-calculator.tsx:101-102 | the load per unit length times the load length gives back the total load magnitude |
| `BeamInput.YieldStrength` | components/beam-load-calculator.tsx:13-42 | a custom material yields at the user's value; every catalogued steel grade yields between 250 and 345 MPa |
| `Mechanics.ReactionShares` | components/beam-load-calculator.tsx:79-84 | each reaction balances the moments about the other support (reactionA·L = P·b, reactionB·L = P·a), and a non-negative load between the supports puts between 0 and P on each |
| `Mechanics.ShearBalance` | components/beam-load-calculator.tsx:77-152 | in all four cases the shear at x is the left reaction (the whole load at a cantilever's fixed end) less the part of the load applied left of x |
| `Mechanics.MomentBalance` | components/beam-load-calculator.tsx:77-152 | in all four cases the moment at x balances the loads: for a simple beam, left reaction·x less the moment about x of the load left of x; for a cantilever, the whole load's moment about x plus that of the part left of x |
| `Statics.SimplePointEquilibrium` | components/beam-load-calculator.tsx:79-84 | reactionA + reactionB equals the load, because a + b equals the span |
| `Statics.SimplePointSupportMoments` | components/beam-load-calculator.tsx:79-91 | for a nonzero load, the moment at x = 0 is zero iff 0 ≤ a, and the moment at x = L is zero iff a ≤ L |
| `Statics.SimplePointShearDrop` | components/beam-load-calculator.tsx:83-91 | shear is reactionA up to the load and −reactionB beyond it, so it drops by exactly the load there; the moment is continuous at the load point |
| `Statics.SimplePointPeak` | components/beam-load-calculator.tsx:79-91 | for a load of either sign on the span, M(a) = P·a·b/L, no position on the span has a larger moment magnitude, and no shear magnitude exceeds the larger reaction magnitude; for a non-negative load, 0 ≤ M(x) ≤ M(a) |
| `Statics.SimpleUniformEquilibrium` | components/beam-load-calculator.tsx:100-116 | the two reactions of a uniform load sum to its magnitude, so the before-zone shear minus the after-zone shear equals the load |
| `Statics.SimpleUniformContinuity` | components/beam-load-calculator.tsx:108-116 | the in-zone shear and moment meet the before-zone values at loadStart and the after-zone values at loadEnd |
| `Statics.SimpleUniformSupportMoments` | components/beam-load-calculator.tsx:100-116 | with 0 ≤ loadStart < loadEnd ≤ L the moment is zero at both supports |
| `Statics.CantileverPointPeak` | components/beam-load-calculator.tsx:127-131 | shear at the fixed end is the load and the moment there is load·loadStart; no position from the fixed end onward has a larger shear or moment magnitude |
| `Statics.CantileverUniformPeak` | components/beam-load-calculator.tsx:139-152 | for a uniform load of either sign with 0 ≤ loadStart < loadEnd, the fixed end carries shear P and moment P·centroid, and no position from the fixed end on has a larger shear or moment magnitude; for a non-negative load every shear and moment lies between 0 and those values |
| `Statics.CantileverUniformContinuity` | components/beam-load-calculator.tsx:139-152 | up to loadStart the shear equals the load (w·loadLength); at loadStart the inboard and in-zone shear and moment formulas agree, the moment being w·loadLength²/2; at loadEnd the in-zone shear and moment reach the zero carried beyond the load |
| `Statics.CantileverBeyondLoad` | components/beam-load-calculator.tsx:128-152 | past the far edge of the load a cantilever carries exactly zero shear and zero moment |
| `Statics.CantileverFreeEndMoment` | components/beam-load-calculator.tsx:128-152 | with the load on the beam, the moment at the free end x = beamLength is zero |
| `Statics.MomentIntegratesShear` | components/beam-load-calculator.tsx:86-152 | for all four cases, between two positions in the same branch, the moment change equals the trapezoidal integral of the shear (negated for cantilevers) |
| `Statics.SimplePointFollowsSupports` | components/beam-load-calculator.tsx:79-91 | moving both supports and the point load by the same distance leaves the point-load diagram unchanged |
| `Statics.SimpleUniformIgnoresSupportOffset` | components/beam-load-calculator.tsx:100-116 | moving only the supports leaves the uniform-load diagram unchanged: its load positions are read from the left support |
| `Sampler.Samplable` | components/beam-load-calculator.tsx:81-152 | a samplable configuration has every one of the 101 grid samples defined; a positive span that is not samplable already divides by zero at the first sample x = 0 |
| `Sampler.GridPoint` | components/beam-load-calculator.tsx:86 | for L ≥ 0 every one of the 101 grid positions lies in [0, L] |
| `Sampler.SampleDiagram` | components/beam-load-calculator.tsx:72-161 | zero span: non-terminating loop; negative span: empty series with zero maxima; invalid load geometry when a sample would divide by zero; otherwise exactly the 101 grid samples of shear and moment, with maxima that are the running peaks of their magnitudes |
| `Sampler.PeakStep` | components/beam-load-calculator.tsx:96-97 | one Math.max(max, abs(v)) step turns the peak of a list into the peak of the list extended by v |
| `Sampler.GridSpacing` | components/beam-load-calculator.tsx:86 | the grid starts at 0, ends at L, consecutive points are L/100 apart, and positions never decrease |
| `Sampler.SamplableIffDefinedOnGrid` | components/beam-load-calculator.tsx:100-152 | for a positive span the model samples without error iff every grid position avoids the zero divisor |
| `Sampler.DiagramPositions` | components/beam-load-calculator.tsx:93-94 | both series hold 101 samples at the same positions, rising from 0 to the span |
| `Sampler.PeakUnique` | components/beam-load-calculator.tsx:74-75 | the peak of a list of samples is unique, so the peak contract determines the reported maxima |
| `Sampler.PeakAtDominantSample` | components/beam-load-calculator.tsx:96-97 | when one sample's magnitude dominates all others, the reported maximum is that magnitude |
| `Sampler.SimplePointMidspanScenario` | components/beam-load-calculator.tsx:77-98 | 1000 N at the middle of a 1000 mm simple span: reactions of 500 N, peak shear 500 N, peak moment 250000 N·mm |
| `Sampler.CantileverEndLoadScenario` | components/beam-load-calculator.tsx:127-137 | 1000 N at the free end of a 1000 mm cantilever: peak shear 1000 N, peak moment 1000000 N·mm |
| `SectionCheck.Area` | components/beam-load-calculator.tsx:167 | the area is zero exactly when the width or the height is zero |
| `SectionCheck.MomentOfInertia` | components/beam-load-calculator.tsx:168 | I = width·height³/12 is zero exactly when the width or the height is, and positive for a real section |
| `SectionCheck.NormalStress` | components/beam-load-calculator.tsx:169 | the bending stress is defined iff I ≠ 0 and then equals 6·M/(width·height²) |
| `SectionCheck.BendingStressClosedForm` | components/beam-load-calculator.tsx:168-169 | M·(h/2)/(w·h³/12) = 6·M/(w·h²) |
| `SectionCheck.ShearStress` | components/beam-load-calculator.tsx:170 | the shear stress is defined iff the area is nonzero and then times the area gives 1.5·V |
| `SectionCheck.SafetyFactor` | components/beam-load-calculator.tsx:177 | the safety factor is defined iff the bending stress is defined and nonzero, and then times that stress gives the yield strength |
| `SectionCheck.Evaluate` | components/beam-load-calculator.tsx:166-178 | the peaks pass through unchanged; the bending and shear stresses are defined exactly when width and height are nonzero, with stress·w·h² = 6·M and shear stress·w·h = 1.5·V; the safety factor is defined exactly when, in addition, the moment is nonzero, with safety factor·6·M = yield·w·h² |
| `SectionCheck.SafetyBelowOneIffYielding` | components/beam-load-calculator.tsx:177 | for a positive bending stress, a safety factor below 1 means exactly that the stress exceeds the yield strength |
| `SectionCheck.StressesNonNegative` | components/beam-load-calculator.tsx:167-177 | non-negative peaks on a section of positive width and height give defined, non-negative stresses, and a positive safety factor for a positive moment and yield strength |
| `SectionCheck.SectionScenario` | components/beam-load-calculator.tsx:167-177 | 100 × 200 mm with 500 N and 250000 N·mm: I = 200000000/3 mm⁴, bending stress 0.375 MPa, shear stress 0.0375 MPa, safety factor 2000/3 at 250 MPa |
| `Calculator.CalculateResults` | components/beam-load-calculator.tsx:71-179 | the sampler's outcome, and on success the evaluator applied to its two maxima with the selected material's yield strength; a negative span gives an empty diagram and no safety factor; a real section gives defined, non-negative stresses |

## Left out

- React state and effects: the `useState`/`useEffect` wiring and the `set*` calls. The model returns the series and results as values.
- The SVG beam diagram, the forms, the charts and the results table. These are presentation only.
- `Number(v.toFixed(2))` rounding of every reported value. It is decimal formatting of floating-point numbers; the model keeps exact reals.
- Floating-point accumulation of the loop variable `x += L/100`. Depending on rounding this can visit 100 or 101 points; the model uses the exact grid `i·L/100`, `i = 0..100`.
- Sampler.SampleDiagram: the source's endless loop at a zero span is reported as `Failure(NonTerminatingLoop)`. The not-a-number samples of a zero-length uniform load are reported as `Failure(InvalidLoadGeometry)` rather than computed.
- SectionCheck.SafetyFactor: with a zero width, a nonzero height and a nonzero moment the source's bending stress is infinite and `yieldStrength / Infinity` reports 0. The model reports every non-finite stress, and the safety factor derived from it, as `None`.
- Mechanics.ShearBalance, Mechanics.MomentBalance: stated for point loads and for uniform loads laid out with loadStart ≤ loadEnd. With the ends reversed, the simple-beam branch at x = loadStart already reports the shear right of the load, so no single free-body reading fits.
- Beam and load types are modelled as datatypes. A type string other than the two the form offers would leave the source with an empty diagram; the form cannot produce one.
- The material table's elastic modulus, density, Poisson's ratio and thermal expansion. They are display data; only the yield strength enters the calculation.
