# neuron-growth-calibration, modelled in Dafny

This project models the core of a calibration pipeline for a neuron-growth simulator. The
pipeline has four parts:

- **Feature extraction** (`extract_features.py`). A reconstructed neuron becomes a feature
  record: total neurite length, bifurcation and tip counts, maximum tree depth, maximum radial
  extent, and a Sholl curve. The Sholl curve counts, for each of a series of concentric
  spheres around the soma, how many segments cross it.
- **Loss** (`loss.py`). A candidate record is scored against a target record. The score is the
  sum of the squared, scaled scalar differences, plus the squared, scaled RMS difference
  between the two Sholl curves. Before that difference is taken, the candidate curve is
  resampled onto the target radii with `np.interp(..., left=0, right=0)`.
- **Simulator front end** (`simulate.py`). A three-way dispatch chooses between the external
  binary, the closed-form mock simulator, and `FileNotFoundError`.
- **Optimiser bookkeeping.** This covers the bounded sampling and best-so-far loop of the random
  search (`optimize.py`), the clamp and parameter maps of the CMA-ES driver
  (`cma_optimize.py`), and the search space, seed-averaged objective and ordered report of the
  Bayesian driver (`bo_optimize.py`).

Floating-point numbers are modelled as `real`.

The modules:

- **Results** holds `Option` and `Result`.
- **Reals** holds sums, means and extrema, with their lemmas.
- **Features** holds the feature record and its dictionary form, where a key may be absent.
- **ParamMaps** models insertion-ordered Python dictionaries from names to floats.
- **Morphology** models the section tree, the pruning section collection and the tree
  statistics walk.
- **Sholl** holds the radii, the crossing rule and the counting.
- **Extract** models `extract_features`.
- **Resample** models `np.interp`.
- **Loss** models `loss_from_features`.
- **Simulate** models `simulate_once` and the mock.
- **RandomSearch**, **CmaBox** and **Bayesian** model the three optimiser drivers.

Several inputs are turned into parameters:

- The target record that `loss.py` reads at import is an explicit argument.
- Each section carries the distance of each of its points to the soma centre, and the length of
  each of its segments. No coordinates and no Euclidean norms appear.
- `math.exp` and the external simulator are function arguments.
- `random.random()` draws are a sequence of reals.
- Whether the simulator binary exists is a boolean.

## Model

| member | source | states |
|---|---|---|
| Morphology.SegmentLengths | extract_features.py:15-18 | a section with fewer than two points has no segment lengths; otherwise there is one length per consecutive point pair, each non-negative |
| Morphology.CollectSections | extract_features.py:20-34 | the explicit-stack walk returns exactly the pruned pre-order `CollectRoots`: a dropped root is skipped, and popped sections are emitted with their children pushed |
| Morphology.CollectRootsIsKept | extract_features.py:20-34 | as a multiset, the collected sections are exactly the kept sections reachable from a kept root without passing through a dropped section, so each such section appears once |
| Morphology.Keep | extract_features.py:21-22 | `keep`: a section is dropped exactly when `dendrites_only` is set and it is an axon; no contract of its own |
| Morphology.WalkKept | extract_features.py:27-33 | the inner stack loop for one kept root appends exactly that root's pruned pre-order `Collect(root)` to the sections found so far |
| Morphology.CollectRootsNoAxon | extract_features.py:21-31 | with `dendrites_only`, no axon section is ever returned |
| Morphology.CollectStackAllSize | extract_features.py:20-34 | without pruning, the walk returns as many sections as the forest holds |
| Morphology.TreeStatistics | extract_features.py:74-92 | `n_tips` is the number of sections without children and `n_bifurcations` the number with at least two; `max_depth` is the greatest edge depth below a root; the segment lengths are those of every section; the walk covers all root sections, axons included |
| Morphology.WalkRoot | extract_features.py:76-89 | the stack walk of one root adds that root's leaves, branch points and segment lengths to the running totals and raises the depth to the root's height |
| Morphology.AllSectionsCount | extract_features.py:76-89 | the statistics walk visits as many sections as the forest holds |
| Sholl.MaxDistance | extract_features.py:37-43 | `max_r` is non-negative, bounds every point distance, and equals some point's distance unless it is 0 |
| Sholl.Ceil | extract_features.py:47 | `np.ceil`: the least integer not below its argument |
| Sholl.Arange | extract_features.py:45-48 | `np.arange(start, stop, step)`: element i is start + i·step, every element is below stop, and one more step would reach stop |
| Sholl.Radii | extract_features.py:44-48 | the radii start at `step` and grow by exactly `step`; `max_r <= 0` gives exactly `[step]`; otherwise the last radius is at least `max_r + step/2` |
| Sholl.RadiiDegenerate | extract_features.py:44-45 | `np.arange(step, 2*step, step)` is the single radius `step` |
| Sholl.RadiiCoverExtent | extract_features.py:47-48 | with `max_r > 0`, the last radius reaches `max_r + step/2` |
| Sholl.ArangeIncreasing | extract_features.py:45-48 | the radii are strictly increasing with constant spacing |
| Sholl.Touches | extract_features.py:61-62 | `np.isclose(d, r, atol=EPS)` with numpy's default relative tolerance; no contract of its own, used by Sholl.Crosses |
| Sholl.Crosses | extract_features.py:58-66 | the per-segment rule `sign_change or (touches and not touches_both and opposite)`; no contract of its own, its meaning is stated by Sholl.CrossesIff |
| Sholl.CrossesIff | extract_features.py:58-66 | a segment counts exactly when one endpoint is strictly inside the sphere and the other is not, unless both endpoints are within tolerance and the outer one lies exactly on the sphere |
| Sholl.CrossesSymmetric | extract_features.py:58-66 | swapping the endpoints of a segment does not change whether it counts |
| Sholl.CrossesOnlyBetweenSides | extract_features.py:58-66 | a strict crossing always counts; a segment with both endpoints at or outside the sphere never counts, nor does one with both endpoints strictly inside |
| Sholl.OutwardSegment | extract_features.py:58-66 | a segment from the centre out to length L counts for radius r exactly when r <= L |
| Sholl.CrossingParity | extract_features.py:56-66 | along a polyline with no point within tolerance of the sphere, the number of counted segments is odd exactly when the first and last points lie on opposite sides |
| Sholl.ToleranceBandHidesCrossing | extract_features.py:56-66 | the polyline at distances 0, 9.9999999, 10, 20 crosses the 10 µm sphere from inside to outside, yet no segment counts |
| Sholl.AllInsideNoCrossing | extract_features.py:56-66 | a polyline strictly inside a sphere never counts for it |
| Sholl.SectionCrossings | extract_features.py:51-66 | a section adds at most one per segment to a radius, and nothing when it has fewer than two points |
| Sholl.CurveCount | extract_features.py:50-66 | the count at a radius is at most the total number of segments |
| Sholl.AddHits | extract_features.py:57-66 | one segment raises each radius's count by at most one, and by exactly one when the crossing rule holds for that radius |
| Sholl.AddSection | extract_features.py:53-66 | a section of fewer than two points adds nothing; otherwise each count grows by exactly the number of that section's segments crossing its radius |
| Sholl.ShollCurve | extract_features.py:36-67 | the curve has the radii of `max_r`, one count per radius, each count equal to the per-radius crossing total and between 0 and the number of segments |
| Sholl.ReversingSectionKeepsCount | extract_features.py:51-66 | reversing the point order of any one section leaves every count unchanged |
| Sholl.ReversedSectionCrossings | extract_features.py:56-66 | reversing a polyline keeps its number of counted segments for every radius |
| Sholl.DegenerateStructure | extract_features.py:44-54 | when every distance is 0, the curve is the single radius `step` with count 0 |
| Extract.TotalLength | extract_features.py:91-92 | the total length is 0.0 for no segments and non-negative for non-negative segment lengths |
| Extract.ExtentBelowLastRadius | extract_features.py:94-102 | the reported extent is strictly below the last Sholl radius |
| Extract.ExtractFeatures | extract_features.py:69-114 | the record's tip, bifurcation and depth figures and its total length come from the walk over all sections; its extent and Sholl curve come from the dendrite-only sections; the curve is well formed and its extent lies below the last radius |
| Features.ToDict | extract_features.py:104-114 | the dictionary form holds every scalar key with the record's value, and the curve |
| Resample.Interp | loss.py:39 | the resampled value is 0 strictly left of the first and strictly right of the last candidate radius |
| Resample.BracketFinds | loss.py:39 | the interval search started at or before the bracketing interval finds it |
| Resample.InterpBetween | loss.py:39 | inside the domain the value is the linear interpolation between the two bracketing points |
| Resample.InterpAtKnot | loss.py:39 | at a candidate radius the value is that radius's count |
| Resample.InterpBounded | loss.py:39 | between two candidate radii the value lies between their two counts |
| Resample.InterpExample | loss.py:39 | counts [2, 5, 1] at radii [10, 20, 30] give 3.5 at 15, 3.0 at 25, and 0 at 5 and 35 |
| Loss.Scale | loss.py:13-20 | every scale in SCALES is positive |
| Loss.Resampled | loss.py:37-39 | one resampled count per target radius: 0 at a target radius outside the candidate's radii, and the candidate's own count at a target radius that is one of the candidate's radii |
| Loss.KnotsKeepCounts | loss.py:37-39 | resampling a curve at one of its own radii returns that radius's count |
| Loss.SquaredErrors | loss.py:40 | one squared error per target radius, each non-negative and zero exactly where resampled and target counts agree |
| Loss.CurveTerm | loss.py:40-41 | the curve term is non-negative |
| Loss.CurveTermWithoutRoot | loss.py:40-41 | `(sqrt(m)/50)²` equals `m/2500`, so the model needs no square root |
| Loss.Contribution | loss.py:29-33 | a scalar key contributes a non-negative amount, and nothing when the candidate lacks it |
| Loss.CurvePart | loss.py:36-41 | the curve contributes a non-negative amount, and nothing when the candidate has no curve |
| Loss.ScalarTermsNonNegative | loss.py:29-33 | every accumulated scalar term is non-negative |
| Loss.Loss | loss.py:22-43 | the loss fails exactly when the candidate curve is empty or has mismatched lengths, with the corresponding error; otherwise it is non-negative |
| Loss.LossDecomposes | loss.py:27-43 | the loss is the sum of the five per-key contributions and the curve term |
| Loss.DroppingKeyRemovesItsTerm | loss.py:31-33 | removing a scalar key from the candidate lowers the loss by exactly that key's contribution |
| Loss.NoCurveNoCurveTerm | loss.py:36-43 | a candidate without a curve always scores, and its loss is the sum of its scalar contributions |
| Loss.KeyTermZeroIff | loss.py:32-33 | a scalar term is zero exactly when the candidate value equals the target value |
| Loss.CurveTermZeroIff | loss.py:36-41 | the curve term is zero exactly when the resampled candidate counts equal the target counts |
| Loss.LossZeroIff | loss.py:27-43 | the loss is zero exactly when every present scalar equals the target and a present curve matches the target counts |
| Loss.LossOfTargetIsZero | loss.py:27-43 | a well-formed target scored against itself gives loss 0 |
| Loss.KeyTermGrows | loss.py:32-33 | a scalar term strictly grows with the absolute deviation from the target |
| Loss.LossGrowsWithDeviation | loss.py:29-43 | with everything else fixed, moving one scalar further from the target strictly raises the loss |
| Simulate.Trunc | simulate.py:59-61 | `int()` of a float truncates toward zero |
| Simulate.ClampedTruncIsFloor | simulate.py:59-61 | under `max(c, int(x))` with c >= 0, truncation and floor agree |
| Simulate.Mock | simulate.py:34-82 | for any dictionary the mock record has length >= 100, extent >= 30, bifurcations >= 1, tips >= 8, depth >= 1, and a well-formed curve on the fixed radii 10..150 |
| Simulate.Read | simulate.py:38-43 | each of the six inputs is the dictionary's value for its name, or its stated default when absent |
| Simulate.BellCount | simulate.py:66-71 | each bell-curve count is non-negative |
| Simulate.Pruned | simulate.py:73 | each pruned count is non-negative |
| Simulate.NoPruningKeepsCounts | simulate.py:73 | with `prune_prob` 0 the pruning pass keeps each count |
| Simulate.PruningNeverRaises | simulate.py:73 | with `prune_prob` in [0, 0.5] the pruning pass never raises a count |
| Simulate.MockCounts | simulate.py:68-73 | 15 non-negative counts, which are the bell counts themselves when `prune_prob` is 0 |
| Simulate.MockRadiiSpacing | simulate.py:65 | the mock radii are 10, 20, …, 150 |
| Simulate.MockOf | simulate.py:54-82 | for any inputs, length >= 100, extent >= 30, bifurcations >= 1, tips >= 8, depth >= 1; radii fixed at 10..150; 15 pruned bell counts; a well-formed curve |
| Simulate.MockDependsOnlyOnNames | simulate.py:34-43 | dictionaries that agree on the six names give the same mock record |
| Simulate.MockIgnoresSeed | simulate.py:34-43 | adding a `seed` entry does not change the mock record |
| Simulate.ReadDefaults | simulate.py:38-43 | a dictionary holding exactly the six stated defaults is read the same as an empty one |
| Simulate.MissingKeysTakeDefaults | simulate.py:38-43 | an empty dictionary gives the record of the stated defaults |
| Simulate.MockScores | simulate.py:75-82 | the mock record has every scalar key and a well-formed curve, so the loss accepts it |
| Simulate.SimulateOnce | simulate.py:6-17 | `FileNotFoundError` exactly when there is no binary and mocking is not allowed; with a binary, the external result; otherwise, the mock record |
| ParamMaps.Lookup | bo_optimize.py:40 | `best[k]` finds a value exactly when k is a key |
| ParamMaps.Get | simulate.py:38-43 | `params.get(k, default)` gives the default exactly when k is absent, and the stored value otherwise |
| ParamMaps.Zip | cma_optimize.py:17 | `dict(zip(names, values))` pairs names and values position by position, and its keys are the names when there are enough values |
| ParamMaps.InsertLookup | bo_optimize.py:28 | after `{**p, k: v}` the key k maps to v and every other key keeps the value it had in p |
| ParamMaps.Insert | bo_optimize.py:28 | `{**p, k: v}` has at most one entry more than p, and an extra entry is k: v at the end; its lookups and key order are stated by ParamMaps.InsertLookup and ParamMaps.InsertKeys |
| ParamMaps.InsertKeys | bo_optimize.py:28 | `{**p, k: v}` keeps the key order of p and appends k only when p does not already hold it |
| ParamMaps.LookupFirst | bo_optimize.py:40 | a lookup finds the first entry carrying the name |
| Reals.MeanBetweenExtremes | bo_optimize.py:31 | `np.mean` of a non-empty list lies between its minimum and maximum |
| Reals.SumNonNegative | extract_features.py:92 | a sum of non-negative values is non-negative |
| RandomSearch.BoundsWellFormed | optimize.py:7-14 | BOUNDS lists the six names in order, each with lo < hi |
| RandomSearch.Affine | optimize.py:17 | `lo + u*(hi-lo)` with u in [0, 1) lies in [lo, hi) |
| RandomSearch.SampleParams | optimize.py:16-17 | the sample has exactly the BOUNDS keys, in order, and each value lies in [lo, hi) when its draw lies in [0, 1) |
| RandomSearch.Step | optimize.py:24-25 | one step keeps the smaller score; a tie or worse keeps the previous best; a strict improvement stores the trial's record |
| RandomSearch.Search | optimize.py:19-25 | the best score never increases and ends at or below every trial score and the 1e9 sentinel; no record is kept exactly when no score beats the sentinel; otherwise the record is the parameters and features of the earliest minimal trial |
| CmaBox.DeclaredBoundsOrdered | cma_optimize.py:8-11 | LB < UB componentwise, and x0 lies within them |
| CmaBox.ClampTo | cma_optimize.py:14 | for LB <= UB each component lands in [LB_i, UB_i]; each output is the input, LB_i or UB_i; a component already in range is kept |
| CmaBox.Clamp | cma_optimize.py:14 | the clamp with the declared bounds always lands in the box |
| CmaBox.ClampIdempotent | cma_optimize.py:14 | clamping twice equals clamping once |
| CmaBox.ClampIdentity | cma_optimize.py:14 | the clamp leaves a vector unchanged exactly when it is within bounds |
| CmaBox.ClampNearest | cma_optimize.py:14 | no point of the box is closer to the input, component by component, than the clamped point |
| CmaBox.ParamsOf | cma_optimize.py:16-17 | the dictionary passed to the simulator (and reported as `best_p`, line 29) has the NAMES keys in order, and in-bounds values that equal the input when it is already within bounds |
| Bayesian.SearchSpaceValid | bo_optimize.py:13-18 | every range has lower < upper, each log-scaled range has a positive lower bound, and the ranges follow NAMES order |
| Bayesian.TrialParams | bo_optimize.py:20-22 | the trial dictionary has exactly the NAMES keys, in order, with the suggested values |
| Bayesian.SeedParams | bo_optimize.py:28 | a seeded dictionary is the trial dictionary plus only a `seed` entry |
| Bayesian.SeedRuns | bo_optimize.py:27-29 | there is one simulator dictionary per seed 0, 1, 2; dictionary s maps `seed` to s and every other key to its value in the trial's dictionary |
| Bayesian.Objective | bo_optimize.py:25-31 | the objective lies between the smallest and the largest per-seed loss |
| Bayesian.SeedBlindObjective | bo_optimize.py:26-31 | when the runs do not depend on the seed, the objective equals the unseeded run's loss |
| Bayesian.MockObjective | bo_optimize.py:25-31 | with the mock simulator, the averaged objective is the score of the unseeded mock record |
| Bayesian.OrderedBy | bo_optimize.py:40 | the comprehension succeeds exactly when every name is a key; the result lists the names in order, each with its value from `best` |
| Bayesian.BestOrdered | bo_optimize.py:40 | `best_ordered` exists exactly when `best` has every NAMES key; its keys are NAMES in order, with the values from `best` |
| Bayesian.BestOrderedKeepsValues | bo_optimize.py:40 | looking up any name in `best_ordered` gives the same value as in `best` |
| Bayesian.BestOrderedOfOrdered | bo_optimize.py:40 | a dictionary already keyed by NAMES, in order, comes back unchanged |

## Left out

- Loading morphologies with morphio (extract_features.py:4, 70-71) is a foreign library. A section is a datatype carrying its point-to-soma distances, its segment lengths and its children.
- Euclidean norms (extract_features.py:18, 41, 55, 98) are floating-point geometry. Distances and segment lengths are given non-negative reals.
- Command-line handling, JSON reading and writing, and printing are I/O. This covers extract_features.py:6-10 and 116-119, loss.py:6-10, optimize.py:26-34, cma_optimize.py:30-32 and bo_optimize.py:41-46.
- `_simulate_cpp` (simulate.py:19-30) is subprocess, temporary-directory and timeout plumbing. It is the `external` argument of `SimulateOnce`, where `None` stands for any failure of the run.
- The CMA-ES ask/tell loop (cma_optimize.py:21-28), the Optuna TPE sampler and study, and `MedianPruner` (bo_optimize.py:34-38) are third-party internals. The pruner never fires, because the objective never reports intermediate values.
- `random.random()` (optimize.py:17) is a draw supplied by the caller, and `Search` takes one draw sequence per trial.
- Floating-point rounding is not modelled: every computation is exact real arithmetic. In particular, the rounded `lo + u*(hi-lo)` can equal `hi` for u near 1.
- The `reps` argument of `simulate_once` and of the mock has no effect in the source, so it is not a parameter of the model.
- `inspect_best.py` and `inspect_bo.py` only print and plot.
- Simulate.MockOf: `math.exp` is an arbitrary function argument. The stated bounds hold for any such function, but no property of exp (such as the peak at x = 0) is used.
- Loss.Loss: requires the candidate radii to be strictly increasing. `np.interp` does not check this, and its result for other input is unspecified. The target is required to have at least one radius and as many counts as radii, since the extractor always produces such a curve.
- RandomSearch.Search: the simulator and the loss are total functions here. In the source, an exception from either aborts the run.
- CmaBox.ClampTo: requires the vector and both bounds to have the same length. CMA-ES always proposes vectors of the bounds' dimension, and numpy broadcasting of other shapes is not modelled.
- Simulate.Trunc: `int()` of NaN or an infinite float, which raises in Python, has no counterpart among the reals.

### Behaviour of the code worth noting

- The Sholl radii stop below `ceil(max_r + step) + step/2` (extract_features.py:44-48). The last radius is therefore at least `max_r + step/2`, but not always a full step past the extent (`Sholl.RadiiCoverExtent`).
- `np.isclose` keeps its default relative tolerance (extract_features.py:61-62): a point touches a sphere when `|d - r| <= 1e-6 + 1e-5·r`.
- A segment from the centre to length L counts for every r <= L, r = L included (`Sholl.OutwardSegment`).
- The tolerance rule at extract_features.py:58-66 can miss a real crossing: a polyline that passes from inside to outside a sphere through a point within tolerance of it adds nothing for that sphere (`Sholl.ToleranceBandHidesCrossing`).
- An exception from the simulator or the loss propagates and ends the search (optimize.py:21-23, simulate.py:12-17).
- The tree statistics walk every root section, axons included (extract_features.py:76-89). The Sholl curve and the extent use the dendrites-only sections (extract_features.py:72, 94-102).
- The random search stores the best trial's features together with its parameters (optimize.py:24-25).
- The Bayesian search space gives `prune_prob` the lower bound 1e-5, as a log-scaled range must start above zero (bo_optimize.py:18).
