/** simulate.py: the dispatch between the external growth simulator and the closed-form mock,
    and the mock itself, a deterministic map from the six growth parameters to a feature
    record. */
module Simulate {
  import opened Results
  import opened Reals
  import opened Features
  import opened ParamMaps

  // ---------------------------------------------------------------------------
  // Python's int() and max() on the values the mock produces
  // ---------------------------------------------------------------------------

  /** int(x) for a float: truncation toward zero. */
  function Trunc(x: real): (n: int)
    ensures 0.0 <= x ==> n as real <= x < n as real + 1.0
    ensures x < 0.0 ==> n as real - 1.0 < x <= n as real
  {
    if x >= 0.0 then x.Floor else -((-x).Floor)
  }

  function MaxInt(a: int, b: int): int
  {
    if a >= b then a else b
  }

  /** Clamping from below by a non-negative bound hides the difference between truncation and
      flooring: the two roundings differ only on negative non-integers, whose both roundings
      lie at or below 0. */
  lemma ClampedTruncIsFloor(c: int, x: real)
    requires c >= 0
    ensures MaxInt(c, Trunc(x)) == MaxInt(c, x.Floor)
  {
  }

  // ---------------------------------------------------------------------------
  // Reading the parameters
  // ---------------------------------------------------------------------------

  /** The six values the mock reads, after defaulting. */
  datatype Inputs = Inputs(
    speed: real,
    persistence: real,
    branchProb: real,
    angleMu: real,
    angleSd: real,
    pruneProb: real)

  /** The defaults `params.get` falls back on, in NAMES order. */
  const DefaultValues: seq<real> := [1.0, 0.6, 0.01, 30.0, 15.0, 0.002]

  /** The mock's reading of a parameter dictionary. */
  function Read(p: Params): (m: Inputs)
    ensures forall i :: 0 <= i < |Names| ==> Field(m, i) == ValueOr(Lookup(p, Names[i]), DefaultValues[i])
  {
    Inputs(
      Get(p, Names[0], DefaultValues[0]),
      Get(p, Names[1], DefaultValues[1]),
      Get(p, Names[2], DefaultValues[2]),
      Get(p, Names[3], DefaultValues[3]),
      Get(p, Names[4], DefaultValues[4]),
      Get(p, Names[5], DefaultValues[5]))
  }

  function ValueOr(o: Option<real>, default: real): real
  {
    match o
    case Some(v) => v
    case None => default
  }

  /** The i-th input, in NAMES order. */
  function Field(m: Inputs, i: nat): real
    requires i < 6
  {
    match i
    case 0 => m.speed
    case 1 => m.persistence
    case 2 => m.branchProb
    case 3 => m.angleMu
    case 4 => m.angleSd
    case _ => m.pruneProb
  }

  // ---------------------------------------------------------------------------
  // The mock
  // ---------------------------------------------------------------------------

  /** range(10, 160, 10): the mock's fixed Sholl radii. */
  const MockRadii: seq<real> :=
    [10.0, 20.0, 30.0, 40.0, 50.0, 60.0, 70.0, 80.0, 90.0, 100.0, 110.0, 120.0, 130.0, 140.0, 150.0]

  function GrowthFactor(m: Inputs): real
  {
    m.speed * (0.6 + 0.8 * m.persistence) * (1.0 - 5.0 * m.pruneProb)
  }

  function BranchingFactor(m: Inputs): real
  {
    900.0 * m.branchProb * (1.0 + 0.01 * Max(0.0, m.angleSd - 10.0))
  }

  function SpreadFactor(m: Inputs): real
  {
    80.0 + 120.0 * m.persistence * (1.0 + 0.01 * (m.angleMu - 30.0))
  }

  /** The bell-shaped count at the i-th radius before the pruning correction; `exp` stands for
      math.exp. */
  function BellCount(m: Inputs, exp: real -> real, totalLength: real, i: nat): (c: int)
    requires i < 15
    ensures c >= 0
  {
    MaxInt(0, Trunc(PeakHeight(totalLength) as real * exp(-0.5 * Sq(Offset(m, i)))))
  }

  /** The radius of the bell's peak, between 20 and 60. */
  function PeakRadius(m: Inputs): real
  {
    Max(20.0, Min(60.0, SpreadFactor(m) / 3.0))
  }

  /** The height of the bell, growing with the total length. */
  function PeakHeight(totalLength: real): int
  {
    10 + Trunc(0.015 * totalLength)
  }

  /** The distance of the i-th radius from the peak, in units of 15. */
  function Offset(m: Inputs, i: nat): real
    requires i < 15
  {
    (MockRadii[i] - PeakRadius(m)) / 15.0
  }

  /** The light pruning correction of the count at the i-th of 15 radii. */
  function Pruned(c: int, pruneProb: real, i: nat): (r: int)
    ensures r >= 0
  {
    MaxInt(0, Trunc(c as real * (1.0 - 2.0 * pruneProb * (i as real / 15.0))))
  }

  /** _simulate_mock on the read inputs. */
  function MockOf(m: Inputs, exp: real -> real): (f: FeatureSet)
    ensures f.totalLength >= 100.0
    ensures f.maxRadialExtent >= 30.0
    ensures f.nBifurcations >= 1
    ensures f.nTips >= 8
    ensures f.maxTreeDepth >= 1
    ensures f.sholl.radii == MockRadii
    ensures |f.sholl.counts| == 15
    ensures forall i :: 0 <= i < 15 ==>
              f.sholl.counts[i] == Pruned(BellCount(m, exp, f.totalLength, i), m.pruneProb, i)
    ensures WellFormedCurve(f.sholl)
  {
    FeatureSet(MockLength(m), MockBifurcations(m), MockTips(MockBifurcations(m)), MockDepth(m),
      Max(30.0, SpreadFactor(m)), Curve(MockRadii, MockCounts(m, exp, MockLength(m))))
  }

  function MockLength(m: Inputs): real
  {
    Max(100.0, GrowthFactor(m) * 1500.0)
  }

  function MockBifurcations(m: Inputs): int
  {
    MaxInt(1, Trunc(BranchingFactor(m)))
  }

  function MockTips(nBif: int): int
  {
    MaxInt(1, Trunc(0.8 * nBif as real + 8.0))
  }

  function MockDepth(m: Inputs): int
  {
    MaxInt(1, Trunc(3.0 + 6.0 * m.persistence - 0.02 * m.angleSd))
  }

  /** The mock's Sholl counts: the bell, then the pruning correction, at every radius. */
  function MockCounts(m: Inputs, exp: real -> real, totalLength: real): (cs: seq<int>)
    ensures |cs| == 15
    ensures forall i :: 0 <= i < 15 ==> cs[i] == Pruned(BellCount(m, exp, totalLength, i), m.pruneProb, i)
    ensures forall i :: 0 <= i < 15 ==> cs[i] >= 0
    ensures m.pruneProb == 0.0 ==> forall i :: 0 <= i < 15 ==> cs[i] == BellCount(m, exp, totalLength, i)
  {
    seq(15, i requires 0 <= i < 15 => Pruned(BellCount(m, exp, totalLength, i), m.pruneProb, i))
  }

  /** The radii are 10, 20, ..., 150, whatever the parameters. */
  lemma MockRadiiSpacing()
    ensures |MockRadii| == 15
    ensures forall i :: 0 <= i < 15 ==> MockRadii[i] == 10.0 * (i + 1) as real
  {
  }

  /** _simulate_mock: the mock record of a parameter dictionary. */
  function Mock(p: Params, exp: real -> real): (f: FeatureSet)
    ensures f.totalLength >= 100.0 && f.maxRadialExtent >= 30.0
    ensures f.nBifurcations >= 1 && f.nTips >= 8 && f.maxTreeDepth >= 1
    ensures f.sholl.radii == MockRadii && WellFormedCurve(f.sholl)
  {
    MockOf(Read(p), exp)
  }

  // ---------------------------------------------------------------------------
  // What the mock depends on
  // ---------------------------------------------------------------------------

  /** Two dictionaries that agree on the six named parameters give the same record: the mock
      reads nothing else. */
  lemma MockDependsOnlyOnNames(p: Params, q: Params, exp: real -> real)
    requires forall n :: n in Names ==> Lookup(p, n) == Lookup(q, n)
    ensures Mock(p, exp) == Mock(q, exp)
  {
    assert Read(p) == Read(q) by {
      assert Names[0] == "speed" && Names[5] == "prune_prob";
      assert Lookup(p, "speed") == Lookup(q, "speed");
      assert Lookup(p, "persistence") == Lookup(q, "persistence");
      assert Lookup(p, "branch_prob") == Lookup(q, "branch_prob");
      assert Lookup(p, "branch_angle_mean_deg") == Lookup(q, "branch_angle_mean_deg");
      assert Lookup(p, "branch_angle_std_deg") == Lookup(q, "branch_angle_std_deg");
      assert Lookup(p, "prune_prob") == Lookup(q, "prune_prob");
    }
  }

  /** Adding a "seed" entry, as the Bayesian search does, leaves the mock record unchanged. */
  lemma MockIgnoresSeed(p: Params, seed: real, exp: real -> real)
    ensures Mock(Insert(p, "seed", seed), exp) == Mock(p, exp)
  {
    InsertLookupAll(p, "seed", seed);
    MockDependsOnlyOnNames(Insert(p, "seed", seed), p, exp);
  }

  /** An empty dictionary is read as the stated defaults. */
  lemma MissingKeysTakeDefaults(exp: real -> real)
    ensures Mock([], exp) == Mock(Zip(Names, DefaultValues), exp)
  {
    ReadDefaults();
  }

  /** The stated defaults, written out as a dictionary, are read exactly as an empty one. */
  lemma ReadDefaults()
    ensures Read(Zip(Names, DefaultValues)) == Read([])
  {
    var d := Zip(Names, DefaultValues);
    forall i | 0 <= i < 6
      ensures Lookup(d, Names[i]) == Some(DefaultValues[i])
    {
      assert d[i] == Entry(Names[i], DefaultValues[i]);
      LookupFirst(d, i);
    }
    assert Read(d) == Read([]) by {
      assert Lookup(d, Names[0]) == Some(DefaultValues[0]);
      assert Lookup(d, Names[1]) == Some(DefaultValues[1]);
      assert Lookup(d, Names[2]) == Some(DefaultValues[2]);
      assert Lookup(d, Names[3]) == Some(DefaultValues[3]);
      assert Lookup(d, Names[4]) == Some(DefaultValues[4]);
      assert Lookup(d, Names[5]) == Some(DefaultValues[5]);
    }
  }

  /** Without pruning, the correction keeps every bell count. */
  lemma NoPruningKeepsCounts(c: int, i: nat)
    requires c >= 0
    ensures Pruned(c, 0.0, i) == c
  {
  }

  /** With a pruning probability in [0, 0.5] the correction never raises a count. */
  lemma PruningNeverRaises(c: int, pruneProb: real, i: nat)
    requires c >= 0 && 0.0 <= pruneProb <= 0.5 && i < 15
    ensures Pruned(c, pruneProb, i) <= c
  {
    var q := i as real / 15.0;
    var a := 2.0 * pruneProb;
    assert 2.0 * pruneProb * q == a * q;
    ScaledPartBelow(a, q);
    var f := 1.0 - a * q;
    assert f == 1.0 - 2.0 * pruneProb * (i as real / 15.0);
    MulAtMost(c as real, f);
    var x := c as real * f;
    assert x <= c as real;
    assert Trunc(x) <= c;
  }

  lemma ScaledPartBelow(a: real, b: real)
    requires 0.0 <= a <= 1.0 && 0.0 <= b <= 1.0
    ensures 0.0 <= a * b <= 1.0
  {
    MulNonNegative(a, b);
    var w := 1.0 - b;
    MulNonNegative(a, w);
    assert a * w == a - a * b;
  }

  lemma MulAtMost(c: real, f: real)
    requires c >= 0.0 && 0.0 <= f <= 1.0
    ensures c * f <= c
  {
    var w := 1.0 - f;
    MulNonNegative(c, w);
    assert c * w == c - c * f;
  }

  // ---------------------------------------------------------------------------
  // simulate_once
  // ---------------------------------------------------------------------------

  /** FileNotFoundError when there is neither a binary nor permission to mock; a failure of the
      external run (non-zero exit, timeout, unreadable output) otherwise. */
  datatype SimError = BinaryNotFound | SimulatorFailed

  /** simulate_once. `binaryPresent` is the outcome of the lookup of ./cpp/neuron_growth and
      `external` what the external run produces for a dictionary (None when it fails). */
  function SimulateOnce(
    p: Params, binaryPresent: bool, useMock: bool,
    external: Params -> Option<FeatureDict>, exp: real -> real): (r: Result<FeatureDict, SimError>)
    ensures r == Failure(BinaryNotFound) <==> !binaryPresent && !useMock
    ensures binaryPresent ==> (r.Success? <==> external(p).Some?)
    ensures binaryPresent && r.Success? ==> r.value == external(p).value
    ensures !binaryPresent && useMock ==> r == Success(ToDict(Mock(p, exp)))
  {
    if binaryPresent then
      match external(p)
      case Some(d) => Success(d)
      case None => Failure(SimulatorFailed)
    else if useMock then Success(ToDict(Mock(p, exp)))
    else Failure(BinaryNotFound)
  }

  /** The mock's record is one the loss accepts: every key present and a non-empty, increasing
      curve with as many counts as radii. */
  lemma MockScores(p: Params, exp: real -> real)
    ensures var d := ToDict(Mock(p, exp));
            && d.sholl.Some? && WellFormedCurve(d.sholl.value)
            && forall k :: k in d.scalars
  {
  }
}
