/** optimize.py: random search over the parameter box. Each trial draws every parameter
    uniformly from its bounds, scores the simulated features, and the best score, together
    with the parameters and features that produced it, is kept. */
module RandomSearch {
  import opened Results
  import opened Reals
  import opened Features
  import opened ParamMaps

  /** One entry of BOUNDS: a parameter and its half-open sampling interval [lo, hi). */
  datatype Bound = Bound(name: string, lo: real, hi: real)

  /** BOUNDS, in declaration order. */
  const Bounds: seq<Bound> := [
    Bound("speed", 0.2, 2.5),
    Bound("persistence", 0.2, 0.95),
    Bound("branch_prob", 0.0005, 0.03),
    Bound("branch_angle_mean_deg", 10.0, 70.0),
    Bound("branch_angle_std_deg", 5.0, 40.0),
    Bound("prune_prob", 0.0, 0.02)]

  /** BOUNDS lists the parameters in NAMES order, each with a non-empty interval. */
  lemma BoundsWellFormed()
    ensures |Bounds| == |Names|
    ensures forall i :: 0 <= i < |Bounds| ==> Bounds[i].name == Names[i] && Bounds[i].lo < Bounds[i].hi
  {
  }

  /** lo + u * (hi - lo) for u in [0, 1) lies in [lo, hi). */
  lemma Affine(lo: real, hi: real, u: real)
    requires lo < hi && 0.0 <= u < 1.0
    ensures lo <= lo + u * (hi - lo) < hi
  {
    var w := hi - lo;
    var v := u * w;
    assert 0.0 <= v by {
      if u > 0.0 {
        MulPositive(u, w);
      }
    }
    assert v < w by {
      var a := 1.0 - u;
      MulPositive(a, w);
      assert a * w == w - v;
      assert a * w > 0.0;
    }
  }

  /** The value drawn for parameter i: `us[i]` in [0, 1) stretched onto its interval. */
  function Stretch(us: seq<real>, i: nat): real
    requires i < |us| && i < |Bounds|
  {
    Bounds[i].lo + us[i] * (Bounds[i].hi - Bounds[i].lo)
  }

  /** sample_params: one uniform draw `us[i]` per parameter, stretched onto its bounds;
      the keys are those of BOUNDS, which are NAMES in order. */
  function SampleParams(us: seq<real>): (p: Params)
    requires |us| == |Bounds|
    ensures Keys(p) == Names
    ensures |p| == |Bounds|
    ensures (forall i :: 0 <= i < |us| ==> 0.0 <= us[i] < 1.0) ==>
              forall i :: 0 <= i < |p| ==> Bounds[i].lo <= p[i].value < Bounds[i].hi
  {
    BoundsWellFormed();
    var values := seq(|Bounds|, i requires 0 <= i < |Bounds| => Stretch(us, i));
    var p := Zip(Names, values);
    SampleInBounds(us, values);
    p
  }

  lemma SampleInBounds(us: seq<real>, values: seq<real>)
    requires |us| == |Bounds| == |values|
    requires forall i :: 0 <= i < |values| ==> values[i] == Stretch(us, i)
    ensures (forall i :: 0 <= i < |us| ==> 0.0 <= us[i] < 1.0) ==>
              forall i :: 0 <= i < |values| ==> Bounds[i].lo <= values[i] < Bounds[i].hi
  {
    BoundsWellFormed();
    if forall i :: 0 <= i < |us| ==> 0.0 <= us[i] < 1.0 {
      forall i | 0 <= i < |values|
        ensures Bounds[i].lo <= values[i] < Bounds[i].hi
      {
        Affine(Bounds[i].lo, Bounds[i].hi, us[i]);
      }
    }
  }

  // ---------------------------------------------------------------------------
  // Best-so-far tracking
  // ---------------------------------------------------------------------------

  /** The initial best score, larger than any loss expected. */
  const Sentinel: real := 1000000000.0

  /** What is stored with the best score: the trial's parameters and features. */
  datatype Record = Record(params: Params, features: FeatureDict)

  /** `best`: a score and, once some trial has beaten the sentinel, its record. */
  datatype Best = Best(score: real, record: Option<Record>)

  /** One step of the loop: a trial replaces the best only when strictly better. */
  function Step(b: Best, score: real, rec: Record): (r: Best)
    ensures r.score == Min(b.score, score)
    ensures score >= b.score ==> r == b
    ensures score < b.score ==> r.record == Some(rec)
  {
    if score < b.score then Best(score, Some(rec)) else b
  }

  /** Trial k holds the earliest strictly-below-sentinel minimum of the scores. */
  predicate EarliestMinimum(scores: seq<real>, k: int)
  {
    && 0 <= k < |scores|
    && scores[k] < Sentinel
    && (forall j :: 0 <= j < |scores| ==> scores[k] <= scores[j])
    && (forall j :: 0 <= j < k ==> scores[j] > scores[k])
  }

  /** The record of trial k. */
  function TrialRecord(draws: seq<seq<real>>, simulate: Params -> FeatureDict, k: int): Record
    requires 0 <= k < |draws| && |draws[k]| == |Bounds|
  {
    var p := SampleParams(draws[k]);
    Record(p, simulate(p))
  }

  /** The search loop of optimize.py over the given draws. The simulator and the scoring
      are parameters; `scores` are the trial scores and `progress` the best score after each
      trial. */
  method Search(draws: seq<seq<real>>, simulate: Params -> FeatureDict, score: FeatureDict -> real)
    returns (best: Best, scores: seq<real>, progress: seq<real>)
    requires forall i :: 0 <= i < |draws| ==> |draws[i]| == |Bounds|
    ensures |scores| == |draws| && |progress| == |draws|
    ensures forall i :: 0 <= i < |draws| ==> scores[i] == score(TrialRecord(draws, simulate, i).features)
    ensures forall i, j :: 0 <= i < j < |progress| ==> progress[j] <= progress[i]
    ensures |progress| > 0 ==> progress[|progress| - 1] == best.score
    ensures best.score <= Sentinel
    ensures forall i :: 0 <= i < |scores| ==> best.score <= scores[i]
    ensures best.record.None? <==> forall i :: 0 <= i < |scores| ==> scores[i] >= Sentinel
    ensures best.record.None? ==> best.score == Sentinel
    ensures best.record.Some? ==>
              exists k :: EarliestMinimum(scores, k) && best.score == scores[k]
                          && best.record.value == TrialRecord(draws, simulate, k)
  {
    best := Best(Sentinel, None);
    scores := [];
    progress := [];
    ghost var k := -1;
    var i := 0;
    while i < |draws|
      invariant 0 <= i <= |draws|
      invariant |scores| == i && |progress| == i
      invariant forall t :: 0 <= t < i ==> scores[t] == score(TrialRecord(draws, simulate, t).features)
      invariant forall t, u :: 0 <= t < u < i ==> progress[u] <= progress[t]
      invariant i > 0 ==> progress[i - 1] == best.score
      invariant best.score <= Sentinel
      invariant forall t :: 0 <= t < i ==> best.score <= scores[t]
      invariant best.record.None? <==> k == -1
      invariant k == -1 ==> best.score == Sentinel && forall t :: 0 <= t < i ==> scores[t] >= Sentinel
      invariant k != -1 ==>
                  EarliestMinimum(scores, k) && best.score == scores[k]
                  && best.record.value == TrialRecord(draws, simulate, k)
    {
      var params := SampleParams(draws[i]);
      var feats := simulate(params);
      var s := score(feats);
      if s < best.score {
        k := i;
      }
      best := Step(best, s, Record(params, feats));
      scores := scores + [s];
      progress := progress + [best.score];
      i := i + 1;
    }
  }
}
