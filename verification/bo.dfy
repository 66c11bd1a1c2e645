/** bo_optimize.py: the search space handed to the sampler, the trial's parameter dictionary,
    the objective averaged over seeded runs, and the NAMES-ordered report of the best trial. */
module Bayesian {
  import opened Results
  import opened Reals
  import opened ParamMaps
  import opened Features
  import opened Simulate

  /** One `trial.suggest_float(name, lo, hi, log=...)` call. */
  datatype Range = Range(name: string, lo: real, hi: real, log: bool)

  /** The search space, in the order the objective suggests the parameters. */
  const Space: seq<Range> := [
    Range("speed", 0.2, 2.5, false),
    Range("persistence", 0.2, 0.95, false),
    Range("branch_prob", 0.0005, 0.03, true),
    Range("branch_angle_mean_deg", 10.0, 70.0, false),
    Range("branch_angle_std_deg", 5.0, 40.0, false),
    Range("prune_prob", 0.00001, 0.02, true)]

  /** The number of seeded runs averaged per trial. */
  const Reps: nat := 3

  /** Every range is non-empty, a log-scaled range starts above zero, and the ranges are
      suggested in NAMES order. */
  lemma SearchSpaceValid()
    ensures |Space| == |Names|
    ensures forall i :: 0 <= i < |Space| ==> Space[i].name == Names[i]
    ensures forall i :: 0 <= i < |Space| ==> Space[i].lo < Space[i].hi
    ensures forall i :: 0 <= i < |Space| && Space[i].log ==> Space[i].lo > 0.0
  {
  }

  /** `dict(speed=..., ..., prune_prob=...)` from the six suggested values. */
  function TrialParams(v: seq<real>): (p: Params)
    requires |v| == |Names|
    ensures Keys(p) == Names
    ensures |p| == |v| && forall i :: 0 <= i < |p| ==> p[i].value == v[i]
  {
    [Entry("speed", v[0]), Entry("persistence", v[1]), Entry("branch_prob", v[2]),
     Entry("branch_angle_mean_deg", v[3]), Entry("branch_angle_std_deg", v[4]),
     Entry("prune_prob", v[5])]
  }

  /** `{**params, "seed": seed}`: the dictionary of one seeded run. */
  function SeedParams(params: Params, seed: nat): (q: Params)
    ensures Lookup(q, "seed") == Some(seed as real)
    ensures forall k :: k != "seed" ==> Lookup(q, k) == Lookup(params, k)
    ensures "seed" !in Keys(params) ==> Keys(q) == Keys(params) + ["seed"]
  {
    InsertKeys(params, "seed", seed as real);
    InsertLookupAll(params, "seed", seed as real);
    Insert(params, "seed", seed as real)
  }

  /** The dictionaries the simulator receives in one trial, one per seed 0 .. Reps-1. */
  function SeedRuns(params: Params): (runs: seq<Params>)
    ensures |runs| == Reps
    ensures forall s :: 0 <= s < Reps ==> runs[s] == SeedParams(params, s)
    ensures forall s :: 0 <= s < Reps ==> Lookup(runs[s], "seed") == Some(s as real)
    ensures forall s, k :: 0 <= s < Reps && k != "seed" ==> Lookup(runs[s], k) == Lookup(params, k)
  {
    seq(Reps, s requires 0 <= s < Reps => SeedParams(params, s))
  }

  /** The per-seed losses, where `run` scores the features simulated for one dictionary. */
  function Losses(params: Params, run: Params -> real): (ls: seq<real>)
    ensures |ls| == Reps
    ensures forall s :: 0 <= s < Reps ==> ls[s] == run(SeedParams(params, s))
  {
    var runs := SeedRuns(params);
    seq(Reps, s requires 0 <= s < Reps => run(runs[s]))
  }

  /** `objective`: the mean of the seeded losses of a trial. */
  function Objective(params: Params, run: Params -> real): (o: real)
    ensures Minimum(Losses(params, run)) <= o <= Maximum(Losses(params, run))
  {
    MeanBetweenExtremes(Losses(params, run));
    Mean(Losses(params, run))
  }

  /** A run that does not look at the seed makes the objective that run's loss. */
  lemma {:induction false} SeedBlindObjective(params: Params, run: Params -> real)
    requires forall s :: 0 <= s < Reps ==> run(SeedParams(params, s)) == run(params)
    ensures Objective(params, run) == run(params)
  {
    var a := run(params);
    var ls := Losses(params, run);
    assert ls == [a, a, a];
    assert ls[..2] == [a, a];
    assert ls[..2][..1] == [a];
    assert [a][..0] == [];
    assert Sum([a]) == a;
    assert Sum([a, a]) == a + a;
    assert Sum(ls) == a + a + a;
  }

  /** With the mock simulator the three seeded runs coincide, so the averaged objective is the
      score of the unseeded mock record. */
  lemma MockObjective(params: Params, exp: real -> real, score: FeatureDict -> real)
    ensures Objective(params, q => score(ToDict(Mock(q, exp)))) == score(ToDict(Mock(params, exp)))
  {
    var run := q => score(ToDict(Mock(q, exp)));
    forall s | 0 <= s < Reps
      ensures run(SeedParams(params, s)) == run(params)
    {
      MockIgnoresSeed(params, s as real, exp);
    }
    SeedBlindObjective(params, run);
  }

  // ---------------------------------------------------------------------------
  // best_ordered
  // ---------------------------------------------------------------------------

  /** `{k: best[k] for k in names}`; None where the comprehension raises KeyError. */
  function OrderedBy(names: seq<string>, best: Params): (r: Option<Params>)
    ensures r.Some? <==> forall i :: 0 <= i < |names| ==> names[i] in Keys(best)
    ensures r.Some? ==> |r.value| == |names|
    ensures r.Some? ==> forall i :: 0 <= i < |names| ==> r.value[i].name == names[i]
    ensures r.Some? ==> forall i :: 0 <= i < |names| ==> Lookup(best, names[i]) == Some(r.value[i].value)
  {
    if |names| == 0 then Some([])
    else
      var head := Lookup(best, names[0]);
      var tail := OrderedBy(names[1..], best);
      if head.None? || tail.None? then
        None
      else
        Some([Entry(names[0], head.value)] + tail.value)
  }

  /** `best_ordered`: the best trial's parameters rearranged into NAMES order. */
  function BestOrdered(best: Params): (r: Option<Params>)
    ensures r.Some? <==> forall k :: k in Names ==> k in Keys(best)
    ensures r.Some? ==> Keys(r.value) == Names
    ensures r.Some? ==> forall i :: 0 <= i < |Names| ==> Lookup(best, Names[i]) == Some(r.value[i].value)
  {
    var r := OrderedBy(Names, best);
    AllNamesIndexed(best);
    if r.Some? then
      KeysAre(r.value, Names);
      r
    else
      r
  }

  /** Membership of every name, by name or by index. */
  lemma AllNamesIndexed(best: Params)
    ensures (forall k :: k in Names ==> k in Keys(best))
            <==> (forall i :: 0 <= i < |Names| ==> Names[i] in Keys(best))
  {
    if forall i :: 0 <= i < |Names| ==> Names[i] in Keys(best) {
      forall k | k in Names
        ensures k in Keys(best)
      {
        var i :| 0 <= i < |Names| && Names[i] == k;
      }
    }
  }

  lemma KeysAre(p: Params, names: seq<string>)
    requires |p| == |names| && forall i :: 0 <= i < |p| ==> p[i].name == names[i]
    ensures Keys(p) == names
  {
    var ks := Keys(p);
    assert forall i :: 0 <= i < |ks| ==> ks[i] == names[i];
  }

  /** The names are distinct, so a dictionary keyed by them has one entry per name. */
  lemma NamesDistinct()
    ensures forall i, j :: 0 <= i < j < |Names| ==> Names[i] != Names[j]
  {
  }

  /** The report keeps every value: looking a name up in `best_ordered` gives what it has in
      `best`. */
  lemma BestOrderedKeepsValues(best: Params, k: string)
    requires forall k' :: k' in Names ==> k' in Keys(best)
    requires k in Names
    ensures Lookup(BestOrdered(best).value, k) == Lookup(best, k)
  {
    var r := BestOrdered(best).value;
    var i :| 0 <= i < |Names| && Names[i] == k;
    FirstName(r, i);
    LookupFirst(r, i);
  }

  /** An entry at position i of a NAMES-ordered prefix is the first with its name. */
  lemma FirstName(p: Params, i: nat)
    requires i < |p| <= |Names|
    requires forall j :: 0 <= j < |p| ==> p[j].name == Names[j]
    ensures forall j :: 0 <= j < i ==> p[j].name != p[i].name
  {
    NamesDistinct();
  }

  /** A dictionary already holding exactly NAMES, in order, comes back unchanged. */
  lemma BestOrderedOfOrdered(best: Params)
    requires Keys(best) == Names
    ensures BestOrdered(best) == Some(best)
  {
    forall k | k in Names
      ensures k in Keys(best)
    {
    }
    var r := BestOrdered(best).value;
    forall i | 0 <= i < |Names|
      ensures r[i] == best[i]
    {
      assert best[i].name == Names[i];
      FirstName(best, i);
      LookupFirst(best, i);
    }
    assert |r| == |Names| == |best|;
    assert r == best;
  }
}
