/** loss_from_features of loss.py: the sum of squared, scale-normalised differences between
    a simulated feature dictionary and the fixed target record, plus a term for the Sholl
    curve resampled onto the target radii. */
module Loss {
  import opened Results
  import opened Reals
  import opened Features
  import opened Resample

  /** SCALES: the normaliser of each scalar feature. */
  function Scale(k: Key): (s: real)
    ensures s > 0.0
  {
    match k
    case TotalLength => 2000.0
    case NBifurcations => 30.0
    case NTips => 34.0
    case MaxTreeDepth => 7.0
    case MaxRadialExtent => 150.0
  }

  /** SCALES["sholl_l2"]. */
  const ShollScale: real := 50.0

  /** The ValueErrors np.interp raises for a malformed candidate curve. */
  datatype LossError =
    | EmptyCurve      // no sample points
    | LengthMismatch  // radii and counts differ in length

  /** What the target record loaded from target.json provides: parallel, non-empty radii and
      counts. */
  predicate ValidTarget(target: FeatureSet)
  {
    |target.sholl.radii| >= 1 && |target.sholl.counts| == |target.sholl.radii|
  }

  function ToReals(xs: seq<int>): (r: seq<real>)
    ensures |r| == |xs| && forall i :: 0 <= i < |xs| ==> r[i] == xs[i] as real
  {
    seq(|xs|, i requires 0 <= i < |xs| => xs[i] as real)
  }

  /** The squared normalised difference one present scalar key contributes. */
  function KeyTerm(v: real, target: FeatureSet, k: Key): (t: real)
    ensures t >= 0.0
  {
    Sq((v - Scalar(target, k)) / Scale(k))
  }

  /** The term list entry for key `k`: one term when the key is present, none otherwise. */
  function TermFor(sim: FeatureDict, target: FeatureSet, k: Key): seq<real>
  {
    if k in sim.scalars then [KeyTerm(sim.scalars[k], target, k)] else []
  }

  /** The scalar terms, in the order the loop visits the keys. */
  function ScalarTerms(sim: FeatureDict, target: FeatureSet): seq<real>
  {
    TermFor(sim, target, TotalLength) + TermFor(sim, target, NBifurcations)
    + TermFor(sim, target, NTips) + TermFor(sim, target, MaxTreeDepth)
    + TermFor(sim, target, MaxRadialExtent)
  }

  /** The candidate counts resampled at every target radius. */
  function Resampled(c: Curve, targetRadii: seq<real>): (r: seq<real>)
    requires |c.radii| >= 1 && |c.counts| == |c.radii| && StrictlyIncreasing(c.radii)
    ensures |r| == |targetRadii|
    ensures forall i :: 0 <= i < |r| ==> r[i] == Interp(targetRadii[i], c.radii, ToReals(c.counts))
    ensures forall i :: 0 <= i < |r| && targetRadii[i] < c.radii[0] ==> r[i] == 0.0
    ensures forall i :: 0 <= i < |r| && targetRadii[i] > c.radii[|c.radii| - 1] ==> r[i] == 0.0
    ensures forall i, k :: 0 <= i < |r| && 0 <= k < |c.radii| && targetRadii[i] == c.radii[k] ==>
              r[i] == c.counts[k] as real
  {
    KnotsKeepCounts(c);
    seq(|targetRadii|, i requires 0 <= i < |targetRadii| =>
      Interp(targetRadii[i], c.radii, ToReals(c.counts)))
  }

  /** At each of its own radii the candidate curve resamples to its own count. */
  lemma KnotsKeepCounts(c: Curve)
    requires |c.radii| >= 1 && |c.counts| == |c.radii| && StrictlyIncreasing(c.radii)
    ensures forall k :: 0 <= k < |c.radii| ==> Interp(c.radii[k], c.radii, ToReals(c.counts)) == c.counts[k] as real
  {
    forall k | 0 <= k < |c.radii|
      ensures Interp(c.radii[k], c.radii, ToReals(c.counts)) == c.counts[k] as real
    {
      InterpAtKnot(c.radii, ToReals(c.counts), k);
    }
  }

  /** The squared errors of the resampled curve against the target counts. */
  function SquaredErrors(ys: seq<real>, counts: seq<int>): (e: seq<real>)
    requires |ys| == |counts|
    ensures |e| == |ys|
    ensures forall i :: 0 <= i < |e| ==> e[i] >= 0.0
    ensures forall i :: 0 <= i < |e| ==> (e[i] == 0.0 <==> ys[i] == counts[i] as real)
  {
    var e := seq(|ys|, i requires 0 <= i < |ys| => Sq(ys[i] - counts[i] as real));
    assert forall i :: 0 <= i < |e| ==> (e[i] == 0.0 <==> ys[i] == counts[i] as real) by {
      forall i | 0 <= i < |e|
        ensures e[i] == 0.0 <==> ys[i] == counts[i] as real
      {
        SqZeroIff(ys[i] - counts[i] as real);
      }
    }
    e
  }

  /** The curve term (sholl_l2 / 50)^2, with sholl_l2 the root mean squared error; the square
      of the root is the mean itself (see `CurveTermWithoutRoot`). */
  function CurveTerm(c: Curve, target: FeatureSet): (t: real)
    requires ValidTarget(target)
    requires |c.radii| >= 1 && |c.counts| == |c.radii| && StrictlyIncreasing(c.radii)
    ensures t >= 0.0
  {
    var errs := SquaredErrors(Resampled(c, target.sholl.radii), target.sholl.counts);
    SumNonNegative(errs);
    Mean(errs) / (ShollScale * ShollScale)
  }

  /** loss_from_features against the target record. */
  function Loss(sim: FeatureDict, target: FeatureSet): (r: Result<real, LossError>)
    requires ValidTarget(target)
    requires sim.sholl.Some? ==> StrictlyIncreasing(sim.sholl.value.radii)
    ensures r.Failure? <==> (sim.sholl.Some? &&
              (|sim.sholl.value.radii| == 0 || |sim.sholl.value.counts| != |sim.sholl.value.radii|))
    ensures r.Failure? && |sim.sholl.value.radii| == 0 ==> r.error == EmptyCurve
    ensures r.Failure? && |sim.sholl.value.radii| > 0 ==> r.error == LengthMismatch
    ensures r.Success? ==> r.value >= 0.0
  {
    var scalars := ScalarTerms(sim, target);
    ScalarTermsNonNegative(sim, target);
    match sim.sholl
    case None =>
      SumNonNegative(scalars);
      Success(Sum(scalars))
    case Some(c) =>
      if |c.radii| == 0 then Failure(EmptyCurve)
      else if |c.counts| != |c.radii| then Failure(LengthMismatch)
      else
        var terms := scalars + [CurveTerm(c, target)];
        SumNonNegative(terms);
        Success(Sum(terms))
  }

  lemma ScalarTermsNonNegative(sim: FeatureDict, target: FeatureSet)
    ensures forall i :: 0 <= i < |ScalarTerms(sim, target)| ==> ScalarTerms(sim, target)[i] >= 0.0
  {
  }

  // ---------------------------------------------------------------------------
  // The loss as a sum of per-key contributions
  // ---------------------------------------------------------------------------

  /** What key `k` adds to the loss: its term when present, 0 when absent. */
  function Contribution(sim: FeatureDict, target: FeatureSet, k: Key): (t: real)
    ensures t >= 0.0
    ensures k !in sim.scalars ==> t == 0.0
  {
    if k in sim.scalars then KeyTerm(sim.scalars[k], target, k) else 0.0
  }

  /** What the curve adds: its term when a well-formed curve is present, 0 when absent. */
  function CurvePart(sim: FeatureDict, target: FeatureSet): (t: real)
    requires ValidTarget(target)
    requires sim.sholl.Some? ==> StrictlyIncreasing(sim.sholl.value.radii)
    ensures t >= 0.0
    ensures sim.sholl.None? ==> t == 0.0
  {
    match sim.sholl
    case None => 0.0
    case Some(c) =>
      if |c.radii| == 0 || |c.counts| != |c.radii| then 0.0 else CurveTerm(c, target)
  }

  /** The sum of all contributions, in an order independent of the term list. */
  function Decomposed(sim: FeatureDict, target: FeatureSet): real
    requires ValidTarget(target)
    requires sim.sholl.Some? ==> StrictlyIncreasing(sim.sholl.value.radii)
  {
    Contribution(sim, target, TotalLength) + Contribution(sim, target, NBifurcations)
    + Contribution(sim, target, NTips) + Contribution(sim, target, MaxTreeDepth)
    + Contribution(sim, target, MaxRadialExtent) + CurvePart(sim, target)
  }

  lemma SumTermFor(sim: FeatureDict, target: FeatureSet, k: Key)
    ensures Sum(TermFor(sim, target, k)) == Contribution(sim, target, k)
  {
    if k in sim.scalars {
      assert TermFor(sim, target, k)[..0] == [];
    }
  }

  /** The term list sums to the per-key contributions plus the curve part. */
  lemma LossDecomposes(sim: FeatureDict, target: FeatureSet)
    requires ValidTarget(target)
    requires sim.sholl.Some? ==> StrictlyIncreasing(sim.sholl.value.radii)
    requires Loss(sim, target).Success?
    ensures Loss(sim, target).value == Decomposed(sim, target)
  {
    var a := TermFor(sim, target, TotalLength);
    var b := TermFor(sim, target, NBifurcations);
    var c := TermFor(sim, target, NTips);
    var d := TermFor(sim, target, MaxTreeDepth);
    var e := TermFor(sim, target, MaxRadialExtent);
    SumAppend(a, b);
    SumAppend(a + b, c);
    SumAppend(a + b + c, d);
    SumAppend(a + b + c + d, e);
    SumTermFor(sim, target, TotalLength);
    SumTermFor(sim, target, NBifurcations);
    SumTermFor(sim, target, NTips);
    SumTermFor(sim, target, MaxTreeDepth);
    SumTermFor(sim, target, MaxRadialExtent);
    var scalars := ScalarTerms(sim, target);
    assert Sum(scalars) == Decomposed(sim, target) - CurvePart(sim, target);
    if sim.sholl.Some? {
      var ct := CurveTerm(sim.sholl.value, target);
      SumAppend(scalars, [ct]);
      assert Sum([ct]) == ct by {
        assert [ct][..0] == [];
      }
    }
  }

  /** Dropping a scalar key from the candidate removes exactly that key's term. */
  lemma DroppingKeyRemovesItsTerm(sim: FeatureDict, target: FeatureSet, k: Key)
    requires ValidTarget(target)
    requires sim.sholl.Some? ==> StrictlyIncreasing(sim.sholl.value.radii)
    requires Loss(sim, target).Success?
    ensures var dropped := sim.(scalars := sim.scalars - {k});
            && Loss(dropped, target).Success?
            && Loss(dropped, target).value == Loss(sim, target).value - Contribution(sim, target, k)
  {
    var dropped := sim.(scalars := sim.scalars - {k});
    LossDecomposes(sim, target);
    LossDecomposes(dropped, target);
    DifferOnlyAt(dropped, sim, target, k);
  }

  /** Two candidates that agree on the curve and on every scalar key but `k` differ in their
      decomposed loss by the difference of their contributions at `k`. */
  lemma DifferOnlyAt(a: FeatureDict, b: FeatureDict, target: FeatureSet, k: Key)
    requires ValidTarget(target) && a.sholl == b.sholl
    requires a.sholl.Some? ==> StrictlyIncreasing(a.sholl.value.radii)
    requires forall k' :: k' != k ==> Contribution(a, target, k') == Contribution(b, target, k')
    ensures Decomposed(b, target) - Decomposed(a, target)
         == Contribution(b, target, k) - Contribution(a, target, k)
  {
    assert CurvePart(a, target) == CurvePart(b, target);
    match k
    case TotalLength =>
    case NBifurcations =>
    case NTips =>
    case MaxTreeDepth =>
    case MaxRadialExtent =>
  }

  /** Without a "sholl" entry the loss is the scalar part alone. */
  lemma NoCurveNoCurveTerm(sim: FeatureDict, target: FeatureSet)
    requires ValidTarget(target) && sim.sholl.None?
    ensures Loss(sim, target).Success?
    ensures Loss(sim, target).value
         == Contribution(sim, target, TotalLength) + Contribution(sim, target, NBifurcations)
          + Contribution(sim, target, NTips) + Contribution(sim, target, MaxTreeDepth)
          + Contribution(sim, target, MaxRadialExtent)
  {
    LossDecomposes(sim, target);
  }

  /** (sqrt(m) / 50)^2 is m / 2500: the curve term needs no square root. */
  lemma CurveTermWithoutRoot(m: real, root: real)
    requires m >= 0.0 && root >= 0.0 && root * root == m
    ensures Sq(root / ShollScale) == m / (ShollScale * ShollScale)
  {
  }

  // ---------------------------------------------------------------------------
  // Zero loss
  // ---------------------------------------------------------------------------

  /** Whether the candidate curve, resampled onto the target radii, reproduces the target
      counts there. */
  predicate CurveMatches(c: Curve, target: FeatureSet)
    requires ValidTarget(target)
    requires |c.radii| >= 1 && |c.counts| == |c.radii| && StrictlyIncreasing(c.radii)
  {
    forall i :: 0 <= i < |target.sholl.radii| ==>
      Interp(target.sholl.radii[i], c.radii, ToReals(c.counts)) == target.sholl.counts[i] as real
  }

  lemma CurveTermZeroIff(c: Curve, target: FeatureSet)
    requires ValidTarget(target)
    requires |c.radii| >= 1 && |c.counts| == |c.radii| && StrictlyIncreasing(c.radii)
    ensures CurveTerm(c, target) == 0.0 <==> CurveMatches(c, target)
  {
    var ys := Resampled(c, target.sholl.radii);
    var errs := SquaredErrors(ys, target.sholl.counts);
    SumZeroIff(errs);
    var n := |errs| as real;
    assert Mean(errs) == Sum(errs) / n;
    if CurveTerm(c, target) == 0.0 {
      assert Sum(errs) / n == 0.0;
      assert Sum(errs) == 0.0 by {
        assert (Sum(errs) / n) * n == Sum(errs);
      }
    }
  }

  lemma KeyTermZeroIff(v: real, target: FeatureSet, k: Key)
    ensures KeyTerm(v, target, k) == 0.0 <==> v == Scalar(target, k)
  {
    var q := (v - Scalar(target, k)) / Scale(k);
    SqZeroIff(q);
    assert v - Scalar(target, k) == q * Scale(k);
  }

  /** The loss is zero exactly when every present scalar equals the target's and a present
      curve reproduces the target counts at the target radii. */
  lemma LossZeroIff(sim: FeatureDict, target: FeatureSet)
    requires ValidTarget(target)
    requires sim.sholl.Some? ==> StrictlyIncreasing(sim.sholl.value.radii)
    requires Loss(sim, target).Success?
    ensures Loss(sim, target).value == 0.0
        <==> (forall k :: k in sim.scalars ==> sim.scalars[k] == Scalar(target, k))
             && (sim.sholl.Some? ==> CurveMatches(sim.sholl.value, target))
  {
    LossDecomposes(sim, target);
    forall k | k in sim.scalars
      ensures Contribution(sim, target, k) == 0.0 <==> sim.scalars[k] == Scalar(target, k)
    {
      KeyTermZeroIff(sim.scalars[k], target, k);
    }
    if sim.sholl.Some? {
      CurveTermZeroIff(sim.sholl.value, target);
    }
    if Loss(sim, target).value == 0.0 {
      forall k | k in sim.scalars
        ensures sim.scalars[k] == Scalar(target, k)
      {
        assert Contribution(sim, target, k) == 0.0 by {
          match k
          case TotalLength =>
          case NBifurcations =>
          case NTips =>
          case MaxTreeDepth =>
          case MaxRadialExtent =>
        }
      }
    }
  }

  /** The target record scored against itself has loss exactly 0. */
  lemma LossOfTargetIsZero(target: FeatureSet)
    requires WellFormedCurve(target.sholl)
    ensures Loss(ToDict(target), target) == Success(0.0)
  {
    var d := ToDict(target);
    var c := target.sholl;
    forall i | 0 <= i < |c.radii|
      ensures Interp(c.radii[i], c.radii, ToReals(c.counts)) == c.counts[i] as real
    {
      InterpAtKnot(c.radii, ToReals(c.counts), i);
    }
    assert CurveMatches(c, target);
    LossZeroIff(d, target);
  }

  // ---------------------------------------------------------------------------
  // Monotonicity
  // ---------------------------------------------------------------------------

  lemma AbsDiv(a: real, s: real)
    requires s > 0.0
    ensures Abs(a / s) == Abs(a) / s
  {
    if a < 0.0 {
      assert a / s < 0.0;
      assert -(a / s) == (-a) / s;
    } else {
      assert a / s >= 0.0;
    }
  }

  lemma DivLess(a: real, b: real, s: real)
    requires a < b && s > 0.0
    ensures a / s < b / s
  {
    assert b / s - a / s == (b - a) / s;
  }

  lemma KeyTermGrows(v: real, w: real, target: FeatureSet, k: Key)
    requires Abs(v - Scalar(target, k)) < Abs(w - Scalar(target, k))
    ensures KeyTerm(v, target, k) < KeyTerm(w, target, k)
  {
    var s := Scale(k);
    var dv := v - Scalar(target, k);
    var dw := w - Scalar(target, k);
    AbsDiv(dv, s);
    AbsDiv(dw, s);
    DivLess(Abs(dv), Abs(dw), s);
    SquareGrows(dv / s, dw / s);
  }

  /** With everything else fixed, moving one present scalar further from its target value
      strictly increases the loss. */
  lemma LossGrowsWithDeviation(sim: FeatureDict, target: FeatureSet, k: Key, v: real, w: real)
    requires ValidTarget(target)
    requires sim.sholl.Some? ==> StrictlyIncreasing(sim.sholl.value.radii)
    requires Loss(sim, target).Success?
    requires Abs(v - Scalar(target, k)) < Abs(w - Scalar(target, k))
    ensures var near := sim.(scalars := sim.scalars[k := v]);
            var far := sim.(scalars := sim.scalars[k := w]);
            && Loss(near, target).Success? && Loss(far, target).Success?
            && Loss(near, target).value < Loss(far, target).value
  {
    var near := sim.(scalars := sim.scalars[k := v]);
    var far := sim.(scalars := sim.scalars[k := w]);
    ReplacedKeyContributions(sim, target, k, v, w);
    KeyTermGrows(v, w, target, k);
    DifferOnlyAt(near, far, target, k);
    LossDecomposes(near, target);
    LossDecomposes(far, target);
  }

  /** Giving key `k` the value v or w changes that key's contribution and no other. */
  lemma ReplacedKeyContributions(sim: FeatureDict, target: FeatureSet, k: Key, v: real, w: real)
    ensures var near := sim.(scalars := sim.scalars[k := v]);
            var far := sim.(scalars := sim.scalars[k := w]);
            && Contribution(near, target, k) == KeyTerm(v, target, k)
            && Contribution(far, target, k) == KeyTerm(w, target, k)
            && forall k' :: k' != k ==> Contribution(near, target, k') == Contribution(far, target, k')
  {
    var near := sim.(scalars := sim.scalars[k := v]);
    var far := sim.(scalars := sim.scalars[k := w]);
    forall k' | k' != k
      ensures Contribution(near, target, k') == Contribution(far, target, k')
    {
      assert (k' in near.scalars) == (k' in sim.scalars) == (k' in far.scalars);
      if k' in sim.scalars {
        assert near.scalars[k'] == sim.scalars[k'] == far.scalars[k'];
      }
    }
  }
}
