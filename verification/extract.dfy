/** extract_features of extract_features.py: the feature record of one reconstructed
    neuron, combining the dendrite-only Sholl analysis with statistics over every section. */
module Extract {
  import opened Reals
  import opened Features
  import opened Morphology
  import opened Sholl

  /** The reported extent always lies strictly inside the outermost Sholl sphere: the last
      radius is `step` when the extent is 0 and at least extent + step/2 otherwise. */
  lemma ExtentBelowLastRadius(maxR: real, step: real)
    requires step > 0.0 && maxR >= 0.0
    ensures var r := Radii(maxR, step); maxR < r[|r| - 1]
  {
    var r := Radii(maxR, step);
    if maxR <= 0.0 {
      assert r == [step];
    } else {
      assert r[|r| - 1] >= maxR + step / 2.0;
    }
  }

  /** total_len: the sum of the gathered segment lengths, 0.0 when there are none. */
  function TotalLength(segs: seq<real>): (t: real)
    ensures (forall i :: 0 <= i < |segs| ==> segs[i] >= 0.0) ==> t >= 0.0
    ensures |segs| == 0 ==> t == 0.0
  {
    if |segs| == 0 then 0.0 else TotalLengthNonNegative(segs); Sum(segs)
  }

  lemma TotalLengthNonNegative(segs: seq<real>)
    ensures (forall i :: 0 <= i < |segs| ==> segs[i] >= 0.0) ==> Sum(segs) >= 0.0
  {
    if forall i :: 0 <= i < |segs| ==> segs[i] >= 0.0 {
      SumNonNegative(segs);
    }
  }

  /** The statistics walk covers axons while the Sholl analysis and the extent use only the
      dendritic sections; the record carries the extent and the curve of the latter. */
  method ExtractFeatures(roots: seq<Section>) returns (f: FeatureSet)
    requires WellFormedForest(roots)
    ensures f.nTips == CountLeaves(AllSections(roots))
    ensures f.nBifurcations == CountBranching(AllSections(roots))
    ensures f.maxTreeDepth == MaxHeight(roots)
    ensures f.totalLength == TotalLength(AllSegmentLengths(AllSections(roots)))
    ensures f.totalLength >= 0.0
    ensures f.maxRadialExtent == MaxDistance(CollectRoots(roots, true))
    ensures f.sholl.radii == Radii(f.maxRadialExtent, StepUm)
    ensures WellFormedCurve(f.sholl)
    ensures forall j :: 0 <= j < |f.sholl.counts| ==>
              f.sholl.counts[j] == CurveCount(CollectRoots(roots, true), f.sholl.radii[j])
    ensures f.maxRadialExtent < f.sholl.radii[|f.sholl.radii| - 1]
  {
    var secs := CollectSections(roots, true);
    var st := TreeStatistics(roots);
    CollectRootsWellFormed(roots, false);
    var total := TotalLength(st.segLengths);
    var maxR := MaxDistance(secs);
    var curve := ShollCurve(secs, StepUm);
    ExtentBelowLastRadius(maxR, StepUm);
    f := FeatureSet(total, st.nBifurcations, st.nTips, st.maxDepth, maxR, curve);
  }
}
