/** sholl_curve of extract_features.py: the radii of the concentric spheres and, for each,
    the number of section segments that cross it. Distances to the soma centre are taken
    from the sections' point data. */
module Sholl {
  import opened Reals
  import opened Features
  import opened Morphology

  /** EPS, the absolute tolerance passed to np.isclose. */
  const Eps: real := 0.000001
  /** np.isclose's default relative tolerance, which the call leaves in place. */
  const RTol: real := 0.00001
  /** STEP_UM, the default spacing of the radii. */
  const StepUm: real := 10.0

  // ---------------------------------------------------------------------------
  // Radii
  // ---------------------------------------------------------------------------

  /** The least integer not below `x` (np.ceil). */
  function Ceil(x: real): (c: int)
    ensures (c - 1) as real < x <= c as real
  {
    if x == x.Floor as real then x.Floor else x.Floor + 1
  }

  lemma MulLess(a: real, b: real, c: real)
    requires a < b && c > 0.0
    ensures a * c < b * c
  {
    var d := b - a;
    MulPositive(d, c);
    assert d * c == b * c - a * c;
  }

  lemma MulAtLeast(a: real, b: real, c: real)
    requires a <= b && c > 0.0
    ensures a * c <= b * c
  {
    if a < b {
      MulLess(a, b, c);
    }
  }

  /** The length np.arange gives: ceil((stop - start) / step), or 0 when that is negative.
      The last value start + (n-1)*step lies below `stop` and the next would not. */
  function ArangeLength(start: real, stop: real, step: real): (n: nat)
    requires step > 0.0
    ensures n == 0 || start + (n - 1) as real * step < stop
    ensures start + n as real * step >= stop
  {
    var q := (stop - start) / step;
    var n := if Ceil(q) <= 0 then 0 else Ceil(q);
    ArangeLengthBounds(start, stop, step, q, n);
    n
  }

  lemma ArangeLengthBounds(start: real, stop: real, step: real, q: real, n: nat)
    requires step > 0.0 && q == (stop - start) / step
    requires n == if Ceil(q) <= 0 then 0 else Ceil(q)
    ensures n == 0 || start + (n - 1) as real * step < stop
    ensures start + n as real * step >= stop
  {
    var c := Ceil(q);
    assert q * step == stop - start;
    assert (c - 1) as real < q <= c as real;
    if n == 0 {
      assert q <= 0.0;
      MulAtLeast(q, 0.0, step);
    } else {
      var nr := n as real;
      assert nr == c as real;
      assert (nr - 1.0) < q <= nr;
      MulLess(nr - 1.0, q, step);
      MulAtLeast(q, nr, step);
      assert q * step <= nr * step;
      assert (nr - 1.0) * step < q * step;
      assert (n - 1) as real == nr - 1.0;
      assert stop - start <= nr * step;
      assert start + nr * step >= stop;
    }
  }

  /** The i-th value of np.arange(start, _, step). */
  function ArangeAt(start: real, step: real, i: nat): real
  {
    start + i as real * step
  }

  /** np.arange(start, stop, step) for a positive step: the values start, start + step, ...
      that lie below `stop`, where the next one would not. */
  function Arange(start: real, stop: real, step: real): (r: seq<real>)
    requires step > 0.0
    ensures forall i :: 0 <= i < |r| ==> r[i] == start + i as real * step
    ensures forall i :: 0 <= i < |r| ==> r[i] < stop
    ensures start + |r| as real * step >= stop
  {
    var n := ArangeLength(start, stop, step);
    AllBelowLast(start, stop, step, n);
    seq(n, i requires 0 <= i < n => ArangeAt(start, step, i))
  }

  /** Every value before the last one of np.arange lies below the last, hence below `stop`. */
  lemma AllBelowLast(start: real, stop: real, step: real, n: nat)
    requires step > 0.0 && (n == 0 || start + (n - 1) as real * step < stop)
    ensures forall i: nat :: i < n ==> ArangeAt(start, step, i) < stop
  {
    forall i: nat | i < n
      ensures ArangeAt(start, step, i) < stop
    {
      MulAtLeast(i as real, (n - 1) as real, step);
    }
  }

  /** The Sholl radii for an observed extent `maxR`: step, 2*step, ... below
      ceil(maxR + step) + step/2, or the single radius `step` when nothing lies off-centre. */
  function Radii(maxR: real, step: real): (r: seq<real>)
    requires step > 0.0
    ensures |r| >= 1 && r[0] == step
    ensures forall i :: 0 < i < |r| ==> r[i] == r[i - 1] + step
    ensures StrictlyIncreasing(r)
    ensures maxR <= 0.0 ==> r == [step]
    ensures maxR > 0.0 ==> r[|r| - 1] >= maxR + step / 2.0
  {
    var stop := if maxR <= 0.0 then step + step else Ceil(maxR + step) as real + step / 2.0;
    var r := Arange(step, stop, step);
    RadiiNonEmpty(maxR, step, stop, r);
    ArangeIncreasing(step, stop, step);
    if maxR <= 0.0 then
      RadiiDegenerate(step, r);
      r
    else
      RadiiCoverExtent(maxR, step, r);
      r
  }

  lemma RadiiNonEmpty(maxR: real, step: real, stop: real, r: seq<real>)
    requires step > 0.0
    requires stop == if maxR <= 0.0 then step + step else Ceil(maxR + step) as real + step / 2.0
    requires r == Arange(step, stop, step)
    ensures |r| >= 1 && r[0] == step
  {
  }

  lemma ArangeIncreasing(start: real, stop: real, step: real)
    requires step > 0.0
    ensures var r := Arange(start, stop, step);
            && StrictlyIncreasing(r)
            && forall i :: 0 < i < |r| ==> r[i] == r[i - 1] + step
  {
    var r := Arange(start, stop, step);
    forall i, j | 0 <= i < j < |r|
      ensures r[i] < r[j]
    {
      AtLess(start, step, i, j);
    }
    forall i | 0 < i < |r|
      ensures r[i] == r[i - 1] + step
    {
      AtNext(start, step, i - 1);
    }
  }

  /** Later values of np.arange are larger. */
  lemma AtLess(start: real, step: real, i: nat, j: nat)
    requires i < j && step > 0.0
    ensures ArangeAt(start, step, i) < ArangeAt(start, step, j)
  {
    MulLess(i as real, j as real, step);
  }

  /** Consecutive values of np.arange are one step apart. */
  lemma AtNext(start: real, step: real, k: nat)
    ensures ArangeAt(start, step, k + 1) == ArangeAt(start, step, k) + step
  {
    var a := k as real;
    assert (k + 1) as real == a + 1.0;
    assert (a + 1.0) * step == a * step + 1.0 * step;
  }

  lemma RadiiDegenerate(step: real, r: seq<real>)
    requires step > 0.0 && r == Arange(step, step + step, step) && |r| >= 1
    ensures r == [step]
  {
  }

  lemma RadiiCoverExtent(maxR: real, step: real, r: seq<real>)
    requires step > 0.0 && maxR > 0.0
    requires r == Arange(step, Ceil(maxR + step) as real + step / 2.0, step) && |r| >= 1
    ensures r[|r| - 1] >= maxR + step / 2.0
  {
    var n := |r|;
    assert step + n as real * step >= Ceil(maxR + step) as real + step / 2.0;
    assert r[n - 1] == step + (n - 1) as real * step;
  }

  // ---------------------------------------------------------------------------
  // The crossing rule
  // ---------------------------------------------------------------------------

  /** np.sign. */
  function Sign(x: real): int
  {
    if x > 0.0 then 1 else if x < 0.0 then -1 else 0
  }

  /** np.isclose(d, r, atol=EPS): |d - r| <= atol + rtol * |r|. */
  predicate Touches(d: real, r: real)
  {
    Abs(d - r) <= Eps + RTol * Abs(r)
  }

  /** Whether the segment between points at distances d1 and d2 adds one to the count of
      the sphere of radius r: `sign_change | (touches & ~touches_both & opposite)`. */
  predicate Crosses(d1: real, d2: real, r: real)
  {
    var signChange := Sign(d1 - r) * Sign(d2 - r) < 0;
    var c1 := Touches(d1, r);
    var c2 := Touches(d2, r);
    var opposite := (d1 < r) != (d2 < r);
    signChange || ((c1 || c2) && !(c1 && c2) && opposite)
  }

  /** The rule in plain terms: a segment counts exactly when one endpoint lies strictly
      inside the sphere and the other does not, except when the outer endpoint lies exactly
      on the sphere while both endpoints are within tolerance of it. */
  lemma CrossesIff(d1: real, d2: real, r: real)
    ensures Crosses(d1, d2, r)
        <==> (d1 < r) != (d2 < r) && !(Max(d1, d2) == r && Touches(d1, r) && Touches(d2, r))
  {
    if d1 < r && d2 > r {
      assert Sign(d1 - r) * Sign(d2 - r) == -1;
    } else if d2 < r && d1 > r {
      assert Sign(d1 - r) * Sign(d2 - r) == -1;
    } else {
      assert Sign(d1 - r) * Sign(d2 - r) >= 0;
    }
  }

  /** The rule does not depend on the direction a segment is traversed in. */
  lemma CrossesSymmetric(d1: real, d2: real, r: real)
    ensures Crosses(d1, d2, r) == Crosses(d2, d1, r)
  {
    CrossesIff(d1, d2, r);
    CrossesIff(d2, d1, r);
  }

  /** A segment whose endpoints lie on either side of the sphere always counts; a segment
      with both endpoints at or beyond the sphere, or both inside it, never does. */
  lemma CrossesOnlyBetweenSides(d1: real, d2: real, r: real)
    ensures (d1 < r < d2 || d2 < r < d1) ==> Crosses(d1, d2, r)
    ensures (d1 >= r && d2 >= r) ==> !Crosses(d1, d2, r)
    ensures (d1 < r && d2 < r) ==> !Crosses(d1, d2, r)
  {
    CrossesIff(d1, d2, r);
  }

  /** A single segment running outward from the soma centre to distance L counts at every
      radius up to and including L, and at none beyond it. */
  lemma OutwardSegment(len: real, r: real)
    requires len >= 0.0 && r > 2.0 * Eps
    ensures Crosses(0.0, len, r) <==> r <= len
  {
    CrossesIff(0.0, len, r);
    assert !Touches(0.0, r);
  }

  // ---------------------------------------------------------------------------
  // Counting
  // ---------------------------------------------------------------------------

  function Hit(d1: real, d2: real, r: real): nat
  {
    if Crosses(d1, d2, r) then 1 else 0
  }

  /** Crossings of radius r among the first n segments of a polyline with point distances d;
      each segment adds at most one. */
  function CrossingsUpTo(d: seq<real>, n: nat, r: real): (c: nat)
    requires n == 0 || n < |d|
    ensures c <= n
  {
    if n == 0 then 0 else CrossingsUpTo(d, n - 1, r) + Hit(d[n - 1], d[n], r)
  }

  /** Number of segments of a section: one fewer than its points, none below two points. */
  function Segments(d: seq<real>): nat
  {
    if |d| < 2 then 0 else |d| - 1
  }

  /** The contribution of one section to the count at radius r. */
  function SectionCrossings(d: seq<real>, r: real): (c: nat)
    ensures c <= Segments(d)
    ensures |d| < 2 ==> c == 0
  {
    if |d| < 2 then 0 else CrossingsUpTo(d, |d| - 1, r)
  }

  /** The count at radius r over a list of sections. */
  function CurveCount(secs: seq<Section>, r: real): (c: nat)
    ensures c <= SegmentTotal(secs)
  {
    if |secs| == 0 then 0
    else CurveCount(secs[..|secs| - 1], r) + SectionCrossings(secs[|secs| - 1].dists, r)
  }

  /** The number of segments over all sections. */
  function SegmentTotal(secs: seq<Section>): nat
  {
    if |secs| == 0 then 0 else SegmentTotal(secs[..|secs| - 1]) + Segments(secs[|secs| - 1].dists)
  }

  // ---------------------------------------------------------------------------
  // Extent
  // ---------------------------------------------------------------------------

  /** max_r: the largest distance of any point to the soma centre, starting from 0. */
  function MaxDistance(secs: seq<Section>): (m: real)
    ensures m >= 0.0
    ensures forall k, i :: 0 <= k < |secs| && 0 <= i < |secs[k].dists| ==> secs[k].dists[i] <= m
    ensures m == 0.0 || exists k, i :: 0 <= k < |secs| && 0 <= i < |secs[k].dists| && secs[k].dists[i] == m
  {
    if |secs| == 0 then 0.0
    else
      var init := secs[..|secs| - 1];
      var d := secs[|secs| - 1].dists;
      var m' := MaxDistance(init);
      assert forall k :: 0 <= k < |init| ==> init[k] == secs[k];
      if |d| == 0 then m' else Max(m', Maximum(d))
  }

  // ---------------------------------------------------------------------------
  // sholl_curve
  // ---------------------------------------------------------------------------

  /** `counts += (...).astype(int)` for one segment. */
  function AddHits(counts: seq<int>, d1: real, d2: real, radii: seq<real>): (r: seq<int>)
    requires |counts| == |radii|
    ensures |r| == |radii|
    ensures forall j :: 0 <= j < |radii| ==> r[j] == counts[j] + Hit(d1, d2, radii[j])
    ensures forall j :: 0 <= j < |radii| ==> counts[j] <= r[j] <= counts[j] + 1
    ensures forall j :: 0 <= j < |radii| ==> (r[j] == counts[j] + 1 <==> Crosses(d1, d2, radii[j]))
  {
    seq(|radii|, j requires 0 <= j < |radii| => counts[j] + Hit(d1, d2, radii[j]))
  }

  /** The inner loop of sholl_curve for one section: every segment adds its hits to the
      counts, so each count grows by the section's crossings of its radius. */
  method AddSection(counts: seq<int>, d: seq<real>, radii: seq<real>) returns (out: seq<int>)
    requires |counts| == |radii|
    ensures |out| == |radii|
    ensures forall j :: 0 <= j < |radii| ==> out[j] == counts[j] + SectionCrossings(d, radii[j])
  {
    out := counts;
    if |d| >= 2 {
      var i := 0;
      while i < |d| - 1
        invariant 0 <= i <= |d| - 1
        invariant |out| == |radii|
        invariant forall j :: 0 <= j < |radii| ==> out[j] == counts[j] + CrossingsUpTo(d, i, radii[j])
      {
        out := AddHits(out, d[i], d[i + 1], radii);
        i := i + 1;
      }
    }
  }

  /** sholl_curve: the radii for the sections' extent, and for every radius the number of
      segments, over all sections, that cross it. */
  method ShollCurve(sections: seq<Section>, step: real) returns (c: Curve)
    requires step > 0.0
    ensures c.radii == Radii(MaxDistance(sections), step)
    ensures |c.counts| == |c.radii|
    ensures forall j :: 0 <= j < |c.counts| ==> c.counts[j] == CurveCount(sections, c.radii[j])
    ensures forall j :: 0 <= j < |c.counts| ==> 0 <= c.counts[j] <= SegmentTotal(sections)
    ensures WellFormedCurve(c)
  {
    var maxR := MaxDistance(sections);
    var radii := Radii(maxR, step);
    var counts := seq(|radii|, j => 0);
    var si := 0;
    while si < |sections|
      invariant 0 <= si <= |sections|
      invariant |counts| == |radii|
      invariant forall j :: 0 <= j < |radii| ==> counts[j] == CurveCount(sections[..si], radii[j])
    {
      assert sections[..si + 1][..si] == sections[..si];
      counts := AddSection(counts, sections[si].dists, radii);
      si := si + 1;
    }
    assert sections[..si] == sections;
    c := Curve(radii, counts);
  }

  // ---------------------------------------------------------------------------
  // Properties of the counts
  // ---------------------------------------------------------------------------

  /** The point sequence in reverse order. */
  function Reverse(d: seq<real>): (e: seq<real>)
    ensures |e| == |d| && forall i :: 0 <= i < |d| ==> e[i] == d[|d| - 1 - i]
  {
    seq(|d|, i requires 0 <= i < |d| => d[|d| - 1 - i])
  }

  /** The first m segments of the reversed polyline are the last m segments of the original. */
  lemma {:induction false} ReversedPrefix(d: seq<real>, m: nat, r: real)
    requires |d| >= 2 && m <= |d| - 1
    ensures CrossingsUpTo(Reverse(d), m, r) + CrossingsUpTo(d, |d| - 1 - m, r)
         == CrossingsUpTo(d, |d| - 1, r)
  {
    if m > 0 {
      var n := |d|;
      var e := Reverse(d);
      ReversedPrefix(d, m - 1, r);
      assert e[m - 1] == d[n - m] && e[m] == d[n - 1 - m];
      CrossesSymmetric(d[n - 1 - m], d[n - m], r);
    }
  }

  /** Reversing the point order of a section leaves its crossing count unchanged. */
  lemma ReversedSectionCrossings(d: seq<real>, r: real)
    ensures SectionCrossings(Reverse(d), r) == SectionCrossings(d, r)
  {
    if |d| >= 2 {
      ReversedPrefix(d, |d| - 1, r);
    }
  }

  /** Reversing the point order of any one section leaves the whole count unchanged. */
  lemma {:induction false} ReversingSectionKeepsCount(secs: seq<Section>, k: nat, r: real)
    requires k < |secs|
    ensures CurveCount(secs[k := secs[k].(dists := Reverse(secs[k].dists))], r) == CurveCount(secs, r)
  {
    var secs' := secs[k := secs[k].(dists := Reverse(secs[k].dists))];
    var n := |secs|;
    if k == n - 1 {
      assert secs'[..n - 1] == secs[..n - 1];
      ReversedSectionCrossings(secs[k].dists, r);
    } else {
      assert secs'[..n - 1] == secs[..n - 1][k := secs[k].(dists := Reverse(secs[k].dists))];
      ReversingSectionKeepsCount(secs[..n - 1], k, r);
    }
  }

  /** A polyline that stays clear of the tolerance band around the sphere crosses it an odd
      number of times exactly when its first and last points lie on different sides. */
  lemma {:induction false} CrossingParity(d: seq<real>, n: nat, r: real)
    requires n < |d|
    requires forall i :: 0 <= i <= n ==> !Touches(d[i], r)
    ensures CrossingsUpTo(d, n, r) % 2 == if (d[0] < r) != (d[n] < r) then 1 else 0
  {
    if n > 0 {
      CrossingParity(d, n - 1, r);
      CrossesIff(d[n - 1], d[n], r);
    }
  }

  /** A polyline from well inside the sphere (0), through a point just inside and within
      tolerance (10 - 1e-7), to a point exactly on it (10) and on to well outside (20)
      records no crossing of the sphere of radius 10: the within-tolerance inner point
      suppresses the crossing at the exact one. */
  lemma ToleranceBandHidesCrossing()
    ensures SectionCrossings([0.0, 9.9999999, 10.0, 20.0], 10.0) == 0
  {
    var d := [0.0, 9.9999999, 10.0, 20.0];
    assert !Crosses(d[0], d[1], 10.0);
    assert Touches(d[1], 10.0) && Touches(d[2], 10.0);
    assert !Crosses(d[1], d[2], 10.0);
    assert !Crosses(d[2], d[3], 10.0);
  }

  /** With every point at the centre (extent 0), there is one radius, `step`, and nothing
      crosses it. */
  lemma {:induction false} DegenerateStructure(secs: seq<Section>, step: real)
    requires step > 0.0
    requires forall k :: 0 <= k < |secs| ==> WellFormed(secs[k])
    requires MaxDistance(secs) <= 0.0
    ensures Radii(MaxDistance(secs), step) == [step]
    ensures CurveCount(secs, step) == 0
  {
    if |secs| > 0 {
      var init := secs[..|secs| - 1];
      assert forall k :: 0 <= k < |init| ==> init[k] == secs[k];
      assert MaxDistance(init) <= 0.0;
      DegenerateStructure(init, step);
      var d := secs[|secs| - 1].dists;
      forall i | 0 <= i < |d|
        ensures d[i] == 0.0
      {
        assert d[i] <= MaxDistance(secs);
      }
      AllInsideNoCrossing(d, |d| - 1, step);
    }
  }

  lemma {:induction false} AllInsideNoCrossing(d: seq<real>, n: int, r: real)
    requires n == -1 || n < |d|
    requires forall i :: 0 <= i < |d| ==> d[i] < r
    ensures n >= 0 ==> CrossingsUpTo(d, n, r) == 0
  {
    if n > 0 {
      AllInsideNoCrossing(d, n - 1, r);
      CrossesOnlyBetweenSides(d[n - 1], d[n], r);
    }
  }
}
