/** The neurite tree that extract_features.py walks: sections linked to their children,
    each carrying its points. Point coordinates are abstracted to the two quantities the
    extractor derives from them: the distance of every point to the soma centre and the
    length of every segment between consecutive points. */
module Morphology {

  /** morphio's section types; only `Axon` is treated specially. */
  datatype SectionType = Undefined | Soma | Axon | BasalDendrite | ApicalDendrite | Custom

  /** `dists[i]` is the distance of point i to the soma centre and `gaps[i]` the length of
      the segment from point i to point i+1. */
  datatype Section = Section(kind: SectionType, dists: seq<real>, gaps: seq<real>, children: seq<Section>)

  /** What Euclidean norms guarantee about the point data of one section. */
  predicate WellFormed(s: Section)
  {
    && (forall i :: 0 <= i < |s.dists| ==> s.dists[i] >= 0.0)
    && (forall i :: 0 <= i < |s.gaps| ==> s.gaps[i] >= 0.0)
    && |s.gaps| == (if |s.dists| < 2 then 0 else |s.dists| - 1)
  }

  /** Every section of the tree rooted at `s` is well formed. */
  predicate WellFormedTree(s: Section)
    decreases s
  {
    WellFormed(s) && forall c :: c in s.children ==> WellFormedTree(c)
  }

  predicate WellFormedForest(roots: seq<Section>)
  {
    forall r :: r in roots ==> WellFormedTree(r)
  }

  /** segment_lengths: the lengths of the segments between consecutive points. */
  function SegmentLengths(s: Section): (r: seq<real>)
    ensures |s.dists| < 2 ==> r == []
    ensures WellFormed(s) ==> |r| == (if |s.dists| < 2 then 0 else |s.dists| - 1)
    ensures WellFormed(s) ==> forall i :: 0 <= i < |r| ==> r[i] >= 0.0
  {
    if |s.dists| < 2 then [] else s.gaps
  }

  // ---------------------------------------------------------------------------
  // Sizes (termination measure of the stack walks)
  // ---------------------------------------------------------------------------

  /** Number of sections in the tree rooted at `s`. */
  function Size(s: Section): nat
    decreases s, 1
  {
    1 + SizeForest(s.children)
  }

  function SizeForest(cs: seq<Section>): nat
    decreases cs, 0
  {
    if |cs| == 0 then 0 else SizeForest(cs[..|cs| - 1]) + Size(cs[|cs| - 1])
  }

  lemma {:induction false} SizeForestAppend(a: seq<Section>, b: seq<Section>)
    ensures SizeForest(a + b) == SizeForest(a) + SizeForest(b)
    decreases |b|
  {
    if |b| == 0 {
      assert a + b == a;
    } else {
      var b' := b[..|b| - 1];
      assert (a + b)[..|a + b| - 1] == a + b';
      SizeForestAppend(a, b');
    }
  }

  // ---------------------------------------------------------------------------
  // collect_sections
  // ---------------------------------------------------------------------------

  /** The `keep` test: with `dendritesOnly`, axon sections are dropped. */
  predicate Keep(s: Section, dendritesOnly: bool)
  {
    !(dendritesOnly && s.kind == Axon)
  }

  /** The sections the stack walk emits for the subtree at `s`, in emission order:
      `s` itself, then its children's subtrees last child first (the stack pops the child
      pushed last). A dropped section hides its whole subtree. */
  function Collect(s: Section, dendritesOnly: bool): seq<Section>
    decreases s, 1
  {
    if !Keep(s, dendritesOnly) then [] else [s] + CollectStack(s.children, dendritesOnly)
  }

  /** What the walk emits from a stack whose top is the last element. */
  function CollectStack(stack: seq<Section>, dendritesOnly: bool): seq<Section>
    decreases stack, 0
  {
    if |stack| == 0 then []
    else Collect(stack[|stack| - 1], dendritesOnly) + CollectStack(stack[..|stack| - 1], dendritesOnly)
  }

  /** collect_sections over all root sections, in root order. */
  function CollectRoots(roots: seq<Section>, dendritesOnly: bool): seq<Section>
  {
    if |roots| == 0 then []
    else CollectRoots(roots[..|roots| - 1], dendritesOnly) + Collect(roots[|roots| - 1], dendritesOnly)
  }

  /** Pushing `b` on top of `a` emits `b`'s sections first. */
  lemma {:induction false} CollectStackAppend(a: seq<Section>, b: seq<Section>, dendritesOnly: bool)
    ensures CollectStack(a + b, dendritesOnly) == CollectStack(b, dendritesOnly) + CollectStack(a, dendritesOnly)
    decreases |b|
  {
    if |b| == 0 {
      assert a + b == a;
    } else {
      var b' := b[..|b| - 1];
      assert (a + b)[..|a + b| - 1] == a + b';
      assert (a + b)[|a + b| - 1] == b[|b| - 1];
      CollectStackAppend(a, b', dendritesOnly);
    }
  }

  /** collect_sections: a depth-first walk per root with an explicit stack. */
  method CollectSections(roots: seq<Section>, dendritesOnly: bool) returns (secs: seq<Section>)
    ensures secs == CollectRoots(roots, dendritesOnly)
  {
    secs := [];
    var ri := 0;
    while ri < |roots|
      invariant 0 <= ri <= |roots|
      invariant secs == CollectRoots(roots[..ri], dendritesOnly)
    {
      var root := roots[ri];
      assert roots[..ri + 1][..ri] == roots[..ri];
      if Keep(root, dendritesOnly) {
        secs := WalkKept(root, dendritesOnly, secs);
      }
      ri := ri + 1;
    }
    assert roots[..ri] == roots;
  }

  /** The inner loop of collect_sections for one kept root: pop a section, skip it (and so
      its subtree) when it is not kept, otherwise append it and push its children. */
  method WalkKept(root: Section, dendritesOnly: bool, secs: seq<Section>) returns (out: seq<Section>)
    requires Keep(root, dendritesOnly)
    ensures out == secs + Collect(root, dendritesOnly)
  {
    out := secs;
    var stack := [root];
    assert CollectStack(stack, dendritesOnly) == Collect(root, dendritesOnly) by {
      assert stack[..0] == [];
    }
    while |stack| > 0
      invariant out + CollectStack(stack, dendritesOnly) == secs + Collect(root, dendritesOnly)
      decreases SizeForest(stack)
    {
      var s := stack[|stack| - 1];
      if Keep(s, dendritesOnly) {
        PopKept(stack, dendritesOnly);
        out := out + [s];
        stack := stack[..|stack| - 1] + s.children;
      } else {
        PopDropped(stack, dendritesOnly);
        stack := stack[..|stack| - 1];
      }
    }
  }

  /** Popping a kept section emits it and then its children's subtrees, and the stack's
      size drops. */
  lemma PopKept(stack: seq<Section>, dendritesOnly: bool)
    requires |stack| > 0 && Keep(stack[|stack| - 1], dendritesOnly)
    ensures var s, rest := stack[|stack| - 1], stack[..|stack| - 1];
            && CollectStack(stack, dendritesOnly) == [s] + CollectStack(rest + s.children, dendritesOnly)
            && SizeForest(rest + s.children) < SizeForest(stack)
  {
    var s, rest := stack[|stack| - 1], stack[..|stack| - 1];
    CollectStackAppend(rest, s.children, dendritesOnly);
    SizeForestAppend(rest, s.children);
  }

  /** Popping a dropped section emits nothing of its subtree, and the stack's size drops. */
  lemma PopDropped(stack: seq<Section>, dendritesOnly: bool)
    requires |stack| > 0 && !Keep(stack[|stack| - 1], dendritesOnly)
    ensures var rest := stack[..|stack| - 1];
            && CollectStack(stack, dendritesOnly) == CollectStack(rest, dendritesOnly)
            && SizeForest(rest) < SizeForest(stack)
  {
  }

  // ---------------------------------------------------------------------------
  // What collect_sections returns, independently of the walk order
  // ---------------------------------------------------------------------------

  /** The kept sections of the subtree at `s` in plain pre-order, each once: the subtree is
      pruned at the first dropped section. */
  function Kept(s: Section, dendritesOnly: bool): multiset<Section>
    decreases s, 1
  {
    if !Keep(s, dendritesOnly) then multiset{} else multiset{s} + KeptForest(s.children, dendritesOnly)
  }

  function KeptForest(cs: seq<Section>, dendritesOnly: bool): multiset<Section>
    decreases cs, 0
  {
    if |cs| == 0 then multiset{} else Kept(cs[0], dendritesOnly) + KeptForest(cs[1..], dendritesOnly)
  }

  lemma {:induction false} KeptForestSnoc(cs: seq<Section>, dendritesOnly: bool)
    requires |cs| > 0
    ensures KeptForest(cs, dendritesOnly)
         == KeptForest(cs[..|cs| - 1], dendritesOnly) + Kept(cs[|cs| - 1], dendritesOnly)
    decreases |cs|
  {
    if |cs| > 1 {
      var tail := cs[1..];
      assert tail[..|tail| - 1] == cs[..|cs| - 1][1..];
      KeptForestSnoc(tail, dendritesOnly);
    }
  }

  lemma {:induction false} CollectIsKept(s: Section, dendritesOnly: bool)
    ensures multiset(Collect(s, dendritesOnly)) == Kept(s, dendritesOnly)
    decreases s, 1
  {
    if Keep(s, dendritesOnly) {
      CollectStackIsKept(s.children, dendritesOnly);
    }
  }

  lemma {:induction false} CollectStackIsKept(stack: seq<Section>, dendritesOnly: bool)
    ensures multiset(CollectStack(stack, dendritesOnly)) == KeptForest(stack, dendritesOnly)
    decreases stack, 0
  {
    if |stack| > 0 {
      CollectIsKept(stack[|stack| - 1], dendritesOnly);
      CollectStackIsKept(stack[..|stack| - 1], dendritesOnly);
      KeptForestSnoc(stack, dendritesOnly);
    }
  }

  /** collect_sections returns each kept section exactly as often as it occurs in the
      pruned trees: nothing below a dropped section, nothing twice, nothing missed. */
  lemma {:induction false} CollectRootsIsKept(roots: seq<Section>, dendritesOnly: bool)
    ensures multiset(CollectRoots(roots, dendritesOnly)) == KeptForest(roots, dendritesOnly)
  {
    if |roots| > 0 {
      CollectRootsIsKept(roots[..|roots| - 1], dendritesOnly);
      CollectIsKept(roots[|roots| - 1], dendritesOnly);
      KeptForestSnoc(roots, dendritesOnly);
    }
  }

  lemma {:induction false} CollectNoAxonSubtree(s: Section)
    ensures forall x :: x in Collect(s, true) ==> x.kind != Axon
    decreases s, 1
  {
    if Keep(s, true) {
      CollectStackNoAxon(s.children);
    }
  }

  lemma {:induction false} CollectStackNoAxon(stack: seq<Section>)
    ensures forall x :: x in CollectStack(stack, true) ==> x.kind != Axon
    decreases stack, 0
  {
    if |stack| > 0 {
      CollectNoAxonSubtree(stack[|stack| - 1]);
      CollectStackNoAxon(stack[..|stack| - 1]);
    }
  }

  /** With `dendritesOnly`, no axon section is ever returned. */
  lemma {:induction false} CollectRootsNoAxon(roots: seq<Section>)
    ensures forall x :: x in CollectRoots(roots, true) ==> x.kind != Axon
  {
    if |roots| > 0 {
      CollectRootsNoAxon(roots[..|roots| - 1]);
      CollectNoAxonSubtree(roots[|roots| - 1]);
    }
  }

  lemma {:induction false} CollectAllSize(s: Section)
    ensures |Collect(s, false)| == Size(s)
    decreases s, 1
  {
    CollectStackAllSize(s.children);
  }

  lemma {:induction false} CollectStackAllSize(stack: seq<Section>)
    ensures |CollectStack(stack, false)| == SizeForest(stack)
    decreases stack, 0
  {
    if |stack| > 0 {
      CollectAllSize(stack[|stack| - 1]);
      CollectStackAllSize(stack[..|stack| - 1]);
    }
  }

  lemma {:induction false} CollectWellFormed(s: Section, dendritesOnly: bool)
    requires WellFormedTree(s)
    ensures forall x :: x in Collect(s, dendritesOnly) ==> WellFormed(x)
    decreases s, 1
  {
    if Keep(s, dendritesOnly) {
      CollectStackWellFormed(s.children, dendritesOnly);
    }
  }

  lemma {:induction false} CollectStackWellFormed(stack: seq<Section>, dendritesOnly: bool)
    requires forall c :: c in stack ==> WellFormedTree(c)
    ensures forall x :: x in CollectStack(stack, dendritesOnly) ==> WellFormed(x)
    decreases stack, 0
  {
    if |stack| > 0 {
      CollectWellFormed(stack[|stack| - 1], dendritesOnly);
      CollectStackWellFormed(stack[..|stack| - 1], dendritesOnly);
    }
  }

  /** Every section collect_sections returns comes from a well-formed tree, so is well formed. */
  lemma {:induction false} CollectRootsWellFormed(roots: seq<Section>, dendritesOnly: bool)
    requires WellFormedForest(roots)
    ensures forall x :: x in CollectRoots(roots, dendritesOnly) ==> WellFormed(x)
  {
    if |roots| > 0 {
      CollectRootsWellFormed(roots[..|roots| - 1], dendritesOnly);
      CollectWellFormed(roots[|roots| - 1], dendritesOnly);
    }
  }

  // ---------------------------------------------------------------------------
  // Tree statistics (extract_features, lines 74-92)
  // ---------------------------------------------------------------------------

  /** Every section of every root, axons included, in the order the statistics loop pops
      them (that loop and collect_sections use the same stack discipline). */
  function AllSections(roots: seq<Section>): seq<Section>
  {
    CollectRoots(roots, false)
  }

  /** Number of sections without children. */
  function CountLeaves(xs: seq<Section>): nat
  {
    if |xs| == 0 then 0
    else CountLeaves(xs[..|xs| - 1]) + (if |xs[|xs| - 1].children| == 0 then 1 else 0)
  }

  /** Number of sections with at least two children. */
  function CountBranching(xs: seq<Section>): nat
  {
    if |xs| == 0 then 0
    else CountBranching(xs[..|xs| - 1]) + (if |xs[|xs| - 1].children| >= 2 then 1 else 0)
  }

  /** The concatenated segment lengths of the given sections. */
  function AllSegmentLengths(xs: seq<Section>): (r: seq<real>)
    ensures (forall i :: 0 <= i < |xs| ==> WellFormed(xs[i])) ==> forall j :: 0 <= j < |r| ==> r[j] >= 0.0
  {
    if |xs| == 0 then []
    else
      var init := xs[..|xs| - 1];
      assert forall i :: 0 <= i < |init| ==> init[i] == xs[i];
      AllSegmentLengths(init) + SegmentLengths(xs[|xs| - 1])
  }

  function MaxNat(a: nat, b: nat): nat
  {
    if a >= b then a else b
  }

  /** Edge count of the longest downward path from `s`; a leaf has height 0. */
  function Height(s: Section): nat
    decreases s, 1
  {
    if |s.children| == 0 then 0 else 1 + MaxHeight(s.children)
  }

  /** The largest height among `cs`, 0 for none. */
  function MaxHeight(cs: seq<Section>): nat
    decreases cs, 0
  {
    if |cs| == 0 then 0 else MaxNat(MaxHeight(cs[..|cs| - 1]), Height(cs[|cs| - 1]))
  }

  /** A stack entry of the statistics loop: a section and its depth below its root. */
  datatype Frame = Frame(sec: Section, depth: nat)

  function Secs(stack: seq<Frame>): (r: seq<Section>)
    ensures |r| == |stack| && forall i :: 0 <= i < |stack| ==> r[i] == stack[i].sec
  {
    seq(|stack|, i requires 0 <= i < |stack| => stack[i].sec)
  }

  /** The deepest depth reachable below the frames of a stack. */
  function Reach(stack: seq<Frame>): nat
  {
    if |stack| == 0 then 0
    else MaxNat(Reach(stack[..|stack| - 1]), stack[|stack| - 1].depth + Height(stack[|stack| - 1].sec))
  }

  function ChildFrames(cs: seq<Section>, depth: nat): (r: seq<Frame>)
    ensures Secs(r) == cs
  {
    seq(|cs|, i requires 0 <= i < |cs| => Frame(cs[i], depth))
  }

  lemma {:induction false} ReachAppend(a: seq<Frame>, b: seq<Frame>)
    ensures Reach(a + b) == MaxNat(Reach(a), Reach(b))
    decreases |b|
  {
    if |b| == 0 {
      assert a + b == a;
    } else {
      var b' := b[..|b| - 1];
      assert (a + b)[..|a + b| - 1] == a + b';
      ReachAppend(a, b');
    }
  }

  lemma {:induction false} ReachChildFrames(cs: seq<Section>, depth: nat)
    ensures Reach(ChildFrames(cs, depth)) == if |cs| == 0 then 0 else depth + MaxHeight(cs)
    decreases |cs|
  {
    if |cs| > 0 {
      var cs' := cs[..|cs| - 1];
      assert ChildFrames(cs, depth)[..|cs| - 1] == ChildFrames(cs', depth);
      ReachChildFrames(cs', depth);
    }
  }

  /** One iteration of the statistics loop: popping the top frame and pushing its
      children's frames emits the popped section, shrinks the stack's total size and keeps
      the deepest reachable depth once the popped depth is counted. */
  lemma PopFrame(stack: seq<Frame>)
    requires |stack| > 0
    ensures var f, rest := stack[|stack| - 1], stack[..|stack| - 1];
            var next := rest + ChildFrames(f.sec.children, f.depth + 1);
            && CollectStack(Secs(stack), false) == [f.sec] + CollectStack(Secs(next), false)
            && SizeForest(Secs(next)) < SizeForest(Secs(stack))
            && MaxNat(f.depth, Reach(next)) == Reach(stack)
  {
    var f, rest := stack[|stack| - 1], stack[..|stack| - 1];
    var kids := ChildFrames(f.sec.children, f.depth + 1);
    assert Secs(stack)[..|stack| - 1] == Secs(rest);
    assert Secs(rest + kids) == Secs(rest) + f.sec.children;
    CollectStackAppend(Secs(rest), f.sec.children, false);
    SizeForestAppend(Secs(rest), f.sec.children);
    ReachAppend(rest, kids);
    ReachChildFrames(f.sec.children, f.depth + 1);
  }

  lemma EmitPopped(visited: seq<Section>, stack: seq<Frame>, all: seq<Section>)
    requires |stack| > 0
    requires visited + CollectStack(Secs(stack), false) == all
    ensures var f := stack[|stack| - 1];
            var next := stack[..|stack| - 1] + ChildFrames(f.sec.children, f.depth + 1);
            (visited + [f.sec]) + CollectStack(Secs(next), false) == all
  {
    PopFrame(stack);
  }

  /** Recording one more section updates each statistic by that section alone. */
  lemma VisitOne(xs: seq<Section>, x: Section)
    ensures CountLeaves(xs + [x]) == CountLeaves(xs) + (if |x.children| == 0 then 1 else 0)
    ensures CountBranching(xs + [x]) == CountBranching(xs) + (if |x.children| >= 2 then 1 else 0)
    ensures AllSegmentLengths(xs + [x]) == AllSegmentLengths(xs) + SegmentLengths(x)
  {
    assert (xs + [x])[..|xs|] == xs;
  }

  /** The statistics the loop accumulates. */
  datatype TreeStats = TreeStats(segLengths: seq<real>, nBifurcations: nat, nTips: nat, maxDepth: nat)

  /** The statistics loop of extract_features: a stack walk over every root section
      (axons included) counting tips, bifurcations and depth and gathering segment lengths. */
  method TreeStatistics(roots: seq<Section>) returns (st: TreeStats)
    ensures st.nTips == CountLeaves(AllSections(roots))
    ensures st.nBifurcations == CountBranching(AllSections(roots))
    ensures st.maxDepth == MaxHeight(roots)
    ensures st.segLengths == AllSegmentLengths(AllSections(roots))
  {
    st := TreeStats([], 0, 0, 0);
    var ri := 0;
    while ri < |roots|
      invariant 0 <= ri <= |roots|
      invariant st.nTips == CountLeaves(AllSections(roots[..ri]))
      invariant st.nBifurcations == CountBranching(AllSections(roots[..ri]))
      invariant st.segLengths == AllSegmentLengths(AllSections(roots[..ri]))
      invariant st.maxDepth == MaxHeight(roots[..ri])
    {
      assert roots[..ri + 1][..ri] == roots[..ri];
      assert st == StatsOf(AllSections(roots[..ri]), st.maxDepth);
      st := WalkRoot(roots[ri], st, AllSections(roots[..ri]));
      ri := ri + 1;
    }
    assert roots[..ri] == roots;
  }

  /** One iteration of the statistics loop for a popped frame: its segment lengths are
      gathered, a childless section is a tip, one with two or more children a bifurcation,
      and its depth raises the maximum. */
  function Tally(st: TreeStats, f: Frame): TreeStats
  {
    var nchild := |f.sec.children|;
    TreeStats(st.segLengths + SegmentLengths(f.sec),
              st.nBifurcations + (if nchild >= 2 then 1 else 0),
              st.nTips + (if nchild == 0 then 1 else 0),
              MaxNat(st.maxDepth, f.depth))
  }

  /** The statistics of the sections in `visited`, with `maxDepth` as the depth maximum. */
  function StatsOf(visited: seq<Section>, maxDepth: nat): TreeStats
  {
    TreeStats(AllSegmentLengths(visited), CountBranching(visited), CountLeaves(visited), maxDepth)
  }

  /** The loop invariant of the walk of one root: `visited` followed by what the stack still
      yields is the whole pre-order `all`, the running statistics are those of `visited`, and
      the depth maximum over what is done and what is pending is `goal`. */
  predicate Walking(visited: seq<Section>, stack: seq<Frame>, st: TreeStats, all: seq<Section>, goal: nat)
  {
    && visited + CollectStack(Secs(stack), false) == all
    && st == StatsOf(visited, st.maxDepth)
    && MaxNat(st.maxDepth, Reach(stack)) == goal
  }

  /** One iteration of the loop: pop the top frame, record its section, and push its
      children one level deeper. The invariant is kept and the stack shrinks. */
  method VisitTop(stack: seq<Frame>, st: TreeStats, ghost visited: seq<Section>, ghost all: seq<Section>, ghost goal: nat)
    returns (next: seq<Frame>, st': TreeStats, ghost visited': seq<Section>)
    requires |stack| > 0 && Walking(visited, stack, st, all, goal)
    ensures Walking(visited', next, st', all, goal)
    ensures SizeForest(Secs(next)) < SizeForest(Secs(stack))
  {
    var f := stack[|stack| - 1];
    PopFrame(stack);
    VisitOne(visited, f.sec);
    EmitPopped(visited, stack, all);
    visited' := visited + [f.sec];
    st' := Tally(st, f);
    next := stack[..|stack| - 1] + ChildFrames(f.sec.children, f.depth + 1);
  }

  /** The body of the statistics loop for one root: pop a frame, record the section, push
      its children one level deeper, until the stack is empty. Starting from the statistics
      of `seen`, it ends with those of `seen` followed by the root's sections in visiting
      order, and with the depth maximum raised to the root's height. */
  method WalkRoot(root: Section, acc: TreeStats, ghost seen: seq<Section>) returns (st: TreeStats)
    requires acc == StatsOf(seen, acc.maxDepth)
    ensures st == StatsOf(seen + Collect(root, false), MaxNat(acc.maxDepth, Height(root)))
  {
    st := acc;
    ghost var visited := seen;
    ghost var all := seen + Collect(root, false);
    ghost var goal := MaxNat(acc.maxDepth, Height(root));
    var stack := [Frame(root, 0)];
    WalkStart(root, acc, seen);
    while |stack| > 0
      invariant Walking(visited, stack, st, all, goal)
      decreases SizeForest(Secs(stack))
    {
      stack, st, visited := VisitTop(stack, st, visited, all, goal);
    }
    WalkDone(visited, st, all, goal);
  }

  /** The walk of one root starts from the invariant with a single frame at depth 0. */
  lemma WalkStart(root: Section, acc: TreeStats, seen: seq<Section>)
    requires acc == StatsOf(seen, acc.maxDepth)
    ensures Walking(seen, [Frame(root, 0)], acc, seen + Collect(root, false), MaxNat(acc.maxDepth, Height(root)))
  {
    var stack := [Frame(root, 0)];
    assert Secs(stack) == [root];
    assert CollectStack([root], false) == Collect(root, false) by {
      assert [root][..0] == [];
    }
    assert stack[..0] == [];
  }

  /** An empty stack leaves nothing pending: everything has been visited. */
  lemma WalkDone(visited: seq<Section>, st: TreeStats, all: seq<Section>, goal: nat)
    requires Walking(visited, [], st, all, goal)
    ensures st == StatsOf(all, goal)
  {
    assert CollectStack(Secs([]), false) == [];
    assert Reach([]) == 0;
    assert visited == all;
  }

  /** The statistics loop visits every section of every tree exactly once. */
  lemma {:induction false} AllSectionsCount(roots: seq<Section>)
    ensures |AllSections(roots)| == SizeForest(roots)
  {
    if |roots| > 0 {
      AllSectionsCount(roots[..|roots| - 1]);
      CollectAllSize(roots[|roots| - 1]);
    }
  }
}
