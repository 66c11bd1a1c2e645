/** cma_optimize.py: the box the CMA-ES search works in, the clamp applied to every candidate
    before it is simulated, and the parameter dictionaries built from clamped vectors. */
module CmaBox {
  import opened Reals
  import opened ParamMaps

  /** LB, UB and x0, in NAMES order. */
  const Lb: seq<real> := [0.2, 0.2, 0.0005, 10.0, 5.0, 0.0]
  const Ub: seq<real> := [2.5, 0.95, 0.03, 70.0, 40.0, 0.02]
  const X0: seq<real> := [1.2, 0.6, 0.01, 40.0, 20.0, 0.004]

  /** `x` lies componentwise in [lb, ub]. */
  predicate Within(x: seq<real>, lb: seq<real>, ub: seq<real>)
    requires |x| == |lb| == |ub|
  {
    forall i :: 0 <= i < |x| ==> lb[i] <= x[i] <= ub[i]
  }

  /** `np.minimum(ub, np.maximum(lb, x))` for vectors of one length. */
  function ClampTo(x: seq<real>, lb: seq<real>, ub: seq<real>): (r: seq<real>)
    requires |x| == |lb| == |ub|
    ensures |r| == |x|
    ensures (forall i :: 0 <= i < |x| ==> lb[i] <= ub[i]) ==> Within(r, lb, ub)
    ensures forall i :: 0 <= i < |x| ==> r[i] == x[i] || r[i] == lb[i] || r[i] == ub[i]
    ensures forall i :: 0 <= i < |x| && lb[i] <= x[i] <= ub[i] ==> r[i] == x[i]
  {
    seq(|x|, i requires 0 <= i < |x| => Min(ub[i], Max(lb[i], x[i])))
  }

  /** `clamp`: ClampTo with the declared LB and UB. */
  function Clamp(x: seq<real>): (r: seq<real>)
    requires |x| == |Lb|
    ensures |r| == |Lb| && Within(r, Lb, Ub)
  {
    DeclaredBoundsOrdered();
    ClampTo(x, Lb, Ub)
  }

  /** LB <= UB componentwise (strictly, in fact), and x0 lies within the box. */
  lemma DeclaredBoundsOrdered()
    ensures |Lb| == |Ub| == |X0| == |Names|
    ensures forall i :: 0 <= i < |Lb| ==> Lb[i] < Ub[i]
    ensures Within(X0, Lb, Ub)
  {
  }

  /** Clamping twice is clamping once, whenever the box is non-empty. */
  lemma ClampIdempotent(x: seq<real>, lb: seq<real>, ub: seq<real>)
    requires |x| == |lb| == |ub|
    requires forall i :: 0 <= i < |x| ==> lb[i] <= ub[i]
    ensures ClampTo(ClampTo(x, lb, ub), lb, ub) == ClampTo(x, lb, ub)
  {
    var r := ClampTo(x, lb, ub);
    assert Within(r, lb, ub);
    ClampIdentity(r, lb, ub);
  }

  /** Clamping leaves a vector alone exactly when it already lies in the box. */
  lemma ClampIdentity(x: seq<real>, lb: seq<real>, ub: seq<real>)
    requires |x| == |lb| == |ub|
    requires forall i :: 0 <= i < |x| ==> lb[i] <= ub[i]
    ensures ClampTo(x, lb, ub) == x <==> Within(x, lb, ub)
  {
    var r := ClampTo(x, lb, ub);
    if Within(x, lb, ub) {
      assert forall i :: 0 <= i < |x| ==> r[i] == x[i];
    }
  }

  /** The clamped vector is the point of the box nearest to `x` in every component: no
      in-box value is closer to x[i] than r[i]. */
  lemma ClampNearest(x: seq<real>, lb: seq<real>, ub: seq<real>, y: seq<real>)
    requires |x| == |lb| == |ub| == |y|
    requires Within(y, lb, ub)
    ensures var r := ClampTo(x, lb, ub);
            forall i :: 0 <= i < |x| ==> Abs(r[i] - x[i]) <= Abs(y[i] - x[i])
  {
  }

  /** `{k: float(v) for k, v in zip(NAMES, clamp(x))}`: the dictionary given to the simulator
      in `f` and reported as `best_p`. */
  function ParamsOf(x: seq<real>): (p: Params)
    requires |x| == |Lb|
    ensures Keys(p) == Names
    ensures forall i :: 0 <= i < |p| ==> Lb[i] <= p[i].value <= Ub[i]
    ensures Within(x, Lb, Ub) ==> forall i :: 0 <= i < |p| ==> p[i].value == x[i]
  {
    DeclaredBoundsOrdered();
    Zip(Names, Clamp(x))
  }
}
