/** np.interp(x, xp, fp, left=0, right=0) for an increasing, non-empty xp: piecewise-linear
    interpolation through the points (xp[j], fp[j]), and 0 outside [xp[0], xp[last]]. */
module Resample {
  import opened Features

  /** The straight line through (x0, y0) and (x1, y1) evaluated at x, written as numpy
      evaluates it: slope * (x - x0) + y0. */
  function Lerp(x: real, x0: real, x1: real, y0: real, y1: real): real
    requires x0 < x1
  {
    (y1 - y0) / (x1 - x0) * (x - x0) + y0
  }

  /** The interpolated value at x. */
  function Interp(x: real, xp: seq<real>, fp: seq<real>): (y: real)
    requires |xp| >= 1 && |fp| == |xp| && StrictlyIncreasing(xp)
    ensures x < xp[0] ==> y == 0.0
    ensures x > xp[|xp| - 1] ==> y == 0.0
  {
    var last := |xp| - 1;
    if x < xp[0] || x > xp[last] then 0.0
    else if x == xp[last] then fp[last]
    else Bracket(x, xp, fp, 0)
  }

  /** The search for the interval [xp[j], xp[j+1]) holding x, starting at interval j. */
  function Bracket(x: real, xp: seq<real>, fp: seq<real>, j: nat): real
    requires |fp| == |xp| && StrictlyIncreasing(xp)
    requires j < |xp| - 1 && xp[j] <= x < xp[|xp| - 1]
    decreases |xp| - j
  {
    if x < xp[j + 1] then Lerp(x, xp[j], xp[j + 1], fp[j], fp[j + 1])
    else Bracket(x, xp, fp, j + 1)
  }

  /** The search started at any interval at or before the bracketing one finds it. */
  lemma {:induction false} BracketFinds(x: real, xp: seq<real>, fp: seq<real>, k: nat, j: nat)
    requires |fp| == |xp| && StrictlyIncreasing(xp)
    requires k <= j < |xp| - 1 && xp[j] <= x < xp[j + 1]
    ensures Bracket(x, xp, fp, k) == Lerp(x, xp[j], xp[j + 1], fp[j], fp[j + 1])
    decreases j - k
  {
    assert xp[k] <= xp[j];
    if k < j {
      assert xp[k + 1] <= xp[j];
      BracketFinds(x, xp, fp, k + 1, j);
    }
  }

  /** Inside the domain the value is the linear interpolation between the bracketing points. */
  lemma InterpBetween(x: real, xp: seq<real>, fp: seq<real>, j: nat)
    requires |xp| >= 1 && |fp| == |xp| && StrictlyIncreasing(xp)
    requires j < |xp| - 1 && xp[j] <= x < xp[j + 1]
    ensures Interp(x, xp, fp) == Lerp(x, xp[j], xp[j + 1], fp[j], fp[j + 1])
  {
    assert xp[0] <= xp[j];
    assert xp[j + 1] <= xp[|xp| - 1];
    BracketFinds(x, xp, fp, 0, j);
  }

  /** At a sample point the value is the sample itself. */
  lemma InterpAtKnot(xp: seq<real>, fp: seq<real>, j: nat)
    requires |xp| >= 1 && |fp| == |xp| && StrictlyIncreasing(xp)
    requires j < |xp|
    ensures Interp(xp[j], xp, fp) == fp[j]
  {
    if j < |xp| - 1 {
      InterpBetween(xp[j], xp, fp, j);
    } else {
      assert xp[0] <= xp[j];
    }
  }

  /** Between two sample points the value lies between the two samples. */
  lemma InterpBounded(x: real, xp: seq<real>, fp: seq<real>, j: nat)
    requires |xp| >= 1 && |fp| == |xp| && StrictlyIncreasing(xp)
    requires j < |xp| - 1 && xp[j] <= x < xp[j + 1]
    ensures var y := Interp(x, xp, fp);
            (fp[j] <= y <= fp[j + 1]) || (fp[j + 1] <= y <= fp[j])
  {
    InterpBetween(x, xp, fp, j);
    LerpBetween(x, xp[j], xp[j + 1], fp[j], fp[j + 1]);
  }

  lemma LerpBetween(x: real, x0: real, x1: real, y0: real, y1: real)
    requires x0 <= x < x1
    ensures var y := Lerp(x, x0, x1, y0, y1); (y0 <= y <= y1) || (y1 <= y <= y0)
  {
    var t := (x - x0) / (x1 - x0);
    assert 0.0 <= t <= 1.0 by {
      assert t * (x1 - x0) == x - x0;
    }
    assert Lerp(x, x0, x1, y0, y1) == y0 + t * (y1 - y0);
    if y0 <= y1 {
      ScaledPart(t, y1 - y0);
    } else {
      ScaledPart(t, y0 - y1);
      assert t * (y1 - y0) == -(t * (y0 - y1));
    }
  }

  lemma ScaledPart(t: real, d: real)
    requires 0.0 <= t <= 1.0 && d >= 0.0
    ensures 0.0 <= t * d <= d
  {
    assert d - t * d == (1.0 - t) * d;
  }

  /** Counts [2, 5, 1] at radii [10, 20, 30], resampled at 15, 25, 5 and 35. */
  lemma InterpExample()
    ensures Interp(15.0, [10.0, 20.0, 30.0], [2.0, 5.0, 1.0]) == 3.5
    ensures Interp(25.0, [10.0, 20.0, 30.0], [2.0, 5.0, 1.0]) == 3.0
    ensures Interp(5.0, [10.0, 20.0, 30.0], [2.0, 5.0, 1.0]) == 0.0
    ensures Interp(35.0, [10.0, 20.0, 30.0], [2.0, 5.0, 1.0]) == 0.0
  {
  }
}
