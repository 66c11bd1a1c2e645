/** The morphological fingerprint exchanged between extractor, simulator and loss:
    the JSON object with `total_length_um`, `n_bifurcations`, `n_tips`, `max_tree_depth`,
    `max_radial_extent_um` and `sholl: {radii_um, counts}`. */
module Features {
  import opened Results

  /** A Sholl profile: parallel lists of radii (µm) and crossing counts. */
  datatype Curve = Curve(radii: seq<real>, counts: seq<int>)

  /** A complete feature record, as the extractor and the mock simulator produce it. */
  datatype FeatureSet = FeatureSet(
    totalLength: real,
    nBifurcations: int,
    nTips: int,
    maxTreeDepth: int,
    maxRadialExtent: real,
    sholl: Curve)

  /** The five scalar keys the loss compares. */
  datatype Key = TotalLength | NBifurcations | NTips | MaxTreeDepth | MaxRadialExtent

  /** A feature dictionary as the loss receives it: any scalar key and the curve may be absent. */
  datatype FeatureDict = FeatureDict(scalars: map<Key, real>, sholl: Option<Curve>)

  predicate StrictlyIncreasing(xs: seq<real>)
  {
    forall i, j :: 0 <= i < j < |xs| ==> xs[i] < xs[j]
  }

  /** What every curve the extractor and the mock produce satisfies. */
  predicate WellFormedCurve(c: Curve)
  {
    && |c.radii| >= 1
    && |c.counts| == |c.radii|
    && StrictlyIncreasing(c.radii)
    && forall j :: 0 <= j < |c.counts| ==> c.counts[j] >= 0
  }

  /** A map holding the five listed keys holds every key. */
  lemma FullMap<V>(m: map<Key, V>)
    requires TotalLength in m && NBifurcations in m && NTips in m
    requires MaxTreeDepth in m && MaxRadialExtent in m
    ensures forall k: Key :: k in m
  {
    forall k: Key ensures k in m {
      match k
      case TotalLength =>
      case NBifurcations =>
      case NTips =>
      case MaxTreeDepth =>
      case MaxRadialExtent =>
    }
  }

  /** The value stored under key `k` in a complete record. */
  function Scalar(f: FeatureSet, k: Key): real
  {
    match k
    case TotalLength => f.totalLength
    case NBifurcations => f.nBifurcations as real
    case NTips => f.nTips as real
    case MaxTreeDepth => f.maxTreeDepth as real
    case MaxRadialExtent => f.maxRadialExtent
  }

  /** The dictionary a complete record serialises to: every key present, with its value. */
  function ToDict(f: FeatureSet): (d: FeatureDict)
    ensures forall k :: k in d.scalars && d.scalars[k] == Scalar(f, k)
    ensures d.sholl == Some(f.sholl)
  {
    var scalars := map[
      TotalLength := Scalar(f, TotalLength),
      NBifurcations := Scalar(f, NBifurcations),
      NTips := Scalar(f, NTips),
      MaxTreeDepth := Scalar(f, MaxTreeDepth),
      MaxRadialExtent := Scalar(f, MaxRadialExtent)];
    FullMap(scalars);
    FeatureDict(scalars, Some(f.sholl))
  }
}
