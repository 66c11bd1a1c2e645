/** Parameter dictionaries. Python dictionaries keep insertion order, and the scripts rely on
    it (the JSON written for the simulator and the reported best parameters follow NAMES), so
    a parameter map is an ordered list of entries. */
module ParamMaps {
  import opened Results

  datatype Entry = Entry(name: string, value: real)

  type Params = seq<Entry>

  /** NAMES in cma_optimize.py and bo_optimize.py: the order the simulator expects. */
  const Names: seq<string> :=
    ["speed", "persistence", "branch_prob", "branch_angle_mean_deg", "branch_angle_std_deg", "prune_prob"]

  /** The keys of a dictionary, in insertion order. */
  function Keys(p: Params): (ks: seq<string>)
    ensures |ks| == |p|
    ensures forall i :: 0 <= i < |p| ==> ks[i] == p[i].name
  {
    if |p| == 0 then [] else [p[0].name] + Keys(p[1..])
  }

  /** `p[k]` when `k` is a key, `None` where Python raises KeyError. */
  function Lookup(p: Params, k: string): (r: Option<real>)
    ensures r.None? <==> k !in Keys(p)
  {
    if |p| == 0 then None
    else if p[0].name == k then Some(p[0].value)
    else
      KeysCons(p);
      Lookup(p[1..], k)
  }

  /** `p.get(k, default)`. */
  function Get(p: Params, k: string, default: real): (v: real)
    ensures k !in Keys(p) ==> v == default
    ensures k in Keys(p) ==> Lookup(p, k) == Some(v)
  {
    match Lookup(p, k)
    case Some(v) => v
    case None => default
  }

  /** `dict(zip(names, values))`: zip stops at the shorter of the two lists. */
  function Zip(names: seq<string>, values: seq<real>): (p: Params)
    ensures |values| >= |names| ==> Keys(p) == names
    ensures |p| <= |names| && |p| <= |values|
    ensures forall i :: 0 <= i < |p| ==> p[i] == Entry(names[i], values[i])
  {
    var n := if |names| <= |values| then |names| else |values|;
    seq(n, i requires 0 <= i < n => Entry(names[i], values[i]))
  }

  /** `{**p, k: v}`: an existing key keeps its position and takes the new value;
      a new key goes at the end. */
  function Insert(p: Params, k: string, v: real): (r: Params)
    ensures |p| <= |r| <= |p| + 1
    ensures |r| == |p| + 1 ==> r[|p|] == Entry(k, v)
  {
    if |p| == 0 then [Entry(k, v)]
    else if p[0].name == k then [Entry(k, v)] + p[1..]
    else [p[0]] + Insert(p[1..], k, v)
  }

  /** After `{**p, k: v}`, k maps to v and every other key keeps its value. */
  lemma {:induction false} InsertLookup(p: Params, k: string, v: real, k': string)
    ensures Lookup(Insert(p, k, v), k') == if k' == k then Some(v) else Lookup(p, k')
  {
    if |p| > 0 && p[0].name != k && p[0].name != k' {
      var r := Insert(p, k, v);
      assert r[1..] == Insert(p[1..], k, v);
      InsertLookup(p[1..], k, v, k');
    }
  }

  lemma InsertLookupAll(p: Params, k: string, v: real)
    ensures forall k' :: Lookup(Insert(p, k, v), k') == if k' == k then Some(v) else Lookup(p, k')
  {
    forall k'
      ensures Lookup(Insert(p, k, v), k') == if k' == k then Some(v) else Lookup(p, k')
    {
      InsertLookup(p, k, v, k');
    }
  }

  /** `{**p, k: v}` keeps the key order of p, with k appended when it is new. */
  lemma {:induction false} InsertKeys(p: Params, k: string, v: real)
    ensures k !in Keys(p) ==> Keys(Insert(p, k, v)) == Keys(p) + [k]
    ensures k in Keys(p) ==> Keys(Insert(p, k, v)) == Keys(p)
  {
    var r := Insert(p, k, v);
    if |p| > 0 {
      KeysCons(p);
      KeysCons(r);
      if p[0].name == k {
        assert r[1..] == p[1..];
      } else {
        var rest := Insert(p[1..], k, v);
        InsertKeys(p[1..], k, v);
        assert r[1..] == rest;
      }
    }
  }

  /** An entry whose name no earlier entry carries is the one a lookup of that name finds. */
  lemma {:induction false} LookupFirst(p: Params, i: nat)
    requires i < |p|
    requires forall j :: 0 <= j < i ==> p[j].name != p[i].name
    ensures Lookup(p, p[i].name) == Some(p[i].value)
  {
    if i > 0 {
      assert p[1..][i - 1] == p[i];
      LookupFirst(p[1..], i - 1);
    }
  }

  lemma KeysCons(p: Params)
    requires |p| > 0
    ensures Keys(p) == [p[0].name] + Keys(p[1..])
  {
  }
}
