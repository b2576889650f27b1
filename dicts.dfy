/**
 * Python dictionaries from int to int, as `init_from_components` uses them:
 * the keys in insertion order with their values. Assigning to a present key
 * replaces its value in place; assigning to a new key appends the pair, so
 * `list(d.values())` is the value list in insertion order.
 */
module Dicts {

  datatype Dict = Dict(keys: seq<int>, values: seq<int>)

  const Empty := Dict([], [])

  /** The index of the last occurrence of `x` in `ids`, or -1. */
  function LastIndex(ids: seq<int>, x: int): (r: int)
    ensures -1 <= r < |ids|
    ensures r >= 0 <==> x in ids
    ensures r >= 0 ==> ids[r] == x && forall k :: r < k < |ids| ==> ids[k] != x
  {
    if |ids| == 0 then -1
    else if ids[|ids| - 1] == x then |ids| - 1
    else LastIndex(ids[..|ids| - 1], x)
  }

  /** One value per key, and no key twice. */
  predicate Valid(d: Dict)
  {
    && |d.keys| == |d.values|
    && forall i, j :: 0 <= i < j < |d.keys| ==> d.keys[i] != d.keys[j]
  }

  /** `d[k]` for a key that is present. */
  function Get(d: Dict, k: int): (v: int)
    requires Valid(d) && k in d.keys
    ensures exists i :: 0 <= i < |d.keys| && d.keys[i] == k && d.values[i] == v
  {
    d.values[LastIndex(d.keys, k)]
  }

  /** `d[k] = v` */
  function Assign(d: Dict, k: int, v: int): (r: Dict)
    requires Valid(d)
    ensures Valid(r)
    ensures forall x :: x in r.keys <==> x in d.keys || x == k
    ensures |r.keys| == if k in d.keys then |d.keys| else |d.keys| + 1
  {
    var i := LastIndex(d.keys, k);
    if i >= 0 then Dict(d.keys, d.values[i := v]) else Dict(d.keys + [k], d.values + [v])
  }

  /** Reading a key back after an assignment. */
  lemma GetAssign(d: Dict, k: int, v: int, x: int)
    requires Valid(d)
    requires x in d.keys || x == k
    ensures Get(Assign(d, k, v), x) == if x == k then v else Get(d, x)
  {
    var r := Assign(d, k, v);
    var i := LastIndex(d.keys, k);
    var j := LastIndex(r.keys, x);
    if i < 0 {
      assert r.keys[|d.keys|] == k;
      if x != k {
        assert r.keys[LastIndex(d.keys, x)] == x;
      }
    } else {
      assert r.keys == d.keys;
      assert j == i <==> x == k;
    }
  }

  /** `max(list(d.values()))` */
  method MaxValue(values: seq<int>) returns (m: int)
    requires |values| > 0
    ensures m in values
    ensures forall i :: 0 <= i < |values| ==> values[i] <= m
  {
    m := values[0];
    for i := 1 to |values|
      invariant m in values[..i]
      invariant forall k :: 0 <= k < i ==> values[k] <= m
    {
      if values[i] > m {
        m := values[i];
      }
    }
    assert values[..|values|] == values;
  }

  /**
   * `d` is the dictionary left by assigning `d[ids[k]] = k` for k = 0, 1, ...
   * in turn: its keys are the ids, each with the index of its last occurrence.
   */
  ghost predicate IsIndexDict(d: Dict, ids: seq<int>)
  {
    && Valid(d)
    && (forall x :: x in d.keys <==> x in ids)
    && (forall i :: 0 <= i < |d.keys| ==> d.values[i] == LastIndex(ids, d.keys[i]))
  }

  lemma {:induction false} LastIndexAppend(ids: seq<int>, x: int, y: int)
    ensures LastIndex(ids + [x], y) == if y == x then |ids| else LastIndex(ids, y)
  {
    var a := ids + [x];
    assert a[..|a| - 1] == ids;
  }

  /** Assigning the next index to `x` gives the dictionary of `ids + [x]`. */
  lemma IndexDictAssign(d: Dict, ids: seq<int>, x: int)
    requires IsIndexDict(d, ids)
    ensures IsIndexDict(Assign(d, x, |ids|), ids + [x])
  {
    var r := Assign(d, x, |ids|);
    var a := ids + [x];
    forall y
      ensures y in r.keys <==> y in a
    {
      assert y in a <==> y in ids || y == x;
    }
    forall i | 0 <= i < |r.keys|
      ensures r.values[i] == LastIndex(a, r.keys[i])
    {
      LastIndexAppend(ids, x, r.keys[i]);
    }
  }

  /** The values of an index dictionary are below the number of ids, and the last index is one of them. */
  lemma IndexDictMax(d: Dict, ids: seq<int>)
    requires IsIndexDict(d, ids)
    requires |ids| > 0
    ensures |ids| - 1 in d.values
    ensures forall i :: 0 <= i < |d.values| ==> d.values[i] < |ids|
  {
    var x := ids[|ids| - 1];
    assert x in d.keys;
    var i :| 0 <= i < |d.keys| && d.keys[i] == x;
    assert d.values[i] == |ids| - 1;
  }

  /** An index dictionary is empty exactly when no id was assigned. */
  lemma IndexDictEmpty(d: Dict, ids: seq<int>)
    requires IsIndexDict(d, ids)
    ensures |d.keys| == 0 <==> |ids| == 0
  {
    assert |ids| > 0 ==> ids[0] in ids && ids[0] in d.keys;
    assert |d.keys| > 0 ==> d.keys[0] in d.keys && d.keys[0] in ids;
  }

  /**
   * The next id `init_from_components` hands out: 0 for an empty dictionary,
   * else the largest value plus one; for the dictionary of `ids` that is `|ids|`.
   */
  method NextId(d: Dict, ghost ids: seq<int>) returns (next: int)
    requires IsIndexDict(d, ids)
    ensures next == |ids|
  {
    IndexDictEmpty(d, ids);
    if |d.keys| == 0 {
      next := 0;
    } else {
      IndexDictMax(d, ids);
      var m := MaxValue(d.values);
      next := m + 1;
    }
  }

  /** Reading an id back from an index dictionary gives the index of its last occurrence. */
  lemma IndexDictGet(d: Dict, ids: seq<int>, x: int)
    requires IsIndexDict(d, ids)
    ensures x in d.keys <==> x in ids
    ensures x in d.keys ==> Get(d, x) == LastIndex(ids, x)
  {
  }
}
