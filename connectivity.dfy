/**
 * Connected components of the bond graph of a supramolecule. The original
 * delegates this to a graph library: a node per atom id, an edge per bond, and
 * the components enumerated from the nodes in insertion order (so in the order
 * of each component's first atom). Here the components are computed directly,
 * and the result is characterised by `IsSplit`: a partition of the atom ids
 * into sets that no bond crosses, each reachable from its first atom. `IsSplit`
 * determines the split uniquely (`SplitUnique`).
 */
module Connectivity {
  import opened Molecules

  datatype Bond = Bond(id: int, atom1: int, atom2: int)

  function AtomIds(atoms: seq<Atom>): (ids: set<int>)
    ensures forall k :: 0 <= k < |atoms| ==> atoms[k].id in ids
    ensures forall x :: x in ids ==> exists k :: 0 <= k < |atoms| && atoms[k].id == x
  {
    set k | 0 <= k < |atoms| :: atoms[k].id
  }

  /** Bond endpoints name atoms of the structure. */
  predicate EndpointsKnown(atoms: seq<Atom>, bonds: seq<Bond>)
  {
    forall k :: 0 <= k < |bonds| ==> bonds[k].atom1 in AtomIds(atoms) && bonds[k].atom2 in AtomIds(atoms)
  }

  /** Some bond joins `a` and `b`, in either direction. */
  predicate Joined(bonds: seq<Bond>, a: int, b: int)
  {
    exists k :: 0 <= k < |bonds| &&
      ((bonds[k].atom1 == a && bonds[k].atom2 == b) || (bonds[k].atom1 == b && bonds[k].atom2 == a))
  }

  /** `p` is a walk from `x` to `y` along bonds. */
  predicate IsPath(bonds: seq<Bond>, p: seq<int>, x: int, y: int)
  {
    && |p| > 0 && p[0] == x && p[|p| - 1] == y
    && forall i :: 0 <= i < |p| - 1 ==> Joined(bonds, p[i], p[i + 1])
  }

  ghost predicate Reachable(bonds: seq<Bond>, x: int, y: int)
  {
    exists p :: IsPath(bonds, p, x, y)
  }

  /** A bond crosses `c` when exactly one of its endpoints is in `c`. */
  predicate Crosses(b: Bond, c: set<int>)
  {
    (b.atom1 in c) != (b.atom2 in c)
  }

  /** No bond crosses `c`. */
  predicate Closed(c: set<int>, bonds: seq<Bond>)
  {
    forall k :: 0 <= k < |bonds| ==> !Crosses(bonds[k], c)
  }

  /** The union of a sequence of sets. */
  function Union(cs: seq<set<int>>): (u: set<int>)
    ensures forall j :: 0 <= j < |cs| ==> cs[j] <= u
  {
    if |cs| == 0 then {} else Union(cs[..|cs| - 1]) + cs[|cs| - 1]
  }

  /** The index of the first atom whose id is not in `s` (`|atoms|` if there is none). */
  function FirstOutside(atoms: seq<Atom>, s: set<int>): (r: nat)
    ensures r <= |atoms|
    ensures forall k :: 0 <= k < r ==> atoms[k].id in s
    ensures r < |atoms| ==> atoms[r].id !in s
  {
    if |atoms| == 0 then 0
    else if atoms[0].id !in s then 0
    else 1 + FirstOutside(atoms[1..], s)
  }

  /**
   * `sets` is the split of the bond graph into connected components, listed in
   * the order of their first atom: the sets are disjoint, cover the atom ids,
   * no bond crosses one, and set `j` holds, and reaches every member from, the
   * first atom that no earlier set holds.
   */
  ghost predicate IsSplit(atoms: seq<Atom>, bonds: seq<Bond>, sets: seq<set<int>>)
  {
    && Union(sets) == AtomIds(atoms)
    && (forall i, j :: 0 <= i < j < |sets| ==> sets[i] !! sets[j])
    && (forall j :: 0 <= j < |sets| ==> Closed(sets[j], bonds))
    && (forall j :: 0 <= j < |sets| ==> RootedAt(atoms, bonds, sets, j))
  }

  ghost predicate RootedAt(atoms: seq<Atom>, bonds: seq<Bond>, sets: seq<set<int>>, j: int)
    requires 0 <= j < |sets|
  {
    var r := FirstOutside(atoms, Union(sets[..j]));
    && r < |atoms|
    && atoms[r].id in sets[j]
    && forall y :: y in sets[j] ==> Reachable(bonds, atoms[r].id, y)
  }

  // ---------------------------------------------------------------------------
  // Paths

  lemma PathExtend(bonds: seq<Bond>, p: seq<int>, x: int, y: int, z: int)
    requires IsPath(bonds, p, x, y)
    requires Joined(bonds, y, z)
    ensures IsPath(bonds, p + [z], x, z)
  {
    var q := p + [z];
    forall i | 0 <= i < |q| - 1
      ensures Joined(bonds, q[i], q[i + 1])
    {
      if i < |p| - 1 {
        assert q[i] == p[i] && q[i + 1] == p[i + 1];
      }
    }
  }

  /** A closed set that holds the end of a walk holds its start. */
  lemma {:induction false} ClosedHoldsStart(c: set<int>, bonds: seq<Bond>, p: seq<int>, x: int, y: int)
    requires Closed(c, bonds)
    requires IsPath(bonds, p, x, y)
    requires y in c
    ensures x in c
  {
    if |p| > 1 {
      var w := p[|p| - 2];
      var front := p[..|p| - 1];
      assert IsPath(bonds, front, x, w) by {
        forall i | 0 <= i < |front| - 1
          ensures Joined(bonds, front[i], front[i + 1])
        {
          assert front[i] == p[i] && front[i + 1] == p[i + 1];
        }
      }
      assert Joined(bonds, w, y);
      var k :| 0 <= k < |bonds| &&
        ((bonds[k].atom1 == w && bonds[k].atom2 == y) || (bonds[k].atom1 == y && bonds[k].atom2 == w));
      assert !Crosses(bonds[k], c);
      ClosedHoldsStart(c, bonds, front, x, w);
    }
  }

  /** A closed set that holds the start of a walk holds its end. */
  lemma {:induction false} ClosedHoldsEnd(c: set<int>, bonds: seq<Bond>, p: seq<int>, x: int, y: int)
    requires Closed(c, bonds)
    requires IsPath(bonds, p, x, y)
    requires x in c
    ensures y in c
  {
    if |p| > 1 {
      var w := p[1];
      var back := p[1..];
      assert IsPath(bonds, back, w, y) by {
        forall i | 0 <= i < |back| - 1
          ensures Joined(bonds, back[i], back[i + 1])
        {
          assert back[i] == p[i + 1] && back[i + 1] == p[i + 2];
        }
      }
      assert Joined(bonds, x, w);
      var k :| 0 <= k < |bonds| &&
        ((bonds[k].atom1 == x && bonds[k].atom2 == w) || (bonds[k].atom1 == w && bonds[k].atom2 == x));
      assert !Crosses(bonds[k], c);
      ClosedHoldsEnd(c, bonds, back, w, y);
    }
  }

  // ---------------------------------------------------------------------------
  // Computing the split

  /**
   * The component of `x`: starting from `{x}`, keep adding the far end of a bond
   * that leaves the set until none does.
   */
  method Component(bonds: seq<Bond>, nodes: set<int>, x: int) returns (c: set<int>)
    requires x in nodes
    requires forall k :: 0 <= k < |bonds| ==> bonds[k].atom1 in nodes && bonds[k].atom2 in nodes
    ensures x in c && c <= nodes
    ensures Closed(c, bonds)
    ensures forall y :: y in c ==> Reachable(bonds, x, y)
  {
    c := {x};
    ghost var paths: map<int, seq<int>> := map[x := [x]];
    while exists k :: 0 <= k < |bonds| && Crosses(bonds[k], c)
      invariant x in c && c <= nodes
      invariant paths.Keys == c
      invariant forall y :: y in c ==> IsPath(bonds, paths[y], x, y)
      decreases |nodes - c|
    {
      var k :| 0 <= k < |bonds| && Crosses(bonds[k], c);
      var b := bonds[k];
      var from := if b.atom1 in c then b.atom1 else b.atom2;
      var to := if b.atom1 in c then b.atom2 else b.atom1;
      assert Joined(bonds, from, to);
      PathExtend(bonds, paths[from], x, from, to);
      paths := paths[to := paths[from] + [to]];
      assert nodes - (c + {to}) < nodes - c by {
        assert to in nodes - c;
      }
      c := c + {to};
    }
    forall y | y in c
      ensures Reachable(bonds, x, y)
    {
      assert IsPath(bonds, paths[y], x, y);
    }
  }

  lemma UnionAppend(cs: seq<set<int>>, c: set<int>)
    ensures Union(cs + [c]) == Union(cs) + c
    ensures forall j :: 0 <= j <= |cs| ==> (cs + [c])[..j] == cs[..j]
  {
    assert (cs + [c])[..|cs|] == cs;
  }

  /** Every id in the union sits in one of the sets. */
  lemma {:induction false} InUnion(cs: seq<set<int>>, x: int)
    requires x in Union(cs)
    ensures exists j :: 0 <= j < |cs| && x in cs[j]
  {
    if x !in cs[|cs| - 1] {
      InUnion(cs[..|cs| - 1], x);
      var j :| 0 <= j < |cs| - 1 && x in cs[..|cs| - 1][j];
      assert x in cs[j];
    }
  }

  /** A component found from an atom outside all closed sets so far is disjoint from them. */
  lemma FreshComponentDisjoint(bonds: seq<Bond>, sets: seq<set<int>>, x: int, c: set<int>)
    requires forall j :: 0 <= j < |sets| ==> Closed(sets[j], bonds)
    requires x !in Union(sets)
    requires forall y :: y in c ==> Reachable(bonds, x, y)
    ensures forall j :: 0 <= j < |sets| ==> sets[j] !! c
  {
    forall j, y | 0 <= j < |sets| && y in sets[j] && y in c
      ensures false
    {
      var p :| IsPath(bonds, p, x, y);
      ClosedHoldsStart(sets[j], bonds, p, x, y);
    }
  }

  /** `_define_components`' split of the atom ids: one component per unseen atom, in atom order. */
  method Split(atoms: seq<Atom>, bonds: seq<Bond>) returns (sets: seq<set<int>>)
    requires EndpointsKnown(atoms, bonds)
    ensures IsSplit(atoms, bonds, sets)
  {
    var nodes := AtomIds(atoms);
    sets := [];
    var seen: set<int> := {};
    var i := 0;
    while i < |atoms|
      invariant 0 <= i <= |atoms|
      invariant seen == Union(sets) && seen <= nodes
      invariant forall k :: 0 <= k < i ==> atoms[k].id in seen
      invariant forall a, b :: 0 <= a < b < |sets| ==> sets[a] !! sets[b]
      invariant forall j :: 0 <= j < |sets| ==> Closed(sets[j], bonds)
      invariant forall j :: 0 <= j < |sets| ==> sets[j] <= nodes
      invariant forall j :: 0 <= j < |sets| ==> RootedAt(atoms, bonds, sets, j)
    {
      var x := atoms[i].id;
      if x !in seen {
        var c := Component(bonds, nodes, x);
        FreshComponentDisjoint(bonds, sets, x, c);
        assert FirstOutside(atoms, Union(sets)) == i by {
          FirstOutsideAt(atoms, Union(sets), i);
        }
        UnionAppend(sets, c);
        RootedAppend(atoms, bonds, sets, c);
        sets := sets + [c];
        seen := seen + c;
      }
      i := i + 1;
    }
  }

  /** A set rooted at the first atom outside the earlier sets keeps the split rooted. */
  lemma RootedAppend(atoms: seq<Atom>, bonds: seq<Bond>, sets: seq<set<int>>, c: set<int>)
    requires forall j :: 0 <= j < |sets| ==> RootedAt(atoms, bonds, sets, j)
    requires FirstOutside(atoms, Union(sets)) < |atoms|
    requires atoms[FirstOutside(atoms, Union(sets))].id in c
    requires forall y :: y in c ==> Reachable(bonds, atoms[FirstOutside(atoms, Union(sets))].id, y)
    ensures forall j :: 0 <= j < |sets| + 1 ==> RootedAt(atoms, bonds, sets + [c], j)
  {
    var sets' := sets + [c];
    forall j | 0 <= j < |sets'|
      ensures RootedAt(atoms, bonds, sets', j)
    {
      if j < |sets| {
        assert RootedAt(atoms, bonds, sets, j);
        assert sets'[..j] == sets[..j];
        assert sets'[j] == sets[j];
      } else {
        assert sets'[..j] == sets;
      }
    }
  }

  lemma {:induction false} FirstOutsideAt(atoms: seq<Atom>, s: set<int>, i: nat)
    requires i < |atoms| && atoms[i].id !in s
    requires forall k :: 0 <= k < i ==> atoms[k].id in s
    ensures FirstOutside(atoms, s) == i
  {
    if i > 0 {
      FirstOutsideAt(atoms[1..], s, i - 1);
    }
  }

  // ---------------------------------------------------------------------------
  // Properties of a split

  /** Every atom lies in exactly one component. */
  lemma AtomInOneComponent(atoms: seq<Atom>, bonds: seq<Bond>, sets: seq<set<int>>, k: int)
    requires IsSplit(atoms, bonds, sets)
    requires 0 <= k < |atoms|
    ensures exists j :: 0 <= j < |sets| && atoms[k].id in sets[j]
    ensures forall i, j :: 0 <= i < |sets| && 0 <= j < |sets| && atoms[k].id in sets[i] && atoms[k].id in sets[j] ==> i == j
  {
    InUnion(sets, atoms[k].id);
  }

  /** Every bond has both ends in one component, and in no other does it have either end. */
  lemma BondInOneComponent(atoms: seq<Atom>, bonds: seq<Bond>, sets: seq<set<int>>, k: int)
    requires IsSplit(atoms, bonds, sets)
    requires EndpointsKnown(atoms, bonds)
    requires 0 <= k < |bonds|
    ensures exists j :: 0 <= j < |sets| && bonds[k].atom1 in sets[j] && bonds[k].atom2 in sets[j]
    ensures forall i, j :: 0 <= i < |sets| && 0 <= j < |sets| && bonds[k].atom1 in sets[i] && bonds[k].atom2 in sets[j] ==> i == j
  {
    var b := bonds[k];
    InUnion(sets, b.atom1);
    var j :| 0 <= j < |sets| && b.atom1 in sets[j];
    assert !Crosses(bonds[k], sets[j]);
    forall i, j' | 0 <= i < |sets| && 0 <= j' < |sets| && b.atom1 in sets[i] && b.atom2 in sets[j']
      ensures i == j'
    {
      assert !Crosses(bonds[k], sets[i]);
    }
  }

  /** Two closed sets that hold `x` and reach all their members from it are equal. */
  lemma SameComponent(bonds: seq<Bond>, x: int, c: set<int>, d: set<int>)
    requires Closed(c, bonds) && Closed(d, bonds)
    requires x in c && x in d
    requires forall y :: y in c ==> Reachable(bonds, x, y)
    requires forall y :: y in d ==> Reachable(bonds, x, y)
    ensures c == d
  {
    forall y | y in c
      ensures y in d
    {
      var p :| IsPath(bonds, p, x, y);
      ClosedHoldsEnd(d, bonds, p, x, y);
    }
    forall y | y in d
      ensures y in c
    {
      var p :| IsPath(bonds, p, x, y);
      ClosedHoldsEnd(c, bonds, p, x, y);
    }
  }

  /** Every component of a split has a root, so the components before it do not cover all atoms. */
  lemma RootBeforeEnd(atoms: seq<Atom>, bonds: seq<Bond>, sets: seq<set<int>>, j: int)
    requires IsSplit(atoms, bonds, sets)
    requires 0 <= j < |sets|
    ensures Union(sets[..j]) != AtomIds(atoms)
  {
    assert RootedAt(atoms, bonds, sets, j);
  }

  /** The split is determined by the atoms and bonds: there is only one. */
  lemma SplitUnique(atoms: seq<Atom>, bonds: seq<Bond>, s1: seq<set<int>>, s2: seq<set<int>>)
    requires IsSplit(atoms, bonds, s1) && IsSplit(atoms, bonds, s2)
    ensures s1 == s2
  {
    var n := if |s1| < |s2| then |s1| else |s2|;
    var j := 0;
    while j < n
      invariant 0 <= j <= n
      invariant s1[..j] == s2[..j]
    {
      assert RootedAt(atoms, bonds, s1, j) && RootedAt(atoms, bonds, s2, j);
      var r := FirstOutside(atoms, Union(s1[..j]));
      SameComponent(bonds, atoms[r].id, s1[j], s2[j]);
      assert s1[..j + 1] == s1[..j] + [s1[j]];
      assert s2[..j + 1] == s2[..j] + [s2[j]];
      j := j + 1;
    }
    assert j == |s1| ==> s1[..j] == s1;
    assert j == |s2| ==> s2[..j] == s2;
    if |s1| < |s2| {
      RootBeforeEnd(atoms, bonds, s2, |s1|);
      assert false;
    } else if |s2| < |s1| {
      RootBeforeEnd(atoms, bonds, s1, |s2|);
      assert false;
    }
    assert s1 == s1[..j] && s2 == s2[..j];
  }
}
