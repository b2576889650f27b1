/**
 * The `SupraMolecule` aggregate: atoms, bonds and position rows, the
 * disconnected components found from the bonds, and an optional conformer id
 * and potential. Clones are values; creating one from atoms and bonds runs the
 * component split (a method, since it loops), while `init_from_components`
 * renumbers the atoms and bonds of given components into one contiguous id
 * space through two dictionaries.
 */
module Supramolecules {
  import opened Wrappers
  import opened Geometry
  import opened Floats
  import opened Molecules
  import opened Connectivity
  import opened Dicts

  /** A component molecule: atoms, bonds and rows, stored as given. */
  datatype Component = Component(atoms: seq<Atom>, bonds: seq<Bond>, positions: seq<Vec>)

  datatype SupraMolecule = SupraMolecule(
    atoms: seq<Atom>,
    bonds: seq<Bond>,
    positions: seq<Vec>,
    components: seq<Component>,
    cid: Option<int>,
    potential: Option<Energy>)

  /** The rows of every component, `[c.get_position_matrix() for c in get_components()]`. */
  function ComponentRows(s: SupraMolecule): (pms: seq<seq<Vec>>)
    ensures |pms| == |s.components|
    ensures forall c :: 0 <= c < |pms| ==> pms[c] == s.components[c].positions
  {
    seq(|s.components|, c requires 0 <= c < |s.components| => s.components[c].positions)
  }

  /** `init_from_components` looks up a bond end that no atom processed so far carries. */
  datatype KeyError = KeyError

  // ---------------------------------------------------------------------------
  // Components found from the bonds

  /** Every atom id is a row index, and every bond joins atoms of the structure. */
  predicate WellFormed(atoms: seq<Atom>, bonds: seq<Bond>, positions: seq<Vec>)
  {
    && (forall k :: 0 <= k < |atoms| ==> 0 <= atoms[k].id < |positions|)
    && EndpointsKnown(atoms, bonds)
  }

  /** The atoms whose id is in `c`, in their original order. */
  function AtomsIn(atoms: seq<Atom>, c: set<int>): (r: seq<Atom>)
    ensures forall a :: a in r <==> a in atoms && a.id in c
  {
    if |atoms| == 0 then []
    else (if atoms[0].id in c then [atoms[0]] else []) + AtomsIn(atoms[1..], c)
  }

  /** The bonds with both ends in `c`, in their original order. */
  function BondsIn(bonds: seq<Bond>, c: set<int>): (r: seq<Bond>)
    ensures forall b :: b in r <==> b in bonds && b.atom1 in c && b.atom2 in c
  {
    if |bonds| == 0 then []
    else (if bonds[0].atom1 in c && bonds[0].atom2 in c then [bonds[0]] else []) + BondsIn(bonds[1..], c)
  }

  /** `sorted(c)` for ids below `n`. */
  function SortedBelow(c: set<int>, n: nat): (r: seq<int>)
    ensures forall x :: x in r <==> x in c && 0 <= x < n
    ensures forall i, j :: 0 <= i < j < |r| ==> r[i] < r[j]
    ensures forall i :: 0 <= i < |r| ==> 0 <= r[i] < n
  {
    if n == 0 then [] else SortedBelow(c, n - 1) + (if n - 1 in c then [n - 1] else [])
  }

  /** One component: its atoms in atom order, its bonds, and the rows at its ascending ids. */
  function ComponentFrom(atoms: seq<Atom>, bonds: seq<Bond>, positions: seq<Vec>, c: set<int>): Component
  {
    var ids := SortedBelow(c, |positions|);
    Component(AtomsIn(atoms, c), BondsIn(bonds, c),
      seq(|ids|, k requires 0 <= k < |ids| => positions[ids[k]]))
  }

  function BuildComponents(atoms: seq<Atom>, bonds: seq<Bond>, positions: seq<Vec>, sets: seq<set<int>>): (r: seq<Component>)
    ensures |r| == |sets|
  {
    seq(|sets|, j requires 0 <= j < |sets| => ComponentFrom(atoms, bonds, positions, sets[j]))
  }

  /** The components are those found from the structure's own atoms, bonds and rows. */
  ghost predicate ComponentsDefined(s: SupraMolecule)
  {
    exists sets :: IsSplit(s.atoms, s.bonds, sets) && s.components == BuildComponents(s.atoms, s.bonds, s.positions, sets)
  }

  /** `_define_components`: split the bond graph and build one component per part. */
  method DefineComponents(atoms: seq<Atom>, bonds: seq<Bond>, positions: seq<Vec>)
    returns (sets: seq<set<int>>, comps: seq<Component>)
    requires WellFormed(atoms, bonds, positions)
    ensures IsSplit(atoms, bonds, sets)
    ensures comps == BuildComponents(atoms, bonds, positions, sets)
  {
    sets := Split(atoms, bonds);
    comps := [];
    for j := 0 to |sets|
      invariant comps == BuildComponents(atoms, bonds, positions, sets[..j])
    {
      comps := comps + [ComponentFrom(atoms, bonds, positions, sets[j])];
    }
    assert sets[..|sets|] == sets;
  }

  /** The dataclass constructor with its post-init: store the fields, then define the components. */
  method New(atoms: seq<Atom>, bonds: seq<Bond>, positions: seq<Vec>, cid: Option<int>, potential: Option<Energy>)
    returns (s: SupraMolecule)
    requires WellFormed(atoms, bonds, positions)
    ensures s.atoms == atoms && s.bonds == bonds && s.positions == positions
    ensures s.cid == cid && s.potential == potential
    ensures ComponentsDefined(s)
  {
    var sets, comps := DefineComponents(atoms, bonds, positions);
    s := SupraMolecule(atoms, bonds, positions, comps, cid, potential);
  }

  /**
   * `with_position_matrix`: a clone with new rows whose components are the old
   * ones, kept over the ones the constructor would find. The constructor still
   * runs the split on the new rows, so the ids must index them.
   */
  function WithPositionMatrix(s: SupraMolecule, positions: seq<Vec>): (r: SupraMolecule)
    requires WellFormed(s.atoms, s.bonds, positions)
    ensures r.positions == positions
    ensures r.atoms == s.atoms && r.bonds == s.bonds
    ensures r.components == s.components
    ensures r.cid == s.cid && r.potential == s.potential
  {
    s.(positions := positions)
  }

  /** Every component has one row per atom, as the split into components guarantees. */
  predicate OneRowPerAtom(comps: seq<Component>)
  {
    forall c :: 0 <= c < |comps| ==> |comps[c].atoms| == |comps[c].positions|
  }

  /** A component displaced by `v`. */
  function DisplaceComponent(c: Component, v: Vec): Component
  {
    c.(positions := Shift(c.positions, v))
  }

  /**
   * `with_displacement`: every row moved by `v`, `cid` and potential kept, and the
   * components found afresh; they are the old components, displaced.
   */
  method WithDisplacement(s: SupraMolecule, v: Vec) returns (r: SupraMolecule)
    requires WellFormed(s.atoms, s.bonds, s.positions)
    ensures r.positions == Shift(s.positions, v)
    ensures r.atoms == s.atoms && r.bonds == s.bonds
    ensures r.cid == s.cid && r.potential == s.potential
    ensures ComponentsDefined(r)
    ensures ComponentsDefined(s) ==>
      r.components == seq(|s.components|, j requires 0 <= j < |s.components| => DisplaceComponent(s.components[j], v))
  {
    var sets, comps := DefineComponents(s.atoms, s.bonds, Shift(s.positions, v));
    r := SupraMolecule(s.atoms, s.bonds, Shift(s.positions, v), comps, s.cid, s.potential);
    if ComponentsDefined(s) {
      var old_sets :| IsSplit(s.atoms, s.bonds, old_sets) && s.components == BuildComponents(s.atoms, s.bonds, s.positions, old_sets);
      SplitUnique(s.atoms, s.bonds, sets, old_sets);
      DisplacedComponents(s.atoms, s.bonds, s.positions, sets, v);
    }
  }

  lemma DisplacedComponents(atoms: seq<Atom>, bonds: seq<Bond>, positions: seq<Vec>, sets: seq<set<int>>, v: Vec)
    ensures BuildComponents(atoms, bonds, Shift(positions, v), sets) ==
      var old_comps := BuildComponents(atoms, bonds, positions, sets);
      seq(|old_comps|, j requires 0 <= j < |old_comps| => DisplaceComponent(old_comps[j], v))
  {
    forall j | 0 <= j < |sets|
      ensures ComponentFrom(atoms, bonds, Shift(positions, v), sets[j]) ==
              DisplaceComponent(ComponentFrom(atoms, bonds, positions, sets[j]), v)
    {
      var ids := SortedBelow(sets[j], |positions|);
      var moved := Shift(positions, v);
      var lhs := seq(|ids|, k requires 0 <= k < |ids| => moved[ids[k]]);
      var rhs := Shift(seq(|ids|, k requires 0 <= k < |ids| => positions[ids[k]]), v);
      assert |lhs| == |rhs|;
      forall k | 0 <= k < |ids|
        ensures lhs[k] == rhs[k]
      {
      }
      assert lhs == rhs;
    }
    var lhs := BuildComponents(atoms, bonds, Shift(positions, v), sets);
    var old_comps := BuildComponents(atoms, bonds, positions, sets);
    assert |lhs| == |old_comps|;
    forall j | 0 <= j < |sets|
      ensures lhs[j] == DisplaceComponent(old_comps[j], v)
    {
    }
  }

  /** Each bond of the structure is kept in exactly one component. */
  lemma BondKeptOnce(s: SupraMolecule, sets: seq<set<int>>, k: int)
    requires WellFormed(s.atoms, s.bonds, s.positions)
    requires IsSplit(s.atoms, s.bonds, sets)
    requires s.components == BuildComponents(s.atoms, s.bonds, s.positions, sets)
    requires 0 <= k < |s.bonds|
    ensures exists j :: 0 <= j < |sets| && s.bonds[k] in s.components[j].bonds
    ensures forall i, j ::
      (0 <= i < |sets| && 0 <= j < |sets| && s.bonds[k] in s.components[i].bonds && s.bonds[k] in s.components[j].bonds)
      ==> i == j
  {
    BondInOneComponent(s.atoms, s.bonds, sets, k);
    var b := s.bonds[k];
    var j :| 0 <= j < |sets| && b.atom1 in sets[j] && b.atom2 in sets[j];
    assert s.components[j] == ComponentFrom(s.atoms, s.bonds, s.positions, sets[j]);
    assert b in s.components[j].bonds;
    forall i, i' | 0 <= i < |sets| && 0 <= i' < |sets| && b in s.components[i].bonds && b in s.components[i'].bonds
      ensures i == i'
    {
      assert s.components[i] == ComponentFrom(s.atoms, s.bonds, s.positions, sets[i]);
      assert s.components[i'] == ComponentFrom(s.atoms, s.bonds, s.positions, sets[i']);
      assert b.atom1 in sets[i] && b.atom2 in sets[i'];
    }
  }

  /** Each atom of the structure is kept in exactly one component. */
  lemma AtomKeptOnce(s: SupraMolecule, sets: seq<set<int>>, k: int)
    requires IsSplit(s.atoms, s.bonds, sets)
    requires s.components == BuildComponents(s.atoms, s.bonds, s.positions, sets)
    requires 0 <= k < |s.atoms|
    ensures exists j :: 0 <= j < |sets| && s.atoms[k] in s.components[j].atoms
    ensures forall i, j ::
      (0 <= i < |sets| && 0 <= j < |sets| && s.atoms[k] in s.components[i].atoms && s.atoms[k] in s.components[j].atoms)
      ==> i == j
  {
    AtomInOneComponent(s.atoms, s.bonds, sets, k);
    var j :| 0 <= j < |sets| && s.atoms[k].id in sets[j];
    assert s.atoms[k] in s.components[j].atoms;
  }

  /**
   * When the atoms are listed by strictly increasing id, the k-th atom of a
   * component sits at its k-th row, so atoms and rows of a component agree.
   */
  lemma {:induction false} SortedAtomsMatchRows(atoms: seq<Atom>, c: set<int>, n: nat)
    requires forall i, j :: 0 <= i < j < |atoms| ==> atoms[i].id < atoms[j].id
    requires forall k :: 0 <= k < |atoms| ==> 0 <= atoms[k].id < n
    requires c <= AtomIds(atoms)
    ensures |AtomsIn(atoms, c)| == |SortedBelow(c, n)|
    ensures forall k :: 0 <= k < |AtomsIn(atoms, c)| ==> AtomsIn(atoms, c)[k].id == SortedBelow(c, n)[k]
  {
    var ids := IdsOf(AtomsIn(atoms, c));
    AtomsInIdsSorted(atoms, c);
    KeptIdsBelow(atoms, c, n);
    BelowKeptIds(atoms, c, n);
    SortedUnique(ids, SortedBelow(c, n));
  }

  /** Every kept id is one of the ids of `c` below `n`. */
  lemma KeptIdsBelow(atoms: seq<Atom>, c: set<int>, n: nat)
    requires forall k :: 0 <= k < |atoms| ==> 0 <= atoms[k].id < n
    ensures forall x :: x in IdsOf(AtomsIn(atoms, c)) ==> x in SortedBelow(c, n)
  {
    var inc := AtomsIn(atoms, c);
    forall x | x in IdsOf(inc)
      ensures x in SortedBelow(c, n)
    {
      var k :| 0 <= k < |inc| && IdsOf(inc)[k] == x;
      assert inc[k] in inc;
    }
  }

  /** Every id of `c` below `n` is kept when `c` holds only ids of atoms. */
  lemma BelowKeptIds(atoms: seq<Atom>, c: set<int>, n: nat)
    requires c <= AtomIds(atoms)
    ensures forall x :: x in SortedBelow(c, n) ==> x in IdsOf(AtomsIn(atoms, c))
  {
    var inc := AtomsIn(atoms, c);
    forall x | x in SortedBelow(c, n)
      ensures x in IdsOf(inc)
    {
      var k :| 0 <= k < |atoms| && atoms[k].id == x;
      assert atoms[k] in inc;
      var i :| 0 <= i < |inc| && inc[i] == atoms[k];
      assert IdsOf(inc)[i] == x;
    }
  }

  lemma {:induction false} AtomsInIdsSorted(atoms: seq<Atom>, c: set<int>)
    requires forall i, j :: 0 <= i < j < |atoms| ==> atoms[i].id < atoms[j].id
    ensures forall i, j :: 0 <= i < j < |AtomsIn(atoms, c)| ==> AtomsIn(atoms, c)[i].id < AtomsIn(atoms, c)[j].id
  {
    if |atoms| > 0 {
      AtomsInIdsSorted(atoms[1..], c);
      var rest := AtomsIn(atoms[1..], c);
      forall a | a in rest
        ensures atoms[0].id < a.id
      {
        var k :| 0 <= k < |atoms[1..]| && atoms[1..][k] == a;
        assert atoms[k + 1] == a;
      }
    }
  }

  /** In a strictly increasing sequence the head is the least element and the tail holds the rest. */
  lemma {:induction false} IncreasingHead(a: seq<int>)
    requires |a| > 0
    requires forall i, j :: 0 <= i < j < |a| ==> a[i] < a[j]
    ensures forall x :: x in a ==> a[0] <= x
    ensures forall x :: x in a[1..] <==> x in a && a[0] < x
  {
    forall x | x in a
      ensures a[0] <= x
      ensures x in a[1..] <==> a[0] < x
    {
      var i :| 0 <= i < |a| && a[i] == x;
      if i > 0 {
        assert a[1..][i - 1] == x;
      }
      if x in a[1..] {
        var k :| 0 <= k < |a| - 1 && a[1..][k] == x;
        assert a[k + 1] == x;
      }
    }
    forall x | x in a[1..]
      ensures x in a
    {
      var k :| 0 <= k < |a| - 1 && a[1..][k] == x;
      assert a[k + 1] == x;
    }
  }

  /** Two strictly increasing sequences with the same elements are equal. */
  lemma {:induction false} SortedUnique(a: seq<int>, b: seq<int>)
    requires forall i, j :: 0 <= i < j < |a| ==> a[i] < a[j]
    requires forall i, j :: 0 <= i < j < |b| ==> b[i] < b[j]
    requires forall x :: x in a <==> x in b
    ensures a == b
    decreases |a|
  {
    assert |a| > 0 ==> a[0] in a;
    assert |b| > 0 ==> b[0] in b;
    if |a| == 0 || |b| == 0 {
    } else {
      IncreasingHead(a);
      IncreasingHead(b);
      assert a[0] in a && b[0] in b;
      assert a[0] == b[0];
      SortedUnique(a[1..], b[1..]);
      assert a == [a[0]] + a[1..] && b == [b[0]] + b[1..];
    }
  }

  // ---------------------------------------------------------------------------
  // init_from_components

  function IdsOf(atoms: seq<Atom>): (ids: seq<int>)
    ensures |ids| == |atoms|
    ensures forall k :: 0 <= k < |atoms| ==> ids[k] == atoms[k].id
  {
    seq(|atoms|, k requires 0 <= k < |atoms| => atoms[k].id)
  }

  /** The concatenated atoms of the components, component by component. */
  function FlatAtoms(comps: seq<Component>): seq<Atom>
  {
    if |comps| == 0 then [] else FlatAtoms(comps[..|comps| - 1]) + comps[|comps| - 1].atoms
  }

  function FlatPositions(comps: seq<Component>): seq<Vec>
  {
    if |comps| == 0 then [] else FlatPositions(comps[..|comps| - 1]) + comps[|comps| - 1].positions
  }

  /** The concatenated bonds, each with the index of its component. */
  function TaggedBonds(comps: seq<Component>): (r: seq<(int, Bond)>)
    ensures forall j :: 0 <= j < |r| ==> 0 <= r[j].0 < |comps|
  {
    if |comps| == 0 then []
    else
      var last := comps[|comps| - 1];
      TaggedBonds(comps[..|comps| - 1]) + seq(|last.bonds|, k requires 0 <= k < |last.bonds| => (|comps| - 1, last.bonds[k]))
  }

  /** The ids an endpoint of bond `j` is looked up among: the atoms up to its own component. */
  function LookupIds(comps: seq<Component>, j: int): seq<int>
    requires 0 <= j < |TaggedBonds(comps)|
  {
    IdsOf(FlatAtoms(comps[..TaggedBonds(comps)[j].0 + 1]))
  }

  /** Every bond end is found among the atoms processed before that bond. */
  predicate EndpointsResolve(comps: seq<Component>)
  {
    forall j :: 0 <= j < |TaggedBonds(comps)| ==> Resolves(comps, j)
  }

  /** Both ends of bond `j` are found among the atoms processed before it. */
  predicate Resolves(comps: seq<Component>, j: int)
    requires 0 <= j < |TaggedBonds(comps)|
  {
    var b := TaggedBonds(comps)[j].1;
    b.atom1 in LookupIds(comps, j) && b.atom2 in LookupIds(comps, j)
  }

  /** Bond `j` of the concatenation, renumbered: id `j`, each end the last atom so far with that id. */
  function RemappedBond(comps: seq<Component>, j: int): Bond
    requires 0 <= j < |TaggedBonds(comps)|
  {
    var b := TaggedBonds(comps)[j].1;
    Bond(j, LastIndex(LookupIds(comps, j), b.atom1), LastIndex(LookupIds(comps, j), b.atom2))
  }

  /** `atoms` are `flat` renumbered 0, 1, ... with their elements kept. */
  predicate Renumbered(atoms: seq<Atom>, flat: seq<Atom>)
  {
    && |atoms| == |flat|
    && forall k :: 0 <= k < |flat| ==> atoms[k] == Atom(k, flat[k].element)
  }

  predicate BondsRemapped(bonds: seq<Bond>, comps: seq<Component>)
  {
    && |bonds| == |TaggedBonds(comps)|
    && forall j :: 0 <= j < |bonds| ==> bonds[j] == RemappedBond(comps, j)
  }

  /**
   * What `init_from_components` builds: atom k is `Atom(k, ...)` with the k-th
   * element in component order; bond j is `Bond(j, ...)` with its ends mapped to
   * the last atom so far that carried each id; the rows concatenated; and the
   * components, `cid` and potential stored as given.
   */
  predicate AssembledFrom(s: SupraMolecule, comps: seq<Component>, cid: Option<int>, potential: Option<Energy>)
  {
    && Renumbered(s.atoms, FlatAtoms(comps))
    && BondsRemapped(s.bonds, comps)
    && s.positions == FlatPositions(comps)
    && s.components == comps
    && s.cid == cid && s.potential == potential
  }

  lemma FlatAppend(comps: seq<Component>, ci: int)
    requires 0 <= ci < |comps|
    ensures FlatAtoms(comps[..ci + 1]) == FlatAtoms(comps[..ci]) + comps[ci].atoms
    ensures FlatPositions(comps[..ci + 1]) == FlatPositions(comps[..ci]) + comps[ci].positions
    ensures TaggedBonds(comps[..ci + 1]) == TaggedBonds(comps[..ci]) +
      seq(|comps[ci].bonds|, k requires 0 <= k < |comps[ci].bonds| => (ci, comps[ci].bonds[k]))
  {
    assert comps[..ci + 1][..ci] == comps[..ci];
  }

  /** Adding component `ci` keeps the earlier bond entries and adds its own, looked up among all atoms so far. */
  lemma TaggedStep(comps: seq<Component>, ci: int)
    requires 0 <= ci < |comps|
    ensures |TaggedBonds(comps[..ci + 1])| == |TaggedBonds(comps[..ci])| + |comps[ci].bonds|
    ensures forall j :: 0 <= j < |TaggedBonds(comps[..ci])| ==>
      TaggedBonds(comps[..ci + 1])[j] == TaggedBonds(comps[..ci])[j] &&
      LookupIds(comps[..ci + 1], j) == LookupIds(comps[..ci], j)
    ensures forall k :: 0 <= k < |comps[ci].bonds| ==>
      TaggedBonds(comps[..ci + 1])[|TaggedBonds(comps[..ci])| + k] == (ci, comps[ci].bonds[k]) &&
      LookupIds(comps[..ci + 1], |TaggedBonds(comps[..ci])| + k) == IdsOf(FlatAtoms(comps[..ci + 1]))
  {
    FlatAppend(comps, ci);
    LookupKept(comps, ci);
    assert comps[..ci + 1][..ci + 1] == comps[..ci + 1];
  }

  /** The earlier bonds of a longer prefix are looked up among the same atoms as before. */
  lemma LookupKept(comps: seq<Component>, ci: int)
    requires 0 <= ci < |comps|
    requires TaggedBonds(comps[..ci + 1]) == TaggedBonds(comps[..ci]) +
      seq(|comps[ci].bonds|, k requires 0 <= k < |comps[ci].bonds| => (ci, comps[ci].bonds[k]))
    ensures forall j :: 0 <= j < |TaggedBonds(comps[..ci])| ==>
      LookupIds(comps[..ci + 1], j) == LookupIds(comps[..ci], j)
  {
    var p, q := comps[..ci], comps[..ci + 1];
    forall j | 0 <= j < |TaggedBonds(p)|
      ensures LookupIds(q, j) == LookupIds(p, j)
    {
      var t := TaggedBonds(p)[j].0;
      assert TaggedBonds(q)[j] == TaggedBonds(p)[j];
      assert q[..t + 1] == p[..t + 1];
    }
  }

  /**
   * The atom loop for one component: each atom gets the next id and the
   * dictionary remembers it under the atom's old id.
   */
  method RenumberAtoms(atoms: seq<Atom>, atomIdMap: Dict, ghost flat: seq<Atom>, more: seq<Atom>)
    returns (atoms': seq<Atom>, atomIdMap': Dict)
    requires Renumbered(atoms, flat)
    requires IsIndexDict(atomIdMap, IdsOf(flat))
    ensures Renumbered(atoms', flat + more)
    ensures IsIndexDict(atomIdMap', IdsOf(flat + more))
  {
    atoms', atomIdMap' := atoms, atomIdMap;
    for a := 0 to |more|
      invariant Renumbered(atoms', flat + more[..a])
      invariant IsIndexDict(atomIdMap', IdsOf(flat + more[..a]))
    {
      var atom := more[a];
      ghost var ids := IdsOf(flat + more[..a]);
      var newId := NextId(atomIdMap', ids);
      RenumberStep(atoms', flat, more, a);
      IndexDictAssign(atomIdMap', ids, atom.id);
      atomIdMap' := Assign(atomIdMap', atom.id, newId);
      atoms' := atoms' + [Atom(newId, atom.element)];
    }
    assert more[..|more|] == more;
  }

  /** One more atom renumbered: its id is the count so far. */
  lemma RenumberStep(atoms: seq<Atom>, flat: seq<Atom>, more: seq<Atom>, a: int)
    requires 0 <= a < |more|
    requires Renumbered(atoms, flat + more[..a])
    ensures IdsOf(flat + more[..a + 1]) == IdsOf(flat + more[..a]) + [more[a].id]
    ensures |IdsOf(flat + more[..a])| == |atoms|
    ensures Renumbered(atoms + [Atom(|atoms|, more[a].element)], flat + more[..a + 1])
  {
    assert flat + more[..a + 1] == (flat + more[..a]) + [more[a]];
  }

  /**
   * The bond loop for one component: each bond gets the next id and its ends
   * are looked up in the atom dictionary; `ok` is false where a lookup raises.
   */
  method RenumberBonds(bonds: seq<Bond>, bondIdMap: Dict, ghost bondIds: seq<int>,
                       atomIdMap: Dict, ghost lookup: seq<int>, more: seq<Bond>)
    returns (ok: bool, bonds': seq<Bond>, bondIdMap': Dict, ghost bondIds': seq<int>)
    requires |bonds| == |bondIds| && IsIndexDict(bondIdMap, bondIds)
    requires IsIndexDict(atomIdMap, lookup)
    ensures ok <==> forall k :: 0 <= k < |more| ==> more[k].atom1 in lookup && more[k].atom2 in lookup
    ensures ok ==> |bonds'| == |bondIds'| && IsIndexDict(bondIdMap', bondIds')
    ensures ok ==> RenumberedAfter(bonds', bonds, lookup, more, |more|)
  {
    bonds', bondIdMap', bondIds' := bonds, bondIdMap, bondIds;
    for b := 0 to |more|
      invariant |bonds'| == |bondIds'| && IsIndexDict(bondIdMap', bondIds')
      invariant forall k :: 0 <= k < b ==> more[k].atom1 in lookup && more[k].atom2 in lookup
      invariant RenumberedAfter(bonds', bonds, lookup, more, b)
    {
      var bond := more[b];
      var newId := NextId(bondIdMap', bondIds');
      IndexDictAssign(bondIdMap', bondIds', bond.id);
      bondIdMap' := Assign(bondIdMap', bond.id, newId);
      bondIds' := bondIds' + [bond.id];
      IndexDictGet(atomIdMap, lookup, bond.atom1);
      IndexDictGet(atomIdMap, lookup, bond.atom2);
      if bond.atom1 !in atomIdMap.keys || bond.atom2 !in atomIdMap.keys {
        return false, bonds', bondIdMap', bondIds';
      }
      var nb := Bond(newId, Get(atomIdMap, bond.atom1), Get(atomIdMap, bond.atom2));
      RenumberedAppend(bonds', bonds, lookup, more, b, nb);
      bonds' := bonds' + [nb];
    }
    ok := true;
  }

  /** `done` is `bonds` followed by the first `b` bonds of `more`, renumbered with ends looked up in `lookup`. */
  ghost predicate RenumberedAfter(done: seq<Bond>, bonds: seq<Bond>, lookup: seq<int>, more: seq<Bond>, b: int)
    requires 0 <= b <= |more|
  {
    && |done| == |bonds| + b
    && done[..|bonds|] == bonds
    && forall k :: 0 <= k < b ==>
      done[|bonds| + k] == Bond(|bonds| + k, LastIndex(lookup, more[k].atom1), LastIndex(lookup, more[k].atom2))
  }

  lemma RenumberedAppend(done: seq<Bond>, bonds: seq<Bond>, lookup: seq<int>, more: seq<Bond>, b: int, nb: Bond)
    requires 0 <= b < |more|
    requires RenumberedAfter(done, bonds, lookup, more, b)
    requires nb == Bond(|bonds| + b, LastIndex(lookup, more[b].atom1), LastIndex(lookup, more[b].atom2))
    ensures RenumberedAfter(done + [nb], bonds, lookup, more, b + 1)
  {
    var d := done + [nb];
    assert d[..|bonds|] == done[..|bonds|];
    forall k | 0 <= k < b + 1
      ensures d[|bonds| + k] == Bond(|bonds| + k, LastIndex(lookup, more[k].atom1), LastIndex(lookup, more[k].atom2))
    {
      if k < b {
        assert d[|bonds| + k] == done[|bonds| + k];
      }
    }
  }

  /**
   * `init_from_components`: walk the components in order, renumbering each atom
   * to the next free id and remembering it by its old id, then renumbering each
   * bond likewise and mapping its ends through the atom dictionary, then
   * appending the rows. A bond end that no atom so far carried raises `KeyError`.
   */
  method InitFromComponents(comps: seq<Component>, cid: Option<int>, potential: Option<Energy>)
    returns (r: Result<SupraMolecule, KeyError>)
    ensures r.Failure? <==> !EndpointsResolve(comps)
    ensures r.Success? ==> AssembledFrom(r.value, comps, cid, potential)
  {
    var atoms: seq<Atom> := [];
    var bonds: seq<Bond> := [];
    var positions: seq<Vec> := [];
    var atomIdMap := Empty;
    var bondIdMap := Empty;
    ghost var bondIds: seq<int> := [];
    for ci := 0 to |comps|
      invariant Renumbered(atoms, FlatAtoms(comps[..ci]))
      invariant IsIndexDict(atomIdMap, IdsOf(FlatAtoms(comps[..ci])))
      invariant BondsRemapped(bonds, comps[..ci])
      invariant |bondIds| == |bonds| && IsIndexDict(bondIdMap, bondIds)
      invariant EndpointsResolve(comps[..ci])
      invariant positions == FlatPositions(comps[..ci])
    {
      var comp := comps[ci];
      FlatAppend(comps, ci);
      TaggedStep(comps, ci);
      atoms, atomIdMap := RenumberAtoms(atoms, atomIdMap, FlatAtoms(comps[..ci]), comp.atoms);
      ghost var lookup := IdsOf(FlatAtoms(comps[..ci + 1]));
      var ok, bonds', bondIdMap', bondIds' := RenumberBonds(bonds, bondIdMap, bondIds, atomIdMap, lookup, comp.bonds);
      if !ok {
        ghost var k :| 0 <= k < |comp.bonds| && !(comp.bonds[k].atom1 in lookup && comp.bonds[k].atom2 in lookup);
        BondsFail(comps, ci, k);
        return Failure(KeyError);
      }
      BondsExtend(comps, ci, bonds, bonds');
      bonds, bondIdMap, bondIds := bonds', bondIdMap', bondIds';
      positions := positions + comp.positions;
    }
    assert comps[..|comps|] == comps;
    r := Success(SupraMolecule(atoms, bonds, positions, comps, cid, potential));
  }

  /** The bonds of component `ci`, renumbered after `bonds`, extend the remapped bonds by one component. */
  lemma BondsExtend(comps: seq<Component>, ci: int, bonds: seq<Bond>, bonds': seq<Bond>)
    requires 0 <= ci < |comps|
    requires BondsRemapped(bonds, comps[..ci]) && EndpointsResolve(comps[..ci])
    requires forall k :: 0 <= k < |comps[ci].bonds| ==>
      comps[ci].bonds[k].atom1 in IdsOf(FlatAtoms(comps[..ci + 1])) &&
      comps[ci].bonds[k].atom2 in IdsOf(FlatAtoms(comps[..ci + 1]))
    requires RenumberedAfter(bonds', bonds, IdsOf(FlatAtoms(comps[..ci + 1])), comps[ci].bonds, |comps[ci].bonds|)
    ensures BondsRemapped(bonds', comps[..ci + 1]) && EndpointsResolve(comps[..ci + 1])
  {
    TaggedStep(comps, ci);
    BondsExtendRemapped(comps, ci, bonds, bonds');
    BondsExtendResolve(comps, ci);
  }

  lemma BondsExtendRemapped(comps: seq<Component>, ci: int, bonds: seq<Bond>, bonds': seq<Bond>)
    requires 0 <= ci < |comps|
    requires BondsRemapped(bonds, comps[..ci])
    requires RenumberedAfter(bonds', bonds, IdsOf(FlatAtoms(comps[..ci + 1])), comps[ci].bonds, |comps[ci].bonds|)
    ensures BondsRemapped(bonds', comps[..ci + 1])
  {
    TaggedStep(comps, ci);
    var n := |bonds|;
    forall j | 0 <= j < |bonds'|
      ensures bonds'[j] == RemappedBond(comps[..ci + 1], j)
    {
      if j < n {
        assert bonds'[j] == bonds'[..n][j];
      } else {
        assert bonds'[n + (j - n)] == bonds'[j];
      }
    }
  }

  lemma BondsExtendResolve(comps: seq<Component>, ci: int)
    requires 0 <= ci < |comps|
    requires EndpointsResolve(comps[..ci])
    requires forall k :: 0 <= k < |comps[ci].bonds| ==>
      comps[ci].bonds[k].atom1 in IdsOf(FlatAtoms(comps[..ci + 1])) &&
      comps[ci].bonds[k].atom2 in IdsOf(FlatAtoms(comps[..ci + 1]))
    ensures EndpointsResolve(comps[..ci + 1])
  {
    TaggedStep(comps, ci);
    var q := comps[..ci + 1];
    var n := |TaggedBonds(comps[..ci])|;
    forall j | 0 <= j < |TaggedBonds(q)|
      ensures Resolves(q, j)
    {
      if j < n {
        assert Resolves(comps[..ci], j);
      } else {
        var k := j - n;
        assert TaggedBonds(q)[n + k] == (ci, comps[ci].bonds[k]);
      }
    }
  }

  /** A bond of component `ci` whose end no atom so far carries makes the whole walk fail. */
  lemma BondsFail(comps: seq<Component>, ci: int, k: int)
    requires 0 <= ci < |comps|
    requires 0 <= k < |comps[ci].bonds|
    requires !(comps[ci].bonds[k].atom1 in IdsOf(FlatAtoms(comps[..ci + 1])) &&
               comps[ci].bonds[k].atom2 in IdsOf(FlatAtoms(comps[..ci + 1])))
    ensures !EndpointsResolve(comps)
  {
    TaggedStep(comps, ci);
    var n := |TaggedBonds(comps[..ci])|;
    assert !Resolves(comps[..ci + 1], n + k);
    NotResolvePrefix(comps, ci + 1);
  }

  /** The bond entries of a prefix of the components agree with those of all of them. */
  lemma {:induction false} TaggedPrefix(comps: seq<Component>, n: int)
    requires 0 <= n <= |comps|
    ensures |TaggedBonds(comps[..n])| <= |TaggedBonds(comps)|
    ensures forall j :: 0 <= j < |TaggedBonds(comps[..n])| ==> TaggedBonds(comps[..n])[j] == TaggedBonds(comps)[j]
    ensures forall j :: 0 <= j < |TaggedBonds(comps[..n])| ==> LookupIds(comps[..n], j) == LookupIds(comps, j)
    decreases |comps| - n
  {
    if n < |comps| {
      TaggedPrefix(comps, n + 1);
      TaggedStep(comps, n);
    } else {
      assert comps[..n] == comps;
    }
  }

  /** A bond end that fails to resolve within a prefix fails within the whole. */
  lemma NotResolvePrefix(comps: seq<Component>, n: int)
    requires 0 <= n <= |comps|
    requires !EndpointsResolve(comps[..n])
    ensures !EndpointsResolve(comps)
  {
    TaggedPrefix(comps, n);
    var j :| 0 <= j < |TaggedBonds(comps[..n])| && !Resolves(comps[..n], j);
    assert !Resolves(comps, j);
  }

  // ---------------------------------------------------------------------------
  // Properties of the assembled structure

  /**
   * Within a component whose atom ids are distinct, a bond end carried by an
   * atom of the bond's own component is renumbered to that atom's place in the
   * concatenation, even when earlier components reuse the id.
   */
  lemma OwnComponentRemap(comps: seq<Component>, ci: int, local: int)
    requires 0 <= ci < |comps|
    requires 0 <= local < |comps[ci].atoms|
    requires forall i, j :: 0 <= i < j < |comps[ci].atoms| ==> comps[ci].atoms[i].id != comps[ci].atoms[j].id
    ensures LastIndex(IdsOf(FlatAtoms(comps[..ci + 1])), comps[ci].atoms[local].id) == |FlatAtoms(comps[..ci])| + local
  {
    FlatAppend(comps, ci);
    var pre := IdsOf(FlatAtoms(comps[..ci]));
    var own := IdsOf(comps[ci].atoms);
    var all := IdsOf(FlatAtoms(comps[..ci + 1]));
    assert all == pre + own;
    var x := comps[ci].atoms[local].id;
    var r := LastIndex(all, x);
    var target := |pre| + local;
    assert all[target] == x;
    assert r >= target;
  }

  /** The assembled rows are as many as the atoms when every component has one row per atom. */
  lemma {:induction false} RowsMatchAtoms(comps: seq<Component>)
    requires forall c :: c in comps ==> |c.positions| == |c.atoms|
    ensures |FlatPositions(comps)| == |FlatAtoms(comps)|
  {
    if |comps| > 0 {
      RowsMatchAtoms(comps[..|comps| - 1]);
    }
  }

  /** The assembled atom ids are exactly 0, 1, ..., n-1, whatever ids the components used. */
  lemma AssembledIdsContiguous(s: SupraMolecule, comps: seq<Component>, cid: Option<int>, potential: Option<Energy>)
    requires AssembledFrom(s, comps, cid, potential)
    ensures IdsOf(s.atoms) == seq(|FlatAtoms(comps)|, k => k)
    ensures forall j :: 0 <= j < |s.bonds| ==> s.bonds[j].id == j
  {
  }

  /** Renumbered bond ends name atoms of the assembled structure when they resolve. */
  lemma AssembledEndpointsKnown(s: SupraMolecule, comps: seq<Component>, cid: Option<int>, potential: Option<Energy>)
    requires AssembledFrom(s, comps, cid, potential)
    requires EndpointsResolve(comps)
    requires forall c :: c in comps ==> |c.positions| == |c.atoms|
    ensures WellFormed(s.atoms, s.bonds, s.positions)
  {
    RowsMatchAtoms(comps);
    var tagged := TaggedBonds(comps);
    forall j | 0 <= j < |s.bonds|
      ensures s.bonds[j].atom1 in AtomIds(s.atoms) && s.bonds[j].atom2 in AtomIds(s.atoms)
    {
      var t := tagged[j].0;
      assert Resolves(comps, j);
      TaggedPrefix(comps, t + 1);
      PrefixFlatShorter(comps, t + 1);
      var a1 := s.bonds[j].atom1;
      var a2 := s.bonds[j].atom2;
      assert 0 <= a1 < |s.atoms| && s.atoms[a1].id == a1;
      assert 0 <= a2 < |s.atoms| && s.atoms[a2].id == a2;
    }
  }

  lemma {:induction false} PrefixFlatShorter(comps: seq<Component>, n: int)
    requires 0 <= n <= |comps|
    ensures |FlatAtoms(comps[..n])| <= |FlatAtoms(comps)|
    decreases |comps| - n
  {
    if n < |comps| {
      PrefixFlatShorter(comps, n + 1);
      FlatAppend(comps, n);
    } else {
      assert comps[..n] == comps;
    }
  }
}
