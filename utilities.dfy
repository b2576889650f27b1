/**
 * Distances over a structure: between two rows of a position matrix, the
 * smallest distance between atoms of different components, and the distance
 * between the centroids of a two-component structure. The Euclidean distance
 * is `Geometry.Distance` over a square-root parameter.
 */
module Utilities {
  import opened Wrappers
  import opened Geometry
  import opened Molecules
  import opened Supramolecules
  import opened Combinations

  /** numpy raises `IndexError` for a row index outside `[-n, n)`. */
  datatype IndexError = IndexError

  /** `get_atom_distance`: the distance between two rows, each index read as numpy reads it. */
  function GetAtomDistance(sqrt: real -> real, pm: seq<Vec>, atom1: int, atom2: int): (r: Result<real, IndexError>)
    ensures r.Success? <==> InRange(atom1, |pm|) && InRange(atom2, |pm|)
  {
    if InRange(atom1, |pm|) && InRange(atom2, |pm|) then
      Success(Distance(sqrt, pm[Wrap(atom1, |pm|)], pm[Wrap(atom2, |pm|)]))
    else Failure(IndexError)
  }

  /** The distance does not depend on the order of the two atoms, and is zero only between coincident rows. */
  lemma AtomDistanceSymmetric(sqrt: real -> real, pm: seq<Vec>, atom1: int, atom2: int)
    requires IsSqrt(sqrt)
    ensures GetAtomDistance(sqrt, pm, atom1, atom2) == GetAtomDistance(sqrt, pm, atom2, atom1)
    ensures GetAtomDistance(sqrt, pm, atom1, atom2).Success? ==>
      var d := GetAtomDistance(sqrt, pm, atom1, atom2).value;
      d >= 0.0 && (d == 0.0 <==> pm[Wrap(atom1, |pm|)] == pm[Wrap(atom2, |pm|)])
  {
    if InRange(atom1, |pm|) && InRange(atom2, |pm|) {
      var a, b := pm[Wrap(atom1, |pm|)], pm[Wrap(atom2, |pm|)];
      DistanceSymmetric(sqrt, a, b);
      DistanceZeroIff(sqrt, a, b);
    }
  }

  /** The matrix of the utilities test: the origin, one unit along y, two units along x. */
  predicate IsTestMatrix(pm: seq<Vec>)
  {
    |pm| == 3 && pm[0] == Vec(0.0, 0.0, 0.0) && pm[1] == Vec(0.0, 1.0, 0.0) && pm[2] == Vec(2.0, 0.0, 0.0)
  }

  /** The test's first expected distance: one unit along y. */
  lemma AtomDistanceExampleY(sqrt: real -> real, pm: seq<Vec>)
    requires IsSqrt(sqrt) && IsTestMatrix(pm)
    ensures GetAtomDistance(sqrt, pm, 0, 1) == Success(1.0)
  {
    AtomDistanceIs(sqrt, pm, 0, 1, 1.0, 1.0);
  }

  /** The test's second expected distance: two units along x. */
  lemma AtomDistanceExampleX(sqrt: real -> real, pm: seq<Vec>)
    requires IsSqrt(sqrt) && IsTestMatrix(pm)
    ensures GetAtomDistance(sqrt, pm, 0, 2) == Success(2.0)
  {
    AtomDistanceIs(sqrt, pm, 0, 2, 4.0, 2.0);
  }

  /** Rows at squared distance `sq = d * d` are `d` apart. */
  lemma AtomDistanceIs(sqrt: real -> real, pm: seq<Vec>, atom1: nat, atom2: nat, sq: real, d: real)
    requires IsSqrt(sqrt)
    requires atom1 < |pm| && atom2 < |pm|
    requires SqDist(pm[atom1], pm[atom2]) == sq
    requires 0.0 <= d && d * d == sq
    ensures GetAtomDistance(sqrt, pm, atom1, atom2) == Success(d)
  {
    SqrtUnique(sqrt, sq, d);
  }

  /** The starting minimum, `1e24`. */
  const Sentinel: real := 1000000000000000000000000.0

  /** Python's `min()` of an empty sequence raises `ValueError`. */
  datatype MinError = EmptyComponent

  /** `d` is at most every distance between a row of `p` and a row of `q`. */
  ghost predicate BelowAll(sqrt: real -> real, d: real, p: seq<Vec>, q: seq<Vec>)
  {
    forall a, b :: 0 <= a < |p| && 0 <= b < |q| ==> d <= Distance(sqrt, p[a], q[b])
  }

  /** `d` is one of the distances between a row of `p` and a row of `q`. */
  ghost predicate Attained(sqrt: real -> real, d: real, p: seq<Vec>, q: seq<Vec>)
  {
    exists a, b :: 0 <= a < |p| && 0 <= b < |q| && d == Distance(sqrt, p[a], q[b])
  }

  /** One row of `cdist`: the smaller of `m0` and the distances from `v` to the rows of `q`. */
  method MinRowDistance(sqrt: real -> real, v: Vec, q: seq<Vec>, m0: real) returns (m: real, ghost b0: int)
    ensures m <= m0
    ensures forall b :: 0 <= b < |q| ==> m <= Distance(sqrt, v, q[b])
    ensures m == m0 || (0 <= b0 < |q| && m == Distance(sqrt, v, q[b0]))
  {
    m, b0 := m0, -1;
    for b := 0 to |q|
      invariant m <= m0
      invariant forall b' :: 0 <= b' < b ==> m <= Distance(sqrt, v, q[b'])
      invariant m == m0 || (0 <= b0 < |q| && m == Distance(sqrt, v, q[b0]))
    {
      var d := Distance(sqrt, v, q[b]);
      if d < m {
        m, b0 := d, b;
      }
    }
  }

  /** `min(cdist(p, q).flatten())`, the rows scanned in row-major order. */
  method MinCrossDistance(sqrt: real -> real, p: seq<Vec>, q: seq<Vec>) returns (m: real, ghost a0: int, ghost b0: int)
    requires |p| > 0 && |q| > 0
    ensures BelowAll(sqrt, m, p, q)
    ensures 0 <= a0 < |p| && 0 <= b0 < |q| && m == Distance(sqrt, p[a0], q[b0])
  {
    m, a0, b0 := Distance(sqrt, p[0], q[0]), 0, 0;
    for a := 0 to |p|
      invariant 0 <= a0 < |p| && 0 <= b0 < |q| && m == Distance(sqrt, p[a0], q[b0])
      invariant forall a', b :: 0 <= a' < a && 0 <= b < |q| ==> m <= Distance(sqrt, p[a'], q[b])
    {
      var m', b' := MinRowDistance(sqrt, p[a], q, m);
      if m' != m {
        a0, b0 := a, b';
      }
      m := m';
    }
  }

  /**
   * `calculate_min_atom_distance`: the smaller of `1e24` and every distance
   * between atoms of two different components. A pair whose distance matrix is
   * empty makes `min` raise.
   */
  method CalculateMinAtomDistance(sqrt: real -> real, s: SupraMolecule) returns (r: Result<real, MinError>)
    ensures r.Failure? <==> |s.components| >= 2 && exists c :: 0 <= c < |s.components| && |s.components[c].positions| == 0
    ensures r.Success? ==> r.value <= Sentinel
    ensures r.Success? ==> forall i, j :: 0 <= i < j < |s.components| ==>
      BelowAll(sqrt, r.value, s.components[i].positions, s.components[j].positions)
    ensures r.Success? ==> (r.value == Sentinel ||
      exists i, j :: 0 <= i < j < |s.components| && Attained(sqrt, r.value, s.components[i].positions, s.components[j].positions))
  {
    var pms := ComponentRows(s);
    var pairs := Pairs(|pms|);
    var minDistance := Sentinel;
    ghost var wi, wj := 0, 0;
    for k := 0 to |pairs|
      invariant minDistance <= Sentinel
      invariant forall k' :: 0 <= k' < k ==> ScannedPair(sqrt, minDistance, pms, pairs[k'])
      invariant minDistance == Sentinel || (0 <= wi < wj < |pms| && Attained(sqrt, minDistance, pms[wi], pms[wj]))
    {
      var (i, j) := pairs[k];
      if |pms[i]| == 0 || |pms[j]| == 0 {
        EmptyComponentInPair(pms, i, j);
        return Failure(EmptyComponent);
      }
      var m, a0, b0 := MinCrossDistance(sqrt, pms[i], pms[j]);
      if m < minDistance {
        minDistance, wi, wj := m, i, j;
      }
    }
    AllPairsScanned(sqrt, minDistance, pms);
    r := Success(minDistance);
  }

  /** The pair `(i, j)` was scanned: both row lists are nonempty and `d` is below their distances. */
  ghost predicate ScannedPair(sqrt: real -> real, d: real, pms: seq<seq<Vec>>, ij: (nat, nat))
  {
    ij.0 < |pms| && ij.1 < |pms| && |pms[ij.0]| > 0 && |pms[ij.1]| > 0 && BelowAll(sqrt, d, pms[ij.0], pms[ij.1])
  }

  /** An empty row list in a listed pair means two or more lists, one of them empty. */
  lemma EmptyComponentInPair(pms: seq<seq<Vec>>, i: nat, j: nat)
    requires i < j < |pms|
    requires |pms[i]| == 0 || |pms[j]| == 0
    ensures |pms| >= 2 && exists c :: 0 <= c < |pms| && |pms[c]| == 0
  {
    if |pms[i]| == 0 {
      assert |pms[i]| == 0;
    } else {
      assert |pms[j]| == 0;
    }
  }

  /** Once every listed pair is scanned, every list is nonempty (when there are two) and `d` is below every pair. */
  lemma AllPairsScanned(sqrt: real -> real, d: real, pms: seq<seq<Vec>>)
    requires forall k :: 0 <= k < |Pairs(|pms|)| ==> ScannedPair(sqrt, d, pms, Pairs(|pms|)[k])
    ensures forall i, j :: 0 <= i < j < |pms| ==> BelowAll(sqrt, d, pms[i], pms[j])
    ensures |pms| >= 2 ==> forall c :: 0 <= c < |pms| ==> |pms[c]| > 0
  {
    var pairs := Pairs(|pms|);
    PairsExactlyOnce(|pms|);
    forall i, j | 0 <= i < j < |pms|
      ensures BelowAll(sqrt, d, pms[i], pms[j])
    {
      assert (i, j) in pairs;
      var k :| 0 <= k < |pairs| && pairs[k] == (i, j);
      assert ScannedPair(sqrt, d, pms, pairs[k]);
    }
    forall c | 0 <= c < |pms| && |pms| >= 2
      ensures |pms[c]| > 0
    {
      var ij := if c == 0 then (0, 1) else (0, c);
      assert ij in pairs;
      var k :| 0 <= k < |pairs| && pairs[k] == ij;
      assert ScannedPair(sqrt, d, pms, pairs[k]);
    }
  }

  /**
   * The two `ValueError`s of `calculate_centroid_distance`: there are not
   * exactly two components, or `get_centroid` finds a component without atoms.
   */
  datatype CentroidError = NotTwoComponents | NoCentroid

  /**
   * `calculate_centroid_distance`: the norm of the difference of the two
   * components' centroids (the mean of each one's rows).
   */
  function CalculateCentroidDistance(sqrt: real -> real, s: SupraMolecule): (r: Result<real, CentroidError>)
    requires OneRowPerAtom(s.components)
    ensures r.Failure? <==> |s.components| != 2 || |s.components[0].atoms| == 0 || |s.components[1].atoms| == 0
    ensures r.Failure? ==> (r.error == NotTwoComponents <==> |s.components| != 2)
    ensures r.Success? ==> r.value == Distance(sqrt, Mean(s.components[0].positions), Mean(s.components[1].positions))
  {
    if |s.components| != 2 then Failure(NotTwoComponents)
    else if |s.components[0].atoms| == 0 || |s.components[1].atoms| == 0 then Failure(NoCentroid)
    else Success(Norm(sqrt, Sub(Mean(s.components[0].positions), Mean(s.components[1].positions))))
  }

  /** The centroid distance is non-negative and zero exactly when the two centroids coincide. */
  lemma CentroidDistanceZeroIff(sqrt: real -> real, s: SupraMolecule)
    requires IsSqrt(sqrt) && OneRowPerAtom(s.components)
    requires |s.components| == 2
    requires |s.components[0].atoms| > 0 && |s.components[1].atoms| > 0
    ensures CalculateCentroidDistance(sqrt, s).value >= 0.0
    ensures CalculateCentroidDistance(sqrt, s).value == 0.0 <==>
      Mean(s.components[0].positions) == Mean(s.components[1].positions)
  {
    DistanceZeroIff(sqrt, Mean(s.components[0].positions), Mean(s.components[1].positions));
  }
}
