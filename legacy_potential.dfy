/**
 * The legacy potential classes: a `Potential` base whose `compute_potential`
 * is left to subclasses, and an `SpdPotential` with one epsilon, radii mixed
 * through `_mixing_function`, and a total over the pairs of components
 * zipped without the strict length check: the shorter pair listing decides
 * how many pairs are summed.
 */
module LegacyPotentials {
  import opened Wrappers
  import opened Geometry
  import opened Floats
  import opened Supramolecules
  import opened Combinations
  import opened Potentials

  /** `NotImplementedError`, raised by the base class. */
  datatype NotImplemented = NotImplemented

  /** `Potential.compute_potential`: the base class computes nothing, for every supramolecule. */
  function BaseComputePotential(s: SupraMolecule): (r: Result<Energy, NotImplemented>)
    ensures r.Failure?
  {
    Failure(NotImplemented)
  }

  /** The legacy `SpdPotential(nonbond_epsilon=5)`. */
  const DefaultLegacyEpsilon: real := 5.0

  /** A plain `zip` stops at the end of the shorter listing. */
  function ZipLength(numPms: nat, numRadii: nat): (k: nat)
    ensures k <= |Pairs(numPms)| && k <= |Pairs(numRadii)|
    ensures k == |Pairs(numPms)| || k == |Pairs(numRadii)|
  {
    if |Pairs(numPms)| <= |Pairs(numRadii)| then |Pairs(numPms)| else |Pairs(numRadii)|
  }

  /** The pairs of matrices and the pairs of radius lists taken by the plain `zip`. */
  function ZippedPms(numPms: nat, numRadii: nat): (pps: seq<(nat, nat)>)
    ensures |pps| == ZipLength(numPms, numRadii)
  {
    Pairs(numPms)[..ZipLength(numPms, numRadii)]
  }

  function ZippedRadii(numPms: nat, numRadii: nat): (rps: seq<(nat, nat)>)
    ensures |rps| == ZipLength(numPms, numRadii)
  {
    Pairs(numRadii)[..ZipLength(numPms, numRadii)]
  }

  /** Every zipped pair of matrices has as many rows as its pair of radius lists has entries. */
  predicate LegacyShaped(pms: seq<seq<Vec>>, radii: seq<seq<real>>)
  {
    ZipShaped(Scalar(0.0), pms, radii, ZippedPms(|pms|, |radii|), ZippedRadii(|pms|, |radii|))
  }

  /** The legacy total: the zipped pairs summed in order from 0. */
  ghost function LegacyTotal(sqrt: real -> real, epsilon: real, pms: seq<seq<Vec>>, radii: seq<seq<real>>): Energy
    requires LegacyShaped(pms, radii)
  {
    ZipEnergy(sqrt, Scalar(epsilon), pms, radii, ZippedPms(|pms|, |radii|), ZippedRadii(|pms|, |radii|))
  }

  /** Shapes do not depend on the epsilon, which is read only when the terms are summed. */
  lemma ShapedForAnyEpsilon(epsilon: real, pms: seq<seq<Vec>>, radii: seq<seq<real>>, pps: seq<(nat, nat)>, rps: seq<(nat, nat)>)
    requires ZipShaped(Scalar(0.0), pms, radii, pps, rps)
    ensures ZipShaped(Scalar(epsilon), pms, radii, pps, rps)
  {
  }

  /**
   * `_compute_nonbonded_potential`: for each zipped pair, mix the radii, sum
   * the terms over the block and add the sum to the running total.
   */
  method LegacyComputeNonbondedPotential(sqrt: real -> real, epsilon: real, pms: seq<seq<Vec>>, radii: seq<seq<real>>)
    returns (total: Energy)
    requires LegacyShaped(pms, radii)
    ensures total == LegacyTotal(sqrt, epsilon, pms, radii)
  {
    var pps := ZippedPms(|pms|, |radii|);
    var rps := ZippedRadii(|pms|, |radii|);
    ShapedForAnyEpsilon(epsilon, pms, radii, pps, rps);
    total := Finite(0.0);
    for k := 0 to |pps|
      invariant ZipShaped(Scalar(epsilon), pms, radii, pps[..k], rps[..k])
      invariant total == ZipEnergy(sqrt, Scalar(epsilon), pms, radii, pps[..k], rps[..k])
    {
      var block := SumPair(sqrt, Scalar(epsilon), pms, radii, pps[k], rps[k]);
      ZipStep(sqrt, Scalar(epsilon), pms, radii, pps, rps, k);
      total := Floats.Add(total, block);
    }
    assert pps[..|pps|] == pps && rps[..|rps|] == rps;
  }

  /**
   * With as many radius lists as matrices the plain `zip` takes every pair,
   * and the legacy total is the total of the current `SpdPotential`.
   */
  lemma LegacyAgreesWhenCountsMatch(sqrt: real -> real, epsilon: real, pms: seq<seq<Vec>>, radii: seq<seq<real>>)
    requires Matching(Scalar(epsilon), pms, radii) && |pms| == |radii|
    ensures !ZipFails(Scalar(epsilon), |pms|, |radii|)
    ensures LegacyShaped(pms, radii)
    ensures LegacyTotal(sqrt, epsilon, pms, radii) == Total(sqrt, Scalar(epsilon), pms, radii)
  {
    var pairs := Pairs(|pms|);
    assert pairs[..|pairs|] == pairs;
    PairsShaped(Scalar(epsilon), pms, radii);
  }

  /**
   * With more radius lists than matrices the plain `zip` pairs matrices with
   * the radii of other components: for three matrices and four radius lists
   * the third pair of matrices, (1, 2), meets the radii of (0, 3).
   */
  lemma LegacyZipMisaligns()
    ensures ZipLength(3, 4) == 3
    ensures ZippedPms(3, 4)[2] == (1, 2) && ZippedRadii(3, 4)[2] == (0, 3)
  {
    assert PairsFrom(3, 3) == [];
    assert PairsFrom(2, 3) == [];
    assert PairsFrom(1, 3) == [(1, 2)];
    assert PairsFrom(0, 3) == [(0, 1), (0, 2), (1, 2)];
    assert PairsFrom(0, 4)[..3] == [(0, 1), (0, 2), (0, 3)];
    PairsCount(4);
  }

  /**
   * The legacy `SpdPotential.compute_potential`: `get_radius` of each atom in
   * `get_atoms` order, per component, paired with that component's rows.
   */
  method LegacyComputePotential(sqrt: real -> real, epsilon: real, params: AtomParameters, s: SupraMolecule)
    returns (e: Energy)
    requires RowsPerAtom(s)
    ensures e == SupraPotential(sqrt, SpdPotential(epsilon), params, s)
  {
    ComponentListsZip(SpdPotential(epsilon), params, s);
    LegacyAgreesWhenCountsMatch(sqrt, epsilon, ComponentRows(s), AtomValues(params.radius, s));
    e := LegacyComputeNonbondedPotential(sqrt, epsilon, ComponentRows(s), AtomValues(params.radius, s));
  }
}
