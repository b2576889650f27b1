/**
 * The first engine of the package, which moves guest molecules relative to
 * one fixed host. Its potential is a purely repulsive
 * `epsilon * (sigma / d) ** mu` summed over every pair of atoms of different
 * molecules. A step picks one guest, translates it by minus a random vector,
 * rotates it about its centroid and writes it back into the caller's guest
 * list in place; a rejected move therefore stays in that list.
 *
 * Two generators feed a run: Python's `random` (the target, the two step
 * scalars and the acceptance draw) and numpy's global generator (the
 * translation direction and the rotation axis). Each is a stream of draws
 * with its own cursor.
 */
module LegacySpinners {
  import opened Wrappers
  import opened Geometry
  import opened Floats
  import opened Molecules
  import opened Combinations
  import opened Metropolis

  /** The constructor's defaults. */
  const DefaultMaxAttempts: int := 1000
  const DefaultNonbondEpsilon: real := 20.0
  const DefaultNonbondSigma: real := 1.2
  const DefaultNonbondMu: nat := 3
  const DefaultBeta: real := 2.0

  /** The exceptions a run can raise. */
  datatype LegacyError =
    | IndexError         // `random.choice` of no guests, or an atom id outside the position matrix
    | ValueError         // the centroid of a guest without atoms
    | UnboundLocalError  // the closing report reads the loop variable of a loop that never ran

  /** `nonbond_epsilon`, `nonbond_sigma` and `nonbond_mu` of the constructor. */
  datatype Nonbond = Nonbond(epsilon: real, sigma: real, mu: nat)

  // ---------------------------------------------------------------------------
  // The potential

  /** `_nonbond_potential` of one distance: `epsilon * (sigma / distance) ** mu`. */
  function Term(nb: Nonbond, d: real): Energy
  {
    Times(Finite(nb.epsilon), Pow(Div(nb.sigma, d), nb.mu))
  }

  /** At a positive distance the term is the finite real `epsilon * (sigma / d) ** mu`. */
  lemma TermOfPositive(nb: Nonbond, d: real)
    requires d > 0.0
    ensures Term(nb, d) == Finite(nb.epsilon * RealPow(nb.sigma / d, nb.mu))
  {
    PowOfFinite(nb.sigma / d, nb.mu);
  }

  /** With the default parameters the term is 34.56 at distance 1, 4.32 at 2 and 1.28 at 3. */
  lemma TermFixtures()
    ensures Term(Nonbond(DefaultNonbondEpsilon, DefaultNonbondSigma, DefaultNonbondMu), 1.0) == Finite(34.56)
    ensures Term(Nonbond(DefaultNonbondEpsilon, DefaultNonbondSigma, DefaultNonbondMu), 2.0) == Finite(4.32)
    ensures Term(Nonbond(DefaultNonbondEpsilon, DefaultNonbondSigma, DefaultNonbondMu), 3.0) == Finite(1.28)
  {
    var nb := Nonbond(DefaultNonbondEpsilon, DefaultNonbondSigma, DefaultNonbondMu);
    TermOfPositive(nb, 1.0);
    TermOfPositive(nb, 2.0);
    TermOfPositive(nb, 3.0);
  }

  /** The term is repulsive: positive, and strictly smaller at a larger distance. */
  lemma TermRepulsive(nb: Nonbond, d1: real, d2: real)
    requires nb.epsilon > 0.0 && nb.sigma > 0.0 && nb.mu > 0
    requires 0.0 < d1 < d2
    ensures Term(nb, d1).Finite? && Term(nb, d2).Finite?
    ensures 0.0 < Term(nb, d2).value < Term(nb, d1).value
  {
    TermOfPositive(nb, d1);
    TermOfPositive(nb, d2);
    QuotientDecreases(nb.sigma, d1, d2);
    RealPowBounds(nb.sigma / d2, nb.mu);
    RealPowIncreasing(nb.sigma / d2, nb.sigma / d1, nb.mu);
    PositiveProductsOrdered(nb.epsilon, RealPow(nb.sigma / d2, nb.mu), RealPow(nb.sigma / d1, nb.mu));
  }

  /** Two coincident atoms give an infinite term. */
  lemma TermAtContact(nb: Nonbond)
    requires nb.epsilon > 0.0 && nb.sigma > 0.0 && nb.mu > 0
    ensures Term(nb, 0.0) == PosInf
  {
    PowOfInfinity(PosInf, nb.mu);
  }

  lemma QuotientDecreases(s: real, d1: real, d2: real)
    requires s > 0.0 && 0.0 < d1 < d2
    ensures 0.0 < s / d2 < s / d1
  {
    var a, b := s / d1, s / d2;
    assert 0.0 < b;
    assert b * d1 < b * d2;
    assert b * d1 < a * d1;
  }

  lemma PositiveProductsOrdered(e: real, a: real, b: real)
    requires e > 0.0 && 0.0 < a < b
    ensures 0.0 < e * a < e * b
  {
  }

  lemma {:induction false} RealPowIncreasing(x: real, y: real, n: nat)
    requires 0.0 < x < y && n > 0
    ensures RealPow(x, n) < RealPow(y, n)
  {
    if n > 1 {
      RealPowIncreasing(x, y, n - 1);
      RealPowBounds(x, n - 1);
      var a, b := RealPow(x, n - 1), RealPow(y, n - 1);
      assert x * a < y * a;
      assert y * a < y * b;
    }
  }

  lemma {:induction false} RealPowNonNegative(x: real, n: nat)
    requires x >= 0.0
    ensures RealPow(x, n) >= 0.0
  {
    if n > 0 {
      RealPowNonNegative(x, n - 1);
      assert x * RealPow(x, n - 1) >= 0.0;
    }
  }

  /** The terms from row `v` to the rows of `q`, in order. */
  function RowSum(sqrt: real -> real, nb: Nonbond, v: Vec, q: seq<Vec>): Energy
  {
    if |q| == 0 then Finite(0.0)
    else Floats.Add(RowSum(sqrt, nb, v, q[..|q| - 1]), Term(nb, Distance(sqrt, v, q[|q| - 1])))
  }

  /** `np.sum` of the terms of `cdist(p, q).flatten()`: every row of `p` against every row of `q`. */
  function CrossSum(sqrt: real -> real, nb: Nonbond, p: seq<Vec>, q: seq<Vec>): Energy
  {
    if |p| == 0 then Finite(0.0)
    else Floats.Add(CrossSum(sqrt, nb, p[..|p| - 1], q), RowSum(sqrt, nb, p[|p| - 1], q))
  }

  /** The pair sums of the listed pairs of matrices, added in order. */
  function PairsSum(sqrt: real -> real, nb: Nonbond, pms: seq<seq<Vec>>, pairs: seq<(nat, nat)>): Energy
    requires forall k :: 0 <= k < |pairs| ==> pairs[k].0 < |pms| && pairs[k].1 < |pms|
  {
    if |pairs| == 0 then Finite(0.0)
    else
      var (i, j) := pairs[|pairs| - 1];
      Floats.Add(PairsSum(sqrt, nb, pms, pairs[..|pairs| - 1]), CrossSum(sqrt, nb, pms[i], pms[j]))
  }

  /** The host's matrix, then the guests' matrices in order. */
  function Matrices(host: Molecule, guests: seq<Molecule>): (pms: seq<seq<Vec>>)
    ensures |pms| == |guests| + 1 && pms[0] == host.positions
    ensures forall g :: 0 <= g < |guests| ==> pms[g + 1] == guests[g].positions
  {
    [host.positions] + seq(|guests|, g requires 0 <= g < |guests| => guests[g].positions)
  }

  /** `_compute_potential`: the pair sums over every pair of the host's and the guests' matrices. */
  function LegacyPotential(sqrt: real -> real, nb: Nonbond, host: Molecule, guests: seq<Molecule>): Energy
  {
    var pms := Matrices(host, guests);
    PairsSum(sqrt, nb, pms, Pairs(|pms|))
  }

  /** A host alone has no pairs and a zero potential. */
  lemma PotentialOfNoGuests(sqrt: real -> real, nb: Nonbond, host: Molecule)
    ensures LegacyPotential(sqrt, nb, host, []) == Finite(0.0)
  {
    assert PairsFrom(1, 1) == [];
    assert Pairs(1) == [];
  }

  /** With one guest the potential is the pair sum of the host and that guest. */
  lemma PotentialOfOneGuest(sqrt: real -> real, nb: Nonbond, host: Molecule, guest: Molecule)
    ensures LegacyPotential(sqrt, nb, host, [guest]) == CrossSum(sqrt, nb, host.positions, guest.positions)
  {
    var pms := Matrices(host, [guest]);
    assert pms == [host.positions, guest.positions];
    assert PairsFrom(1, 2) == [];
    assert PairsFrom(0, 2) == [(0, 1)] + PairsFrom(1, 2);
    var pairs := Pairs(2);
    assert pairs == [(0, 1)];
    assert pairs[..0] == [];
    var x := CrossSum(sqrt, nb, host.positions, guest.positions);
    assert PairsSum(sqrt, nb, pms, pairs) == Floats.Add(Finite(0.0), x);
    AddZero(x);
  }

  /** No atom of one matrix sits on an atom of another. */
  predicate Apart(p: seq<Vec>, q: seq<Vec>)
  {
    forall a, b :: 0 <= a < |p| && 0 <= b < |q| ==> p[a] != q[b]
  }

  predicate NonNegative(e: Energy)
  {
    e.Finite? && e.value >= 0.0
  }

  /**
   * A non-negative epsilon and sigma make the potential a finite non-negative
   * number as long as no two atoms of different molecules coincide.
   */
  lemma PotentialNonNegative(sqrt: real -> real, nb: Nonbond, host: Molecule, guests: seq<Molecule>)
    requires IsSqrt(sqrt) && nb.epsilon >= 0.0 && nb.sigma >= 0.0
    requires forall i, j :: 0 <= i < j <= |guests| ==> Apart(Matrices(host, guests)[i], Matrices(host, guests)[j])
    ensures NonNegative(LegacyPotential(sqrt, nb, host, guests))
  {
    var pms := Matrices(host, guests);
    PairsSumNonNegative(sqrt, nb, pms, Pairs(|pms|));
  }

  lemma {:induction false} PairsSumNonNegative(sqrt: real -> real, nb: Nonbond, pms: seq<seq<Vec>>, pairs: seq<(nat, nat)>)
    requires IsSqrt(sqrt) && nb.epsilon >= 0.0 && nb.sigma >= 0.0
    requires forall k :: 0 <= k < |pairs| ==> pairs[k].0 < pairs[k].1 < |pms|
    requires forall i, j :: 0 <= i < j < |pms| ==> Apart(pms[i], pms[j])
    ensures NonNegative(PairsSum(sqrt, nb, pms, pairs))
  {
    if |pairs| > 0 {
      var (i, j) := pairs[|pairs| - 1];
      PairsSumNonNegative(sqrt, nb, pms, pairs[..|pairs| - 1]);
      CrossSumNonNegative(sqrt, nb, pms[i], pms[j]);
    }
  }

  lemma {:induction false} CrossSumNonNegative(sqrt: real -> real, nb: Nonbond, p: seq<Vec>, q: seq<Vec>)
    requires IsSqrt(sqrt) && nb.epsilon >= 0.0 && nb.sigma >= 0.0 && Apart(p, q)
    ensures NonNegative(CrossSum(sqrt, nb, p, q))
  {
    if |p| > 0 {
      CrossSumNonNegative(sqrt, nb, p[..|p| - 1], q);
      RowSumNonNegative(sqrt, nb, p[|p| - 1], q);
    }
  }

  lemma {:induction false} RowSumNonNegative(sqrt: real -> real, nb: Nonbond, v: Vec, q: seq<Vec>)
    requires IsSqrt(sqrt) && nb.epsilon >= 0.0 && nb.sigma >= 0.0
    requires forall b :: 0 <= b < |q| ==> v != q[b]
    ensures NonNegative(RowSum(sqrt, nb, v, q))
  {
    if |q| > 0 {
      RowSumNonNegative(sqrt, nb, v, q[..|q| - 1]);
      var d := Distance(sqrt, v, q[|q| - 1]);
      DistanceZeroIff(sqrt, v, q[|q| - 1]);
      TermOfPositive(nb, d);
      RealPowNonNegative(nb.sigma / d, nb.mu);
      assert nb.epsilon * RealPow(nb.sigma / d, nb.mu) >= 0.0;
    }
  }

  // ---------------------------------------------------------------------------
  // The moves

  /** Every atom id names a row, as numpy reads an index. */
  predicate IdsInRange(atoms: seq<Atom>, n: nat)
  {
    forall k :: 0 <= k < |atoms| ==> InRange(atoms[k].id, n)
  }

  /** Some atom's id names row `i`. */
  predicate Touched(atoms: seq<Atom>, n: nat, i: nat)
  {
    exists k :: 0 <= k < |atoms| && InRange(atoms[k].id, n) && Wrap(atoms[k].id, n) == i
  }

  /**
   * What `_translate_atoms_along_vector` computes: every row named by an
   * atom's id minus `vector`, every other row as it was; an id outside the
   * matrix raises.
   */
  function Translated(m: Molecule, vector: Vec): (r: Result<Molecule, LegacyError>)
    ensures r.Failure? <==> !IdsInRange(m.atoms, |m.positions|)
    ensures r.Failure? ==> r.error == IndexError
    ensures r.Success? ==> r.value.atoms == m.atoms && |r.value.positions| == |m.positions|
  {
    if !IdsInRange(m.atoms, |m.positions|) then Failure(IndexError)
    else
      var pm := m.positions;
      Success(WithPositionMatrix(m, seq(|pm|, i requires 0 <= i < |pm| =>
        if Touched(m.atoms, |pm|, i) then Geometry.Sub(pm[i], vector) else pm[i])))
  }

  /**
   * When the atom ids are exactly the row numbers, the translation moves the
   * molecule by minus the vector: it subtracts where `with_displacement` adds.
   */
  lemma TranslationSubtracts(m: Molecule, vector: Vec)
    requires |m.atoms| == |m.positions|
    requires forall k :: 0 <= k < |m.atoms| ==> m.atoms[k].id == k
    ensures Translated(m, vector) == Success(WithDisplacement(m, Geometry.Sub(Zero, vector)))
  {
    var n := |m.positions|;
    var pm := m.positions;
    assert IdsInRange(m.atoms, n);
    var rows := seq(n, i requires 0 <= i < n => if Touched(m.atoms, n, i) then Geometry.Sub(pm[i], vector) else pm[i]);
    forall i | 0 <= i < n
      ensures rows[i] == Shift(pm, Geometry.Sub(Zero, vector))[i]
    {
      assert m.atoms[i].id == i;
      assert Touched(m.atoms, n, i);
    }
    assert rows == Shift(pm, Geometry.Sub(Zero, vector));
  }

  /** A row is named by the first `k + 1` atoms when it is named by the first `k` or by atom `k`. */
  lemma TouchedStep(atoms: seq<Atom>, n: nat, k: nat, i: nat)
    requires k < |atoms| && InRange(atoms[k].id, n)
    ensures Touched(atoms[..k + 1], n, i) <==> Touched(atoms[..k], n, i) || Wrap(atoms[k].id, n) == i
  {
    if Touched(atoms[..k + 1], n, i) {
      var k' :| 0 <= k' < k + 1 && InRange(atoms[..k + 1][k'].id, n) && Wrap(atoms[..k + 1][k'].id, n) == i;
      if k' < k {
        assert atoms[..k][k'] == atoms[k'];
      }
    }
    if Touched(atoms[..k], n, i) {
      var k' :| 0 <= k' < k && InRange(atoms[..k][k'].id, n) && Wrap(atoms[..k][k'].id, n) == i;
      assert atoms[..k + 1][k'] == atoms[k'];
    }
    if Wrap(atoms[k].id, n) == i {
      assert atoms[..k + 1][k] == atoms[k];
    }
  }

  /** `_translate_atoms_along_vector`: a copy of the matrix, rewritten one atom at a time. */
  method TranslateAtoms(m: Molecule, vector: Vec) returns (r: Result<Molecule, LegacyError>)
    ensures r == Translated(m, vector)
  {
    var pm := m.positions;
    var newPositionMatrix := pm;
    for k := 0 to |m.atoms|
      invariant |newPositionMatrix| == |pm|
      invariant IdsInRange(m.atoms[..k], |pm|)
      invariant forall i :: 0 <= i < |pm| ==>
        newPositionMatrix[i] == if Touched(m.atoms[..k], |pm|, i) then Geometry.Sub(pm[i], vector) else pm[i]
    {
      var id := m.atoms[k].id;
      if !InRange(id, |pm|) {
        assert !IdsInRange(m.atoms, |pm|);
        return Failure(IndexError);
      }
      var row := Wrap(id, |pm|);
      newPositionMatrix := newPositionMatrix[row := Geometry.Sub(pm[row], vector)];
      forall i | 0 <= i < |pm|
        ensures newPositionMatrix[i] == if Touched(m.atoms[..k + 1], |pm|, i) then Geometry.Sub(pm[i], vector) else pm[i]
      {
        TouchedStep(m.atoms, |pm|, k, i);
      }
      assert m.atoms[..k + 1] == m.atoms[..k] + [m.atoms[k]];
    }
    assert m.atoms[..|m.atoms|] == m.atoms;
    assert newPositionMatrix == seq(|pm|, i requires 0 <= i < |pm| =>
      if Touched(m.atoms, |pm|, i) then Geometry.Sub(pm[i], vector) else pm[i]);
    r := Success(WithPositionMatrix(m, newPositionMatrix));
  }

  /** `_rotate_atoms_by_angle`: every row rotated about `origin`; only the rows change. */
  function RotateGuest(m: Molecule, rot: Mat3, origin: Vec): (r: Molecule)
    ensures r.atoms == m.atoms && |r.positions| == |m.positions|
  {
    WithPositionMatrix(m, RotateRows(m.positions, rot, origin))
  }

  /** Rotating a guest about its own centroid leaves the centroid where it was. */
  lemma RotationAboutCentroid(m: Molecule, rot: Mat3)
    requires |m.atoms| == |m.positions| > 0
    ensures GetCentroid(m, All).Success?
    ensures GetCentroid(RotateGuest(m, rot, GetCentroid(m, All).value), All) == GetCentroid(m, All)
  {
    var pm := m.positions;
    assert Gather(pm, SelectedIds(m, All)) == pm;
    var rows := RotateRows(pm, rot, Mean(pm));
    assert Gather(rows, SelectedIds(RotateGuest(m, rot, Mean(pm)), All)) == rows;
    RotationKeepsCentroid(pm, rot);
  }

  /** `get_centroid()` of all atoms, with its errors as the run raises them. */
  function Origin(m: Molecule): (r: Result<Vec, LegacyError>)
    ensures r.Failure? <==> GetCentroid(m, All).Failure?
    ensures r == Failure(ValueError) <==> |m.atoms| == 0
  {
    match GetCentroid(m, All)
    case Success(c) => Success(c)
    case Failure(e) => Failure(if e == EmptySelection then ValueError else IndexError)
  }

  /** What happens to guest `g`: translated, then rotated by `rot` about its new centroid. */
  function MovedGuest(g: Molecule, translation: Vec, rot: Mat3): (r: Result<Molecule, LegacyError>)
    ensures r.Success? ==> r.value.atoms == g.atoms && |r.value.positions| == |g.positions|
    ensures r.Failure? ==> r.error != UnboundLocalError
  {
    match Translated(g, translation)
    case Failure(e) => Failure(e)
    case Success(t) =>
      match Origin(t)
      case Failure(e) => Failure(e)
      case Success(c) => Success(RotateGuest(t, rot, c))
  }

  /** `after` keeps the atoms and the number of rows of `before`. */
  predicate SameShape(before: Molecule, after: Molecule)
  {
    after.atoms == before.atoms && |after.positions| == |before.positions|
  }

  /** Each guest keeps its atoms and its number of rows. */
  predicate RigidGuests(before: seq<Molecule>, after: seq<Molecule>)
  {
    && |after| == |before|
    && forall i {:trigger SameShape(before[i], after[i])} :: 0 <= i < |before| ==> SameShape(before[i], after[i])
  }

  /** Replacing one guest by a rigidly moved copy keeps the list rigid. */
  lemma RigidAfterMove(start: seq<Molecule>, before: seq<Molecule>, t: nat, moved: Molecule)
    requires RigidGuests(start, before) && t < |before|
    requires moved.atoms == before[t].atoms && |moved.positions| == |before[t].positions|
    ensures RigidGuests(start, before[t := moved])
  {
    forall i | 0 <= i < |start|
      ensures SameShape(start[i], before[t := moved][i])
    {
      assert SameShape(start[i], before[i]);
    }
  }

  /** A yielded structure: the host, a copy of the guest list at that moment, its `cid` and a potential. */
  datatype LegacyConformer = LegacyConformer(host: Molecule, guests: seq<Molecule>, cid: int, potential: Energy)

  /** What a run yields before it ends, and the exception that ended it, if any. */
  datatype LegacyRun = LegacyRun(yielded: seq<LegacyConformer>, error: Option<LegacyError>)

  /**
   * The potential the `k`-th conformer's guests hand on: the next conformer
   * carries it, and after the last conformer it is `next`, the potential
   * the run holds.
   */
  ghost predicate Link(sqrt: real -> real, nb: Nonbond, host: Molecule, ys: seq<LegacyConformer>, next: Energy, k: int)
    requires 0 <= k < |ys|
  {
    (if k + 1 < |ys| then ys[k + 1].potential else next) == LegacyPotential(sqrt, nb, host, ys[k].guests)
  }

  /** Every conformer after the first, and then `next`, carries the potential of the guests before it. */
  ghost predicate Chained(sqrt: real -> real, nb: Nonbond, host: Molecule, ys: seq<LegacyConformer>, next: Energy)
  {
    forall k {:trigger Link(sqrt, nb, host, ys, next, k)} :: 0 <= k < |ys| ==> Link(sqrt, nb, host, ys, next, k)
  }

  /** Every conformer after the first carries the potential of the guests of the conformer before it. */
  ghost predicate CarriesPrevious(sqrt: real -> real, nb: Nonbond, host: Molecule, ys: seq<LegacyConformer>)
  {
    forall k :: 0 < k < |ys| ==> ys[k].potential == LegacyPotential(sqrt, nb, host, ys[k - 1].guests)
  }

  /** An accepted move appends a conformer carrying the potential the run held; the run now holds the new potential. */
  lemma ChainedExtend(sqrt: real -> real, nb: Nonbond, host: Molecule, ys: seq<LegacyConformer>, next: Energy,
                      x: LegacyConformer, e: Energy)
    requires Chained(sqrt, nb, host, ys, next) && x.potential == next && e == LegacyPotential(sqrt, nb, host, x.guests)
    ensures Chained(sqrt, nb, host, ys + [x], e)
  {
    var zs := ys + [x];
    forall k | 0 <= k < |zs|
      ensures Link(sqrt, nb, host, zs, e, k)
    {
      if k < |ys| {
        assert Link(sqrt, nb, host, ys, next, k);
        assert zs[k] == ys[k];
      }
    }
  }

  /** A chained run carries the previous potential in every conformer after the first. */
  lemma ChainedCarries(sqrt: real -> real, nb: Nonbond, host: Molecule, ys: seq<LegacyConformer>, next: Energy)
    requires Chained(sqrt, nb, host, ys, next)
    ensures CarriesPrevious(sqrt, nb, host, ys)
  {
    forall k | 0 < k < |ys|
      ensures ys[k].potential == LegacyPotential(sqrt, nb, host, ys[k - 1].guests)
    {
      assert Link(sqrt, nb, host, ys, next, k - 1);
    }
  }

  /** Each yielded conformer has the host, its position as its `cid`, and rigid copies of the starting guests. */
  predicate Numbered(host: Molecule, start: seq<Molecule>, ys: seq<LegacyConformer>)
  {
    forall k :: 0 <= k < |ys| ==> ys[k].cid == k && ys[k].host == host && RigidGuests(start, ys[k].guests)
  }

  /**
   * One pass of the loop of `get_conformers` as the run sees it: the
   * exception the step raises, if any; otherwise whether the test passed,
   * the guest list the step leaves and its potential; and both cursors
   * after the pass.
   */
  datatype LegacyPass = LegacyPass(error: Option<LegacyError>, passed: bool, guests: seq<Molecule>, potential: Energy, pc: nat, nc: nat)

  /**
   * The outcome of a run: the conformers it yields, the exception that ends
   * it, if any, both cursors after it and how many passes of the loop it
   * completes.
   */
  datatype LegacyTrail = LegacyTrail(yielded: seq<LegacyConformer>, error: Option<LegacyError>, pc: nat, nc: nat, passes: nat)

  /**
   * A run of the loop of `get_conformers` with host `host`, in which `pass`
   * decides each pass from the guest list, its potential and both cursors,
   * after the conformers `acc` have been yielded in `count` passes: from
   * guests `guests` with potential `e`, the cursors at `pc` and `nc` and
   * `left` passes to go. Every step leaves its moved list in place, whether
   * the test passes or not; a pass that passes yields the moved list with
   * the next `cid` and the potential from before the move, and moves the run
   * to the new potential. The first exception ends the run, and so does a
   * pass after which `goal` conformers have been yielded.
   */
  function Trace(pass: (seq<Molecule>, Energy, nat, nat) -> LegacyPass, host: Molecule, goal: int,
                 acc: seq<LegacyConformer>, count: nat, guests: seq<Molecule>, e: Energy, pc: nat, nc: nat, left: nat): LegacyTrail
    decreases left
  {
    if left == 0 then LegacyTrail(acc, None, pc, nc, count)
    else
      var p := pass(guests, e, pc, nc);
      if p.error.Some? then LegacyTrail(acc, p.error, p.pc, p.nc, count)
      else
        var acc' := if p.passed then acc + [LegacyConformer(host, p.guests, |acc|, e)] else acc;
        if |acc'| == goal then LegacyTrail(acc', None, p.pc, p.nc, count + 1)
        else Trace(pass, host, goal, acc', count + 1, p.guests, if p.passed then p.potential else e, p.pc, p.nc, left - 1)
  }

  /**
   * A run keeps the conformers yielded before it and yields at most one per
   * pass, each numbered by its position; it ends by an exception before its
   * last pass, or after all its passes, or once `goal` conformers have been
   * yielded, and never yields more than `goal` when it starts below.
   */
  lemma {:induction false} TraceEnds(pass: (seq<Molecule>, Energy, nat, nat) -> LegacyPass, host: Molecule, goal: int,
                                     acc: seq<LegacyConformer>, count: nat, guests: seq<Molecule>, e: Energy, pc: nat, nc: nat, left: nat)
    ensures var t := Trace(pass, host, goal, acc, count, guests, e, pc, nc, left);
      && |acc| <= |t.yielded| && t.yielded[..|acc|] == acc
      && (forall k :: |acc| <= k < |t.yielded| ==> t.yielded[k].cid == k && t.yielded[k].host == host)
      && count <= t.passes <= count + left
      && |t.yielded| - |acc| <= t.passes - count
      && (t.error.Some? ==> t.passes < count + left)
      && (t.error.None? ==> t.passes == count + left || |t.yielded| == goal)
      && (|acc| < goal ==> |t.yielded| <= goal)
    decreases left
  {
    if left > 0 {
      var p := pass(guests, e, pc, nc);
      if p.error.None? {
        var acc' := if p.passed then acc + [LegacyConformer(host, p.guests, |acc|, e)] else acc;
        if |acc'| != goal {
          var e' := if p.passed then p.potential else e;
          TraceEnds(pass, host, goal, acc', count + 1, p.guests, e', p.pc, p.nc, left - 1);
          var t := Trace(pass, host, goal, acc', count + 1, p.guests, e', p.pc, p.nc, left - 1);
          assert t.yielded[..|acc|] == t.yielded[..|acc'|][..|acc|];
        } else {
          assert acc'[..|acc|] == acc;
        }
      }
    }
  }

  /** A pass that raises nothing leaves a list rigid with `start` and the potential of the host with it. */
  ghost predicate Kept(sqrt: real -> real, nb: Nonbond, host: Molecule, start: seq<Molecule>, p: LegacyPass)
  {
    p.error.None? ==> RigidGuests(start, p.guests) && p.potential == LegacyPotential(sqrt, nb, host, p.guests)
  }

  /** Every pass from a list rigid with `start` is `Kept`. */
  ghost predicate PassesKeep(sqrt: real -> real, nb: Nonbond, host: Molecule, start: seq<Molecule>,
                             pass: (seq<Molecule>, Energy, nat, nat) -> LegacyPass)
  {
    forall guests, e, pc, nc :: RigidGuests(start, guests) ==> Kept(sqrt, nb, host, start, pass(guests, e, pc, nc))
  }

  /** No pass raises `UnboundLocalError`. */
  ghost predicate NeverUnbound(pass: (seq<Molecule>, Energy, nat, nat) -> LegacyPass)
  {
    forall guests, e, pc, nc :: pass(guests, e, pc, nc).error != Some(UnboundLocalError)
  }

  /** When no pass raises `UnboundLocalError`, no run ends with it. */
  lemma {:induction false} TraceNeverUnbound(pass: (seq<Molecule>, Energy, nat, nat) -> LegacyPass, host: Molecule, goal: int,
                                             acc: seq<LegacyConformer>, count: nat, guests: seq<Molecule>, e: Energy, pc: nat, nc: nat, left: nat)
    requires NeverUnbound(pass)
    ensures Trace(pass, host, goal, acc, count, guests, e, pc, nc, left).error != Some(UnboundLocalError)
    decreases left
  {
    if left > 0 {
      var p := pass(guests, e, pc, nc);
      if p.error.None? {
        var acc' := if p.passed then acc + [LegacyConformer(host, p.guests, |acc|, e)] else acc;
        TraceNeverUnbound(pass, host, goal, acc', count + 1, p.guests, if p.passed then p.potential else e, p.pc, p.nc, left - 1);
      }
    }
  }

  /**
   * A pass that is `Kept` keeps the conformers numbered and chained, whether
   * it yields one more or none.
   */
  lemma KeptOnPass(sqrt: real -> real, nb: Nonbond, host: Molecule, start: seq<Molecule>,
                   acc: seq<LegacyConformer>, e: Energy, p: LegacyPass)
    requires Numbered(host, start, acc) && Chained(sqrt, nb, host, acc, e)
    requires p.error.None? && Kept(sqrt, nb, host, start, p)
    ensures var acc' := if p.passed then acc + [LegacyConformer(host, p.guests, |acc|, e)] else acc;
      var e' := if p.passed then p.potential else e;
      Numbered(host, start, acc') && Chained(sqrt, nb, host, acc', e')
  {
    if p.passed {
      ChainedExtend(sqrt, nb, host, acc, e, LegacyConformer(host, p.guests, |acc|, e), p.potential);
    }
  }

  /**
   * When every pass is `Kept`, every conformer a run yields is numbered by
   * its position, has the host and rigid copies of the starting guests, and
   * carries the potential of the guests of the conformer before it.
   */
  lemma {:induction false} TraceKeeps(sqrt: real -> real, nb: Nonbond, pass: (seq<Molecule>, Energy, nat, nat) -> LegacyPass,
                                      host: Molecule, goal: int, start: seq<Molecule>,
                                      acc: seq<LegacyConformer>, count: nat, guests: seq<Molecule>, e: Energy, pc: nat, nc: nat, left: nat)
    requires PassesKeep(sqrt, nb, host, start, pass)
    requires Numbered(host, start, acc) && Chained(sqrt, nb, host, acc, e) && RigidGuests(start, guests)
    ensures var t := Trace(pass, host, goal, acc, count, guests, e, pc, nc, left);
      Numbered(host, start, t.yielded) && CarriesPrevious(sqrt, nb, host, t.yielded)
    decreases left
  {
    var p := pass(guests, e, pc, nc);
    if left == 0 || p.error.Some? {
      ChainedCarries(sqrt, nb, host, acc, e);
      return;
    }
    assert Kept(sqrt, nb, host, start, p);
    KeptOnPass(sqrt, nb, host, start, acc, e, p);
    var acc' := if p.passed then acc + [LegacyConformer(host, p.guests, |acc|, e)] else acc;
    var e' := if p.passed then p.potential else e;
    if |acc'| == goal {
      ChainedCarries(sqrt, nb, host, acc', e');
    } else {
      TraceKeeps(sqrt, nb, pass, host, goal, start, acc', count + 1, p.guests, e', p.pc, p.nc, left - 1);
    }
  }

  class Spinner {
    const stepSize: real
    const rotationStepSize: real
    const numConformers: int
    const maxAttempts: int
    const nonbond: Nonbond
    const beta: real
    const numerics: Numerics
    /** Python's `random`, seeded by `random_seed`, as the stream of its draws. */
    const pyDraws: nat -> real
    /** numpy's global generator, seeded by `random_seed`, as the stream of its draws. */
    const npDraws: nat -> real
    var pyCursor: nat
    var npCursor: nat

    /** The square root is one and every draw of both generators is in (0, 1). */
    ghost predicate Valid()
    {
      IsSqrt(numerics.sqrt) && UnitDraws(pyDraws) && UnitDraws(npDraws)
    }

    constructor (stepSize: real, rotationStepSize: real, numConformers: int, maxAttempts: int,
                 nonbond: Nonbond, beta: real, numerics: Numerics, pyDraws: nat -> real, npDraws: nat -> real)
      ensures this.stepSize == stepSize && this.rotationStepSize == rotationStepSize
      ensures this.numConformers == numConformers && this.maxAttempts == maxAttempts
      ensures this.nonbond == nonbond && this.beta == beta && this.numerics == numerics
      ensures this.pyDraws == pyDraws && this.npDraws == npDraws
      ensures pyCursor == 0 && npCursor == 0
    {
      this.stepSize := stepSize;
      this.rotationStepSize := rotationStepSize;
      this.numConformers := numConformers;
      this.maxAttempts := maxAttempts;
      this.nonbond := nonbond;
      this.beta := beta;
      this.numerics := numerics;
      this.pyDraws := pyDraws;
      this.npDraws := npDraws;
      pyCursor := 0;
      npCursor := 0;
    }

    /** `random.random()` */
    method PyRandom() returns (u: real)
      modifies this
      ensures u == pyDraws(old(pyCursor)) && pyCursor == old(pyCursor) + 1 && npCursor == old(npCursor)
    {
      u := pyDraws(pyCursor);
      pyCursor := pyCursor + 1;
    }

    /** `np.random.rand(3)` */
    method NpRand3() returns (v: Vec)
      modifies this
      ensures v == DrawVec(npDraws, old(npCursor)) && npCursor == old(npCursor) + 3 && pyCursor == old(pyCursor)
    {
      v := DrawVec(npDraws, npCursor);
      npCursor := npCursor + 3;
    }

    /** `_compute_nonbonded_potential`: the pair sums added over `combinations(position_matrices, 2)`. */
    method ComputeNonbondedPotential(pms: seq<seq<Vec>>) returns (total: Energy)
      ensures total == PairsSum(numerics.sqrt, nonbond, pms, Pairs(|pms|))
    {
      var pairs := Pairs(|pms|);
      total := Finite(0.0);
      for k := 0 to |pairs|
        invariant total == PairsSum(numerics.sqrt, nonbond, pms, pairs[..k])
      {
        var (i, j) := pairs[k];
        assert pairs[..k + 1][..k] == pairs[..k];
        total := Floats.Add(total, CrossSum(numerics.sqrt, nonbond, pms[i], pms[j]));
      }
      assert pairs[..|pairs|] == pairs;
    }

    /** `_compute_potential` (and `_run_first_step`): the host's matrix first, then the guests'. */
    method ComputePotential(host: Molecule, guests: seq<Molecule>) returns (e: Energy)
      ensures e == LegacyPotential(numerics.sqrt, nonbond, host, guests)
    {
      var positionMatrices := [host.positions];
      for g := 0 to |guests|
        invariant positionMatrices == Matrices(host, guests[..g])
      {
        positionMatrices := positionMatrices + [guests[g].positions];
      }
      assert guests[..|guests|] == guests;
      e := ComputeNonbondedPotential(positionMatrices);
    }

    // -------------------------------------------------------------------------
    // The move a step makes, as a function of the two cursors

    /** The guest picked by the draw at `pc`. */
    function TargetAt(n: nat, pc: nat): (t: int)
      requires Valid() && n > 0
      ensures 0 <= t < n
    {
      Choose(Below(n), pyDraws(pc))
    }

    /** `rand_vector / norm(rand_vector) * step_size * rand`, the direction drawn at `nc`, the scalar at `pc + 1`. */
    function TranslationAt(pc: nat, nc: nat): Vec
      requires Valid()
    {
      DrawVecNonZero(npDraws, nc);
      TranslationVector(numerics.sqrt, stepSize, DrawVec(npDraws, nc), pyDraws(pc + 1))
    }

    /**
     * The rotation: the angle from the scalar at `pc + 2`, the axis drawn at
     * `nc + 3` divided by the norm of the translation direction drawn at `nc`
     * once that is normalised.
     */
    function RotationAt(pc: nat, nc: nat): Mat3
      requires Valid()
    {
      DrawVecNonZero(npDraws, nc);
      NormalizedNormIsOne(numerics.sqrt, DrawVec(npDraws, nc));
      numerics.rotation(RotationAngle(rotationStepSize, pyDraws(pc + 2)),
        Divide(DrawVec(npDraws, nc + 3), Norm(numerics.sqrt, Normalized(numerics.sqrt, DrawVec(npDraws, nc)))))
    }

    /** The divisor is one: the rotation is about the drawn axis as it is. */
    lemma RotationAboutDrawnAxis(pc: nat, nc: nat)
      requires Valid()
      ensures RotationAt(pc, nc) == numerics.rotation(RotationAngle(rotationStepSize, pyDraws(pc + 2)), DrawVec(npDraws, nc + 3))
    {
      DrawVecNonZero(npDraws, nc);
      NormalizedNormIsOne(numerics.sqrt, DrawVec(npDraws, nc));
      assert Divide(DrawVec(npDraws, nc + 3), 1.0) == DrawVec(npDraws, nc + 3);
    }

    /**
     * `_run_step`: pick a guest, move it, write it back into the caller's list
     * in place and compute the potential of the host with the new list. The
     * host is returned unchanged and the list returned is the caller's list.
     */
    method RunStep(host: Molecule, guests: array<Molecule>) returns (r: Result<Energy, LegacyError>)
      requires Valid()
      modifies this, guests
      ensures guests.Length == 0 ==>
        r == Failure(IndexError) && pyCursor == old(pyCursor) && npCursor == old(npCursor)
      ensures guests.Length > 0 ==>
        var pc, nc := old(pyCursor), old(npCursor);
        var t := TargetAt(guests.Length, pc);
        var moved := MovedGuest(old(guests[t]), TranslationAt(pc, nc), RotationAt(pc, nc));
        && (Translated(old(guests[t]), TranslationAt(pc, nc)).Failure? ==> pyCursor == pc + 2 && npCursor == nc + 3)
        && (Translated(old(guests[t]), TranslationAt(pc, nc)).Success? ==> pyCursor == pc + 3 && npCursor == nc + 6)
        && (r.Failure? <==> moved.Failure?)
        && (r.Failure? ==> r.error == moved.error && guests[..] == old(guests[..]))
        && (r.Success? ==>
              guests[..] == old(guests[..])[t := moved.value]
              && r.value == LegacyPotential(numerics.sqrt, nonbond, host, guests[..]))
    {
      if guests.Length == 0 {
        return Failure(IndexError);
      }
      ghost var pc, nc := pyCursor, npCursor;
      var u := PyRandom();
      var targGuestId := Choose(Below(guests.Length), u);
      var moved := MoveGuest(guests[targGuestId]);
      if moved.Failure? {
        return Failure(moved.error);
      }
      guests[targGuestId] := moved.value;
      var e := ComputePotential(host, guests[..]);
      r := Success(e);
    }

    /** The translation and the rotation of the picked guest, after the draw that picked it. */
    method MoveGuest(g: Molecule) returns (r: Result<Molecule, LegacyError>)
      requires Valid() && pyCursor > 0
      modifies this
      ensures var pc, nc := old(pyCursor) - 1, old(npCursor);
        && r == MovedGuest(g, TranslationAt(pc, nc), RotationAt(pc, nc))
        && (Translated(g, TranslationAt(pc, nc)).Failure? ==> pyCursor == pc + 2 && npCursor == nc + 3)
        && (Translated(g, TranslationAt(pc, nc)).Success? ==> pyCursor == pc + 3 && npCursor == nc + 6)
    {
      var translationVector, randVector := DrawTranslation();
      var translated := TranslateAtoms(g, translationVector);
      if translated.Failure? {
        return Failure(translated.error);
      }
      var rot := DrawRotation(randVector);
      var origin := Origin(translated.value);
      if origin.Failure? {
        return Failure(origin.error);
      }
      r := Success(RotateGuest(translated.value, rot, origin.value));
    }

    /** The translation scalar and direction, drawn after the target. */
    method DrawTranslation() returns (translationVector: Vec, randVector: Vec)
      requires Valid() && pyCursor > 0
      modifies this
      ensures translationVector == TranslationAt(old(pyCursor) - 1, old(npCursor))
      ensures randVector == DrawVec(npDraws, old(npCursor))
      ensures pyCursor == old(pyCursor) + 1 && npCursor == old(npCursor) + 3
    {
      var rand := PyRandom();
      randVector := NpRand3();
      DrawVecNonZero(npDraws, old(npCursor));
      translationVector := TranslationVector(numerics.sqrt, stepSize, randVector, rand);
    }

    /**
     * The rotation scalar and axis, drawn after the translation direction
     * `randVector`, and `rotation_matrix_arbitrary_axis` of the angle and the
     * axis divided by the norm of `randVector` once that is normalised.
     */
    method DrawRotation(randVector: Vec) returns (rot: Mat3)
      requires Valid() && pyCursor >= 2 && npCursor >= 3 && randVector == DrawVec(npDraws, npCursor - 3)
      modifies this
      ensures rot == RotationAt(old(pyCursor) - 2, old(npCursor) - 3)
      ensures pyCursor == old(pyCursor) + 1 && npCursor == old(npCursor) + 3
    {
      var rand := PyRandom();
      var rotationAngle := RotationAngle(rotationStepSize, rand);
      var randAxis := NpRand3();
      DrawVecNonZero(npDraws, old(npCursor) - 3);
      var unitVector := Normalized(numerics.sqrt, randVector);
      NormalizedNormIsOne(numerics.sqrt, randVector);
      var axis := Divide(randAxis, Norm(numerics.sqrt, unitVector));
      rot := numerics.rotation(rotationAngle, axis);
    }

    /** `_test_move`: a strictly lower potential passes without a draw; otherwise `random.random()` decides. */
    method PassesTest(curr: Energy, next: Energy) returns (passed: bool)
      modifies this
      ensures passed == TestMove(numerics.exp, beta, curr, next, pyDraws(old(pyCursor)))
      ensures pyCursor == (if Downhill(curr, next) then old(pyCursor) else old(pyCursor) + 1) && npCursor == old(npCursor)
    {
      if Downhill(curr, next) {
        return true;
      }
      var u := PyRandom();
      passed := Exceeds(BoltzmannFactor(numerics.exp, beta, curr, next), u);
    }

    // -------------------------------------------------------------------------
    // A pass of the loop, as a function of the guests and the two cursors

    /**
     * What `_run_step` makes of the guest list `guests` with the cursors at
     * `pc` and `nc`: `IndexError` before any draw when there is no guest;
     * otherwise the list with the picked guest moved, or the exception its
     * move raises.
     */
    ghost function StepAt(guests: seq<Molecule>, pc: nat, nc: nat): (r: Result<seq<Molecule>, LegacyError>)
      requires Valid()
      ensures r.Failure? ==> r.error != UnboundLocalError
    {
      if |guests| == 0 then Failure(IndexError)
      else
        var t := TargetAt(|guests|, pc);
        match MovedGuest(guests[t], TranslationAt(pc, nc), RotationAt(pc, nc))
        case Failure(err) => Failure(err)
        case Success(moved) => Success(guests[t := moved])
    }

    /**
     * Both cursors after `_run_step`: unmoved without a guest, two and three
     * draws later when the translation raises, three and six otherwise.
     */
    function StepCursors(guests: seq<Molecule>, pc: nat, nc: nat): (nat, nat)
      requires Valid()
    {
      if |guests| == 0 then (pc, nc)
      else if Translated(guests[TargetAt(|guests|, pc)], TranslationAt(pc, nc)).Failure? then (pc + 2, nc + 3)
      else (pc + 3, nc + 6)
    }

    /**
     * One pass of the loop from guests `guests` with potential `e`: the step,
     * then `_test_move` against the potential of the host with the moved
     * list, which reads one more Python draw when the move is not downhill.
     */
    ghost function PassAt(host: Molecule, guests: seq<Molecule>, e: Energy, pc: nat, nc: nat): LegacyPass
      requires Valid()
    {
      var (pc', nc') := StepCursors(guests, pc, nc);
      match StepAt(guests, pc, nc)
      case Failure(err) => LegacyPass(Some(err), false, guests, e, pc', nc')
      case Success(moved) =>
        var next := LegacyPotential(numerics.sqrt, nonbond, host, moved);
        LegacyPass(None, TestMove(numerics.exp, beta, e, next, pyDraws(pc')), moved, next,
                   if Downhill(e, next) then pc' else pc' + 1, nc')
    }

    /** `pass` is `PassAt` with host `host` on every state. */
    ghost predicate Drawing(pass: (seq<Molecule>, Energy, nat, nat) -> LegacyPass, host: Molecule)
      requires Valid()
    {
      forall guests, e, pc, nc {:trigger PassAt(host, guests, e, pc, nc)} ::
        pass(guests, e, pc, nc) == PassAt(host, guests, e, pc, nc)
    }

    /** The passes of a run of `get_conformers` with host `host`. */
    ghost function Drawn(host: Molecule): (pass: (seq<Molecule>, Energy, nat, nat) -> LegacyPass)
      requires Valid()
      ensures Drawing(pass, host)
    {
      (guests: seq<Molecule>, e: Energy, pc: nat, nc: nat) => PassAt(host, guests, e, pc, nc)
    }

    /** A pass that is `PassAt`, from the outcome of its step and its test. */
    lemma PassIs(pass: (seq<Molecule>, Energy, nat, nat) -> LegacyPass, host: Molecule, guests: seq<Molecule>, e: Energy, pc: nat, nc: nat)
      requires Valid() && Drawing(pass, host)
      ensures var st := StepAt(guests, pc, nc);
        var cs := StepCursors(guests, pc, nc);
        var p := pass(guests, e, pc, nc);
        && (st.Failure? ==> p == LegacyPass(Some(st.error), false, guests, e, cs.0, cs.1))
        && (st.Success? ==>
              var next := LegacyPotential(numerics.sqrt, nonbond, host, st.value);
              p == LegacyPass(None, TestMove(numerics.exp, beta, e, next, pyDraws(cs.0)), st.value, next,
                              if Downhill(e, next) then cs.0 else cs.0 + 1, cs.1))
    {
      assert pass(guests, e, pc, nc) == PassAt(host, guests, e, pc, nc);
    }

    /** With no guest, a pass raises `IndexError` before any draw. */
    lemma NoGuestRaises(pass: (seq<Molecule>, Energy, nat, nat) -> LegacyPass, host: Molecule, e: Energy, pc: nat, nc: nat)
      requires Valid() && Drawing(pass, host)
      ensures pass([], e, pc, nc) == LegacyPass(Some(IndexError), false, [], e, pc, nc)
    {
      assert pass([], e, pc, nc) == PassAt(host, [], e, pc, nc);
    }

    /** No pass raises `UnboundLocalError`: `_run_step` raises nothing else. */
    lemma DrawnNeverUnbound(pass: (seq<Molecule>, Energy, nat, nat) -> LegacyPass, host: Molecule)
      requires Valid() && Drawing(pass, host)
      ensures NeverUnbound(pass)
    {
      forall guests, e, pc, nc
        ensures pass(guests, e, pc, nc).error != Some(UnboundLocalError)
      {
        assert pass(guests, e, pc, nc) == PassAt(host, guests, e, pc, nc);
      }
    }

    /** A pass that raises nothing leaves a rigid list and the potential of the host with it. */
    lemma PassKeeps(pass: (seq<Molecule>, Energy, nat, nat) -> LegacyPass, host: Molecule, start: seq<Molecule>,
                    guests: seq<Molecule>, e: Energy, pc: nat, nc: nat)
      requires Valid() && Drawing(pass, host) && RigidGuests(start, guests)
      ensures Kept(numerics.sqrt, nonbond, host, start, pass(guests, e, pc, nc))
    {
      var p := pass(guests, e, pc, nc);
      assert p == PassAt(host, guests, e, pc, nc);
      if p.error.None? {
        var t := TargetAt(|guests|, pc);
        var moved := MovedGuest(guests[t], TranslationAt(pc, nc), RotationAt(pc, nc));
        RigidAfterMove(start, guests, t, moved.value);
      }
    }

    /** Every pass from a list rigid with `start` keeps it so. */
    lemma DrawnKeeps(pass: (seq<Molecule>, Energy, nat, nat) -> LegacyPass, host: Molecule, start: seq<Molecule>)
      requires Valid() && Drawing(pass, host)
      ensures PassesKeep(numerics.sqrt, nonbond, host, start, pass)
    {
      forall guests, e, pc, nc | RigidGuests(start, guests)
        ensures Kept(numerics.sqrt, nonbond, host, start, pass(guests, e, pc, nc))
      {
        PassKeeps(pass, host, start, guests, e, pc, nc);
      }
    }

    /**
     * `get_conformers` on a list of guests. The host with the caller's list is
     * yielded first, with `cid` 0 and its potential; `cids_passed` starts as
     * `[0]`, so the first yield counts towards `num_conformers`. Each accepted
     * move yields the host with the moved list, the next `cid` and the
     * potential from before the move, then rebuilds the list from the moved
     * guests. A rejected move is never undone. The conformers, both cursors
     * and the exception that ends the run are those of the reference run
     * `Trace` of the passes `pass`, which tries at most `max_attempts - 1`
     * moves; the closing report raises when the loop never ran.
     */
    method GetConformers(host: Molecule, guests: array<Molecule>, ghost pass: (seq<Molecule>, Energy, nat, nat) -> LegacyPass)
      returns (run: LegacyRun)
      requires Valid() && Drawing(pass, host)
      modifies this, guests
      ensures var first := LegacyConformer(host, old(guests[..]), 0, LegacyPotential(numerics.sqrt, nonbond, host, old(guests[..])));
        var t := Trace(pass, host, numConformers, [first], 0, old(guests[..]), first.potential, old(pyCursor), old(npCursor), Passes(maxAttempts));
        && run.yielded == t.yielded && pyCursor == t.pc && npCursor == t.nc
        && run.error == (if maxAttempts <= 1 then Some(UnboundLocalError) else t.error)
      ensures |run.yielded| >= 1
      ensures run.yielded[0] ==
        LegacyConformer(host, old(guests[..]), 0, LegacyPotential(numerics.sqrt, nonbond, host, old(guests[..])))
      ensures forall k :: 0 <= k < |run.yielded| ==>
        run.yielded[k].cid == k && run.yielded[k].host == host && RigidGuests(old(guests[..]), run.yielded[k].guests)
      ensures CarriesPrevious(numerics.sqrt, nonbond, host, run.yielded)
      ensures |run.yielded| <= if maxAttempts >= 1 then maxAttempts else 1
      ensures numConformers >= 2 ==> |run.yielded| <= numConformers
      ensures run.error == Some(UnboundLocalError) <==> maxAttempts <= 1
      ensures maxAttempts <= 1 ==> |run.yielded| == 1
      ensures guests.Length == 0 && maxAttempts >= 2 ==> run == LegacyRun(run.yielded[..1], Some(IndexError))
      ensures RigidGuests(old(guests[..]), guests[..])
    {
      var nonbondedPotential := ComputePotential(host, guests[..]);
      var first := LegacyConformer(host, guests[..], 0, nonbondedPotential);
      run := Spin(host, guests, first, pass);
      DrawnNeverUnbound(pass, host);
      TraceNeverUnbound(pass, host, numConformers, [first], 0, old(guests[..]), nonbondedPotential, old(pyCursor), old(npCursor), Passes(maxAttempts));
      assert Link(numerics.sqrt, nonbond, host, [first], nonbondedPotential, 0);
      DrawnKeeps(pass, host, old(guests[..]));
      TraceKeeps(numerics.sqrt, nonbond, pass, host, numConformers, old(guests[..]), [first], 0, old(guests[..]), nonbondedPotential,
                 old(pyCursor), old(npCursor), Passes(maxAttempts));
      if guests.Length == 0 {
        NoGuestRaises(pass, host, nonbondedPotential, old(pyCursor), old(npCursor));
      }
      TraceEnds(pass, host, numConformers, [first], 0, old(guests[..]), nonbondedPotential, old(pyCursor), old(npCursor), Passes(maxAttempts));
    }

    /**
     * The loop of `get_conformers` on the caller's list `guests`, after the
     * conformer `first` of that list has been yielded: the conformers, both
     * cursors and the exception that ends the run are those of `Trace`.
     */
    method Spin(host: Molecule, guests: array<Molecule>, first: LegacyConformer, ghost pass: (seq<Molecule>, Energy, nat, nat) -> LegacyPass)
      returns (run: LegacyRun)
      requires Valid() && Drawing(pass, host)
      modifies this, guests
      ensures var t := Trace(pass, host, numConformers, [first], 0, old(guests[..]), first.potential, old(pyCursor), old(npCursor), Passes(maxAttempts));
        && run.yielded == t.yielded && pyCursor == t.pc && npCursor == t.nc
        && run.error == (if maxAttempts <= 1 then Some(UnboundLocalError) else t.error)
      ensures RigidGuests(old(guests[..]), guests[..])
    {
      ghost var start := guests[..];
      var current := guests;
      var cid := 0;
      var nonbondedPotential := first.potential;
      var yielded := [first];
      ghost var whole := Trace(pass, host, numConformers, yielded, 0, start, nonbondedPotential, pyCursor, npCursor, Passes(maxAttempts));
      ghost var left := Passes(maxAttempts);
      ghost var list := start;
      var cidsPassed := [cid];
      var step := 1;
      while step < maxAttempts
        invariant 1 <= step && left == Passes(maxAttempts) - (step - 1)
        invariant current == guests || fresh(current)
        invariant cid == |yielded| - 1 && |cidsPassed| == |yielded|
        invariant list == current[..] && RigidGuests(start, list)
        invariant RigidGuests(start, guests[..])
        invariant whole == Trace(pass, host, numConformers, yielded, step - 1, list, nonbondedPotential, pyCursor, npCursor, left)
        decreases maxAttempts - step
      {
        var outcome, nextYielded, nextPotential, nextCurrent :=
          Turn(host, current, start, yielded, nonbondedPotential, pass, whole, step - 1, left, guests);
        if outcome.Failure? {
          return LegacyRun(yielded, Some(outcome.error));
        }
        if |nextYielded| > |yielded| {
          cid := cid + 1;
          cidsPassed := cidsPassed + [cid];
        }
        yielded, nonbondedPotential, current := nextYielded, nextPotential, nextCurrent;
        list := current[..];
        if |cidsPassed| == numConformers {
          break;
        }
        step := step + 1;
        left := left - 1;
      }
      if maxAttempts <= 1 {
        return LegacyRun(yielded, Some(UnboundLocalError));
      }
      run := LegacyRun(yielded, None);
    }

    /**
     * One pass of the loop of `get_conformers`: a step on the list the run
     * holds now, then the test against the potential from before the step;
     * the pass `pass` makes at the current cursors. The moved list stays in
     * place whether the test passes or not. An accepted move yields the host
     * with the moved list, the next `cid` and the potential from before the
     * move, and hands on a list rebuilt from the moved guests.
     */
    method Attempt(host: Molecule, current: array<Molecule>, ghost start: seq<Molecule>,
                   yielded: seq<LegacyConformer>, nonbondedPotential: Energy, cid: int,
                   ghost pass: (seq<Molecule>, Energy, nat, nat) -> LegacyPass)
      returns (outcome: Result<Energy, LegacyError>, passed: bool,
               nextYielded: seq<LegacyConformer>, nextPotential: Energy, nextCurrent: array<Molecule>)
      requires Valid() && RigidGuests(start, current[..]) && Drawing(pass, host)
      modifies this, current
      ensures var p := pass(old(current[..]), nonbondedPotential, old(pyCursor), old(npCursor));
        && pyCursor == p.pc && npCursor == p.nc && current[..] == p.guests
        && (outcome.Failure? <==> p.error.Some?)
        && (outcome.Failure? ==> outcome.error == p.error.value)
        && (outcome.Success? ==> passed == p.passed)
        && (passed ==> nextPotential == p.potential)
      ensures RigidGuests(start, current[..])
      ensures current.Length == 0 ==> outcome == Failure(IndexError)
      ensures outcome.Failure? ==> outcome.error != UnboundLocalError && !passed
      ensures passed ==> nextYielded == yielded + [LegacyConformer(host, current[..], cid + 1, nonbondedPotential)]
      ensures passed ==> fresh(nextCurrent) && nextCurrent[..] == current[..]
      ensures !passed ==> nextYielded == yielded && nextPotential == nonbondedPotential && nextCurrent == current
    {
      PassIs(pass, host, current[..], nonbondedPotential, pyCursor, npCursor);
      nextYielded, nextPotential, nextCurrent := yielded, nonbondedPotential, current;
      passed := false;
      outcome := Advance(host, current, start);
      if outcome.Failure? {
        return;
      }
      passed := PassesTest(nonbondedPotential, outcome.value);
      if passed {
        var conformer := LegacyConformer(host, current[..], cid + 1, nonbondedPotential);
        nextYielded := yielded + [conformer];
        nextPotential := outcome.value;
        nextCurrent := Rebuild(current);
      }
    }

    /**
     * `Attempt` within a run whose state is the trace `whole`, with the
     * conformers `yielded` from `count` passes and `left` passes to go: the
     * pass either ends the run or moves it on to the state it leaves.
     */
    method Turn(host: Molecule, current: array<Molecule>, ghost start: seq<Molecule>,
                yielded: seq<LegacyConformer>, nonbondedPotential: Energy,
                ghost pass: (seq<Molecule>, Energy, nat, nat) -> LegacyPass, ghost whole: LegacyTrail, ghost count: nat, ghost left: nat,
                ghost caller: array<Molecule>)
      returns (outcome: Result<Energy, LegacyError>, nextYielded: seq<LegacyConformer>, nextPotential: Energy, nextCurrent: array<Molecule>)
      requires Valid() && RigidGuests(start, current[..]) && RigidGuests(start, caller[..]) && Drawing(pass, host)
      requires |yielded| > 0
      requires left > 0 && whole == Trace(pass, host, numConformers, yielded, count, current[..], nonbondedPotential, pyCursor, npCursor, left)
      modifies this, current
      ensures outcome.Failure? ==> whole == LegacyTrail(yielded, Some(outcome.error), pyCursor, npCursor, count)
      ensures outcome.Success? && |nextYielded| == numConformers ==> whole == LegacyTrail(nextYielded, None, pyCursor, npCursor, count + 1)
      ensures outcome.Success? && |nextYielded| != numConformers ==>
        whole == Trace(pass, host, numConformers, nextYielded, count + 1, nextCurrent[..], nextPotential, pyCursor, npCursor, left - 1)
      ensures RigidGuests(start, nextCurrent[..]) && RigidGuests(start, caller[..])
      ensures current.Length == 0 ==> outcome == Failure(IndexError)
      ensures outcome.Failure? ==> outcome.error != UnboundLocalError
      ensures nextYielded == yielded || (|nextYielded| == |yielded| + 1 && nextYielded[0] == yielded[0])
      ensures nextCurrent == current || (fresh(nextCurrent) && nextCurrent[..] == current[..])
    {
      var passed;
      outcome, passed, nextYielded, nextPotential, nextCurrent :=
        Attempt(host, current, start, yielded, nonbondedPotential, |yielded| - 1, pass);
    }

    /**
     * `_run_step` seen from the loop: the step `StepAt` makes at the current
     * cursors, written into the list in place, which stays rigid.
     */
    method Advance(host: Molecule, current: array<Molecule>, ghost start: seq<Molecule>) returns (r: Result<Energy, LegacyError>)
      requires Valid() && RigidGuests(start, current[..])
      modifies this, current
      ensures var st := StepAt(old(current[..]), old(pyCursor), old(npCursor));
        && (pyCursor, npCursor) == StepCursors(old(current[..]), old(pyCursor), old(npCursor))
        && (r.Failure? <==> st.Failure?)
        && (r.Failure? ==> r.error == st.error && current[..] == old(current[..]))
        && (r.Success? ==> current[..] == st.value && r.value == LegacyPotential(numerics.sqrt, nonbond, host, current[..]))
      ensures RigidGuests(start, current[..])
    {
      ghost var before, pc, nc := current[..], pyCursor, npCursor;
      r := RunStep(host, current);
      if |before| > 0 {
        var t := TargetAt(|before|, pc);
        var moved := MovedGuest(before[t], TranslationAt(pc, nc), RotationAt(pc, nc));
        assert StepAt(before, pc, nc) == if moved.Failure? then Failure(moved.error) else Success(before[t := moved.value]);
        if r.Success? {
          RigidAfterMove(start, before, t, moved.value);
        }
      }
    }

    /** `get_conformers` on a single guest: the guest wrapped in a list of its own. */
    method GetConformersOfGuest(host: Molecule, guest: Molecule, ghost pass: (seq<Molecule>, Energy, nat, nat) -> LegacyPass)
      returns (run: LegacyRun)
      requires Valid() && Drawing(pass, host)
      modifies this
      ensures var first := LegacyConformer(host, [guest], 0, LegacyPotential(numerics.sqrt, nonbond, host, [guest]));
        var t := Trace(pass, host, numConformers, [first], 0, [guest], first.potential, old(pyCursor), old(npCursor), Passes(maxAttempts));
        && run.yielded == t.yielded && pyCursor == t.pc && npCursor == t.nc
        && run.error == (if maxAttempts <= 1 then Some(UnboundLocalError) else t.error)
      ensures |run.yielded| >= 1
      ensures run.yielded[0] == LegacyConformer(host, [guest], 0, LegacyPotential(numerics.sqrt, nonbond, host, [guest]))
      ensures forall k :: 0 < k < |run.yielded| ==> run.yielded[k].cid == k && |run.yielded[k].guests| == 1
    {
      var guests := new Molecule[1](_ => guest);
      assert guests[..] == [guest];
      run := GetConformers(host, guests, pass);
    }
  }

  /** `[i.with_position_matrix(j.get_position_matrix()) for i, j in zip(guests, n_guests)]`, with both the same list. */
  method Rebuild(guests: array<Molecule>) returns (rebuilt: array<Molecule>)
    ensures fresh(rebuilt) && rebuilt[..] == guests[..]
  {
    rebuilt := new Molecule[guests.Length](k requires 0 <= k < guests.Length reads guests =>
      WithPositionMatrix(guests[k], GetPositionMatrix(guests[k])));
    assert rebuilt[..] == guests[..] by {
      forall k | 0 <= k < guests.Length
        ensures rebuilt[k] == guests[k]
      {
      }
    }
  }
}
