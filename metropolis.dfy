/**
 * The pieces of a Monte Carlo step that both engines share: the Metropolis
 * acceptance test, the choice of movable components, the step scalars drawn
 * from the generator, and the rigid moves (a translation by
 * `with_displacement`, a rotation of the rows about an origin).
 *
 * The random generator is a stream of draws in (0, 1); the square root, the
 * exponential and `rotation_matrix_arbitrary_axis` are parameters.
 */
module Metropolis {
  import opened Wrappers
  import opened Geometry
  import opened Floats
  import opened Molecules
  import opened Supramolecules

  /** The numerical routines the engines call: `sqrt`, `exp` and `rotation_matrix_arbitrary_axis`. */
  datatype Numerics = Numerics(sqrt: real -> real, exp: real -> real, rotation: (real, Vec) -> Mat3)

  /** The routines behave as the square root and the exponential the model relies on. */
  ghost predicate Sound(n: Numerics)
  {
    IsSqrt(n.sqrt) && IsExp(n.exp)
  }

  /** Every draw of a generator lies strictly between 0 and 1. */
  ghost predicate UnitDraws(draws: nat -> real)
  {
    forall k :: 0.0 < draws(k) < 1.0
  }

  /** Three consecutive draws, `generator.random(3)`. */
  function DrawVec(draws: nat -> real, k: nat): Vec
  {
    Vec(draws(k), draws(k + 1), draws(k + 2))
  }

  /** A vector of draws in (0, 1) is never zero, so it can be normalised. */
  lemma DrawVecNonZero(draws: nat -> real, k: nat)
    requires UnitDraws(draws)
    ensures SqNorm(DrawVec(draws, k)) > 0.0
  {
    var v := DrawVec(draws, k);
    assert 0.0 < draws(k);
    SqNormNonNegative(v);
    if SqNorm(v) == 0.0 {
      SqNormZero(v);
    }
  }

  /** The number of passes of `for _ in range(1, max_attempts)`. */
  function Passes(maxAttempts: int): nat
  {
    if maxAttempts >= 1 then maxAttempts - 1 else 0
  }

  // ---------------------------------------------------------------------------
  // The acceptance test

  /** A strictly lower new potential is accepted without a random number. */
  predicate Downhill(curr: Energy, next: Energy)
  {
    Less(next, curr)
  }

  /** `np.exp(-beta * (new_pot - curr_pot))` */
  function BoltzmannFactor(exp: real -> real, beta: real, curr: Energy, next: Energy): Energy
  {
    Exp(exp, Times(Finite(-beta), Floats.Sub(next, curr)))
  }

  /** `_test_move`, given the number `u` it draws when the move is not downhill. */
  predicate TestMove(exp: real -> real, beta: real, curr: Energy, next: Energy, u: real)
  {
    Downhill(curr, next) || Exceeds(BoltzmannFactor(exp, beta, curr, next), u)
  }

  /**
   * An uphill move between finite potentials is accepted with exactly the
   * draws below its Boltzmann factor, which lies strictly between 0 and 1:
   * some draws accept it and others reject it.
   */
  lemma UphillAcceptance(exp: real -> real, beta: real, curr: real, next: real, u: real)
    requires IsExp(exp) && beta > 0.0 && curr < next
    ensures !Downhill(Finite(curr), Finite(next))
    ensures BoltzmannFactor(exp, beta, Finite(curr), Finite(next)) == Finite(exp(-beta * (next - curr)))
    ensures 0.0 < exp(-beta * (next - curr)) < 1.0
    ensures TestMove(exp, beta, Finite(curr), Finite(next), u) <==> u < exp(-beta * (next - curr))
  {
    assert Floats.Sub(Finite(next), Finite(curr)) == Finite(next - curr);
    assert Times(Finite(-beta), Finite(next - curr)) == Finite(-beta * (next - curr));
    NegativeExponent(beta, next - curr);
    assert exp(-beta * (next - curr)) < exp(0.0);
  }

  lemma NegativeExponent(beta: real, gap: real)
    requires beta > 0.0 && gap > 0.0
    ensures -beta * gap < 0.0
  {
    assert beta * gap > 0.0;
  }

  /** A move to an equal finite potential is accepted by every draw below one. */
  lemma LevelAccepted(exp: real -> real, beta: real, e: real, u: real)
    requires IsExp(exp) && u < 1.0
    ensures !Downhill(Finite(e), Finite(e))
    ensures TestMove(exp, beta, Finite(e), Finite(e), u)
  {
    assert -beta * (e - e) == 0.0;
  }

  /**
   * NaN compares false both ways and propagates through `exp`: a move to NaN
   * is rejected, and once the current potential is NaN every move is.
   */
  lemma NaNRejected(exp: real -> real, beta: real, e: Energy, u: real)
    ensures !TestMove(exp, beta, e, NaN, u)
    ensures !TestMove(exp, beta, NaN, e, u)
  {
  }

  /** A move from a finite potential up to infinity has factor 0 for a positive beta, and no draw accepts it. */
  lemma InfinityRejected(exp: real -> real, beta: real, curr: real, u: real)
    requires beta > 0.0 && u >= 0.0
    ensures BoltzmannFactor(exp, beta, Finite(curr), PosInf) == Finite(0.0)
    ensures !TestMove(exp, beta, Finite(curr), PosInf, u)
  {
  }

  /** A move accepted by one draw is accepted by every smaller draw. */
  lemma SmallerDrawAccepts(exp: real -> real, beta: real, curr: Energy, next: Energy, u: real, v: real)
    requires TestMove(exp, beta, curr, next, u) && v <= u
    ensures TestMove(exp, beta, curr, next, v)
  {
  }

  // ---------------------------------------------------------------------------
  // Which components move

  /** `get_num_atoms` of every component, in order. */
  function Sizes(comps: seq<Component>): (sizes: seq<nat>)
    ensures |sizes| == |comps|
    ensures forall i :: 0 <= i < |comps| ==> sizes[i] == |comps[i].atoms|
  {
    seq(|comps|, i requires 0 <= i < |comps| => |comps[i].atoms|)
  }

  /** `max(component_sizes.values())` */
  function MaxOf(xs: seq<nat>): (m: nat)
    requires |xs| > 0
    ensures m in xs
    ensures forall i :: 0 <= i < |xs| ==> xs[i] <= m
  {
    if |xs| == 1 then xs[0]
    else
      var rest := MaxOf(xs[1..]);
      assert forall i :: 1 <= i < |xs| ==> xs[i] == xs[1..][i - 1];
      if xs[0] >= rest then xs[0] else rest
  }

  /** `len(set(component_sizes.values())) == 1`: every component has the same size. */
  predicate AllSameSize(sizes: seq<nat>)
  {
    forall i, j :: 0 <= i < |sizes| && 0 <= j < |sizes| ==> sizes[i] == sizes[j]
  }

  /** `tuple(range(n))` */
  function Below(n: nat): (r: seq<int>)
    ensures |r| == n && forall i :: 0 <= i < n ==> r[i] == i
  {
    seq(n, i => i)
  }

  /** The indices below `n` whose size differs from `max`, in ascending order. */
  function NotOfSize(sizes: seq<nat>, n: nat, max: nat): (r: seq<int>)
    requires n <= |sizes|
    ensures forall i :: 0 <= i < |r| ==> 0 <= r[i] < n && sizes[r[i]] != max
    ensures forall i, j :: 0 <= i < j < |r| ==> r[i] < r[j]
  {
    if n == 0 then []
    else NotOfSize(sizes, n - 1, max) + (if sizes[n - 1] != max then [n - 1] else [])
  }

  lemma {:induction false} NotOfSizeComplete(sizes: seq<nat>, n: nat, max: nat, i: nat)
    requires n <= |sizes| && i < n && sizes[i] != max
    ensures i in NotOfSize(sizes, n, max)
  {
    if i < n - 1 {
      NotOfSizeComplete(sizes, n - 1, max, i);
    }
  }

  /**
   * The movable components when none are given: every component but the
   * largest ones when the sizes differ, every component when they do not.
   */
  function DefaultMovable(sizes: seq<nat>): (r: seq<int>)
    requires |sizes| > 0
  {
    if !AllSameSize(sizes) then NotOfSize(sizes, |sizes|, MaxOf(sizes)) else Below(|sizes|)
  }

  /**
   * The default rule never leaves a component of the largest size movable
   * when the sizes differ, keeps every other one, and always leaves at least
   * one component to move.
   */
  lemma DefaultMovableRule(sizes: seq<nat>)
    requires |sizes| > 0
    ensures !AllSameSize(sizes) ==>
      forall i :: i in DefaultMovable(sizes) <==> 0 <= i < |sizes| && sizes[i] != MaxOf(sizes)
    ensures AllSameSize(sizes) ==>
      forall i :: i in DefaultMovable(sizes) <==> 0 <= i < |sizes|
    ensures |DefaultMovable(sizes)| > 0
  {
    var m := MaxOf(sizes);
    if !AllSameSize(sizes) {
      var r := NotOfSize(sizes, |sizes|, m);
      forall i | 0 <= i < |sizes| && sizes[i] != m
        ensures i in r
      {
        NotOfSizeComplete(sizes, |sizes|, m, i);
      }
      var i, j :| 0 <= i < |sizes| && 0 <= j < |sizes| && sizes[i] != sizes[j];
      if sizes[i] != m {
        assert i in r;
      } else {
        assert j in r;
      }
    } else {
      var r := Below(|sizes|);
      forall i | 0 <= i < |sizes|
        ensures i in r
      {
        assert r[i] == i;
      }
    }
  }

  /** `[i for i in range(n) if i in movable_components]` */
  function Candidates(n: nat, movable: seq<int>): (r: seq<int>)
    ensures forall i :: 0 <= i < |r| ==> 0 <= r[i] < n && r[i] in movable
    ensures forall i, j :: 0 <= i < j < |r| ==> r[i] < r[j]
  {
    if n == 0 then []
    else Candidates(n - 1, movable) + (if n - 1 in movable then [n - 1] else [])
  }

  /** Every in-range entry of `movable` is a candidate: out-of-range entries are ignored and repeats count once. */
  lemma {:induction false} CandidatesComplete(n: nat, movable: seq<int>, i: int)
    requires 0 <= i < n && i in movable
    ensures i in Candidates(n, movable)
  {
    if i < n - 1 {
      CandidatesComplete(n - 1, movable, i);
    }
  }

  /** The movable components of a step: the given ones, or the default rule. */
  function Movable(sizes: seq<nat>, movable: Option<seq<int>>): seq<int>
    requires |sizes| > 0
  {
    match movable
    case Some(m) => m
    case None => DefaultMovable(sizes)
  }

  /** Without given components there is always a candidate. */
  lemma DefaultHasCandidate(sizes: seq<nat>)
    requires |sizes| > 0
    ensures |Candidates(|sizes|, DefaultMovable(sizes))| > 0
  {
    DefaultMovableRule(sizes);
    var i :| i in DefaultMovable(sizes);
    CandidatesComplete(|sizes|, DefaultMovable(sizes), i);
  }

  /** `generator.choice(candidates)`, from one draw `u` in [0, 1). */
  function Choose(cands: seq<int>, u: real): (t: int)
    requires |cands| > 0 && 0.0 <= u < 1.0
    ensures t in cands
  {
    ScaledIndex(u, |cands|);
    cands[(u * |cands| as real).Floor]
  }

  lemma ScaledIndex(u: real, n: nat)
    requires n > 0 && 0.0 <= u < 1.0
    ensures 0 <= (u * n as real).Floor < n
  {
    assert u * n as real < 1.0 * n as real;
  }

  // ---------------------------------------------------------------------------
  // The step scalars and the moves

  /** `(generator.random() - 0.5) * 2`: a number in [-1, 1) for a draw in [0, 1). */
  function StepScalar(u: real): (r: real)
    ensures 0.0 <= u < 1.0 ==> -1.0 <= r < 1.0
    ensures u < 0.5 <==> r < 0.0
  {
    (u - 0.5) * 2.0
  }

  /** `v / np.linalg.norm(v)` */
  function Normalized(sqrt: real -> real, v: Vec): Vec
    requires IsSqrt(sqrt) && SqNorm(v) > 0.0
  {
    NormalizedIsUnit(sqrt, v);
    Scale(v, 1.0 / Norm(sqrt, v))
  }

  /** A normalised vector has norm one, so dividing by its norm changes nothing. */
  lemma NormalizedNormIsOne(sqrt: real -> real, v: Vec)
    requires IsSqrt(sqrt) && SqNorm(v) > 0.0
    ensures Norm(sqrt, Normalized(sqrt, v)) == 1.0
  {
    NormalizedIsUnit(sqrt, v);
    assert SqNorm(Normalized(sqrt, v)) == 1.0;
    var r := Norm(sqrt, Normalized(sqrt, v));
    assert r == sqrt(1.0);
    assert 0.0 <= r && r * r == 1.0;
    assert (r - 1.0) * (r + 1.0) == 0.0;
    ZeroFactor(r - 1.0, r + 1.0);
  }

  lemma ZeroFactor(a: real, d: real)
    requires d > 0.0 && a * d == 0.0
    ensures a == 0.0
  {
  }

  /** `rand_vector / np.linalg.norm(rand_vector) * step_size * rand` */
  function TranslationVector(sqrt: real -> real, stepSize: real, direction: Vec, u: real): Vec
    requires IsSqrt(sqrt) && SqNorm(direction) > 0.0
  {
    Scale(Normalized(sqrt, direction), stepSize * StepScalar(u))
  }

  /** The translation of a step is at most `step_size` long. */
  lemma TranslationWithinStep(sqrt: real -> real, stepSize: real, direction: Vec, u: real)
    requires IsSqrt(sqrt) && SqNorm(direction) > 0.0 && 0.0 <= u < 1.0
    ensures SqNorm(TranslationVector(sqrt, stepSize, direction, u)) <= stepSize * stepSize
  {
    NormalizedIsUnit(sqrt, direction);
    var unit := Normalized(sqrt, direction);
    var r := StepScalar(u);
    var c := stepSize * r;
    ScaledUnit(unit, c);
    FactorAtMostOne(stepSize, r, c);
  }

  lemma ScaledUnit(v: Vec, c: real)
    requires SqNorm(v) == 1.0
    ensures SqNorm(Scale(v, c)) == c * c
  {
    assert SqNorm(Scale(v, c)) == c * c * SqNorm(v);
  }

  lemma FactorAtMostOne(s: real, r: real, c: real)
    requires -1.0 <= r <= 1.0 && c == s * r
    ensures c * c <= s * s
  {
    assert c * c == (s * s) * (r * r);
    assert r * r <= 1.0 by {
      if r >= 0.0 {
        assert r * r <= 1.0 * r;
      } else {
        assert r * r <= (-1.0) * r;
      }
    }
    assert (s * s) * (r * r) <= (s * s) * 1.0;
  }

  /** `rotation_step_size * rand` */
  function RotationAngle(rotationStepSize: real, u: real): real
  {
    rotationStepSize * StepScalar(u)
  }

  /** `((rot_mat @ (pm - origin).T).T) + origin`: each row rotated about `origin`. */
  function RotateRows(pm: seq<Vec>, rot: Mat3, origin: Vec): (r: seq<Vec>)
    ensures |r| == |pm|
  {
    seq(|pm|, i requires 0 <= i < |pm| => Geometry.Add(Apply(rot, Geometry.Sub(pm[i], origin)), origin))
  }

  /** The identity rotation leaves every row where it was, whatever the origin. */
  lemma RotateIdentity(pm: seq<Vec>, origin: Vec)
    ensures RotateRows(pm, Identity, origin) == pm
  {
    var r := RotateRows(pm, Identity, origin);
    forall i | 0 <= i < |pm|
      ensures r[i] == pm[i]
    {
      ApplyIdentity(Geometry.Sub(pm[i], origin));
    }
  }

  /** `rot_mat @ v` is linear. */
  lemma ApplyAdd(m: Mat3, a: Vec, b: Vec)
    ensures Apply(m, Geometry.Add(a, b)) == Geometry.Add(Apply(m, a), Apply(m, b))
  {
  }

  lemma ApplyZero(m: Mat3)
    ensures Apply(m, Zero) == Zero
  {
    assert Dot(m.r0, Zero) == 0.0 && Dot(m.r1, Zero) == 0.0 && Dot(m.r2, Zero) == 0.0;
  }

  /** The sum of the rotated rows: the rotated sum of offsets from the origin, plus `n` origins. */
  lemma {:induction false} SumRotated(pm: seq<Vec>, rot: Mat3, origin: Vec)
    ensures SumRows(RotateRows(pm, rot, origin)) ==
      Geometry.Add(Apply(rot, Geometry.Sub(SumRows(pm), Scale(origin, |pm| as real))), Scale(origin, |pm| as real))
  {
    var r := RotateRows(pm, rot, origin);
    if |pm| == 0 {
      assert Geometry.Sub(Zero, Scale(origin, 0.0)) == Zero;
      ApplyZero(rot);
    } else {
      assert r[1..] == RotateRows(pm[1..], rot, origin);
      SumRotated(pm[1..], rot, origin);
      var n := (|pm| - 1) as real;
      var a := Geometry.Sub(pm[0], origin);
      var b := Geometry.Sub(SumRows(pm[1..]), Scale(origin, n));
      ApplyAdd(rot, a, b);
      OffsetsAdd(pm[0], SumRows(pm[1..]), origin, n);
      OriginsAdd(Apply(rot, a), Apply(rot, b), origin, n);
      assert |pm| as real == n + 1.0;
    }
  }

  lemma OffsetsAdd(p: Vec, rest: Vec, o: Vec, n: real)
    ensures Geometry.Add(Geometry.Sub(p, o), Geometry.Sub(rest, Scale(o, n))) == Geometry.Sub(Geometry.Add(p, rest), Scale(o, n + 1.0))
  {
  }

  lemma OriginsAdd(x: Vec, y: Vec, o: Vec, n: real)
    ensures Geometry.Add(Geometry.Add(x, o), Geometry.Add(y, Scale(o, n))) == Geometry.Add(Geometry.Add(x, y), Scale(o, n + 1.0))
  {
  }

  /** Rotating the rows about their own centroid keeps the centroid where it was. */
  lemma RotationKeepsCentroid(pm: seq<Vec>, rot: Mat3)
    requires |pm| > 0
    ensures Mean(RotateRows(pm, rot, Mean(pm))) == Mean(pm)
  {
    var n := |pm| as real;
    var c := Mean(pm);
    SumRotated(pm, rot, c);
    MeanTimesCount(SumRows(pm), n);
    assert Geometry.Sub(SumRows(pm), Scale(c, n)) == Zero;
    ApplyZero(rot);
    CountTimesMean(c, n);
  }

  lemma MeanTimesCount(s: Vec, n: real)
    requires n > 0.0
    ensures Scale(Divide(s, n), n) == s
  {
  }

  lemma CountTimesMean(c: Vec, n: real)
    requires n > 0.0
    ensures Divide(Scale(c, n), n) == c
  {
  }

  /**
   * `_translate_atoms_along_vector`: exactly `with_displacement(vector)`,
   * which moves every row and finds the components again.
   */
  method Translate(s: SupraMolecule, vector: Vec) returns (r: SupraMolecule)
    requires WellFormed(s.atoms, s.bonds, s.positions)
    ensures r.positions == Shift(s.positions, vector)
    ensures r.atoms == s.atoms && r.bonds == s.bonds
    ensures r.cid == s.cid && r.potential == s.potential
    ensures ComponentsDefined(r)
  {
    r := Supramolecules.WithDisplacement(s, vector);
  }

  /**
   * `_rotate_atoms_by_angle`: the rows rotated about `origin` by the matrix
   * for the angle and axis; only the rows are replaced.
   */
  function RotateAtoms(rotation: (real, Vec) -> Mat3, s: SupraMolecule, angle: real, axis: Vec, origin: Vec): (r: SupraMolecule)
    requires WellFormed(s.atoms, s.bonds, s.positions)
    ensures r == s.(positions := RotateRows(s.positions, rotation(angle, axis), origin))
  {
    var rows := RotateRows(s.positions, rotation(angle, axis), origin);
    assert WellFormed(s.atoms, s.bonds, rows);
    Supramolecules.WithPositionMatrix(s, rows)
  }

  /** Rotating by the identity gives the same supramolecule back. */
  lemma RotateAtomsIdentity(rotation: (real, Vec) -> Mat3, s: SupraMolecule, angle: real, axis: Vec, origin: Vec)
    requires WellFormed(s.atoms, s.bonds, s.positions) && rotation(angle, axis) == Identity
    ensures RotateAtoms(rotation, s, angle, axis, origin) == s
  {
    RotateIdentity(s.positions, origin);
  }
}
