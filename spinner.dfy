/**
 * The current engine, `Spinner`: a Metropolis Monte Carlo run over the
 * components of a supramolecule. Each step picks one movable component,
 * translates it by at most `step_size`, rotates it about its own centroid,
 * reassembles the structure and computes its potential; the move is kept
 * when the Metropolis test passes, and every kept structure is yielded as a
 * numbered conformer.
 *
 * The generator is the stream `draws` with a cursor; a step reads nine draws
 * (the choice, a scalar, a direction, a scalar, an axis) and the test one
 * more when the move is not downhill.
 */
module Spinners {
  import opened Wrappers
  import opened Geometry
  import opened Floats
  import opened Molecules
  import opened Supramolecules
  import opened Potentials
  import opened Metropolis

  const DefaultMaxAttempts: int := 1000
  const DefaultBeta: real := 2.0

  /** The draws one step reads from the generator. */
  const DrawsPerStep: nat := 9

  /**
   * The exceptions a run can raise: `max()` of no components, `choice()` of
   * no candidates, the `ValueError` of `get_centroid` on a component without
   * atoms, and the `KeyError` of `init_from_components`.
   */
  datatype StepError = NoComponents | NoCandidates | EmptyComponent | UnresolvedBond

  /** What `get_conformers` yields before it stops, and the exception that stopped it, if any. */
  datatype Conformers = Conformers(yielded: seq<SupraMolecule>, error: Option<StepError>)

  /**
   * One pass of the loop of `get_conformers` as the draws decide it: the
   * exception it raises, if any; otherwise whether the test passed, the
   * proposed components and their potential; and the cursor after it.
   */
  datatype Pass = Pass(error: Option<StepError>, passed: bool, next: seq<Component>, energy: Energy, cursor: nat)

  /**
   * The outcome of a run: the components of each accepted move in order,
   * the exception that ends it, if any, the cursor after it and how many
   * passes of the loop it completes.
   */
  datatype Trail = Trail(accepted: seq<seq<Component>>, error: Option<StepError>, cursor: nat, passes: nat)

  /** The components of each structure of `ys`, in order. */
  function ComponentsOf(ys: seq<SupraMolecule>): (r: seq<seq<Component>>)
    ensures |r| == |ys|
  {
    if |ys| == 0 then [] else ComponentsOf(ys[..|ys| - 1]) + [ys[|ys| - 1].components]
  }

  lemma {:induction false} ComponentsOfAt(ys: seq<SupraMolecule>, k: int)
    requires 0 <= k < |ys|
    ensures ComponentsOf(ys)[k] == ys[k].components
  {
    if k < |ys| - 1 {
      ComponentsOfAt(ys[..|ys| - 1], k);
    }
  }

  /**
   * A run of the loop of `get_conformers`, in which `pass` decides each pass
   * from the components, their potential and the cursor, after the moves
   * `acc` have been accepted in `count` passes: from components `comps`
   * with potential `e`, the generator at `c` and `left` passes to go. A pass
   * that passes the test moves the run to its components and potential, one
   * that does not leaves it where it was; the first exception ends the run,
   * and so does a pass after which `goal` moves have been accepted.
   */
  function Run(pass: (seq<Component>, Energy, nat) -> Pass, goal: int, acc: seq<seq<Component>>, count: nat,
               comps: seq<Component>, e: Energy, c: nat, left: nat): Trail
    decreases left
  {
    if left == 0 then Trail(acc, None, c, count)
    else
      var p := pass(comps, e, c);
      if p.error.Some? then Trail(acc, p.error, p.cursor, count)
      else
        var acc' := if p.passed then acc + [p.next] else acc;
        if |acc'| == goal then Trail(acc', None, p.cursor, count + 1)
        else if p.passed then Run(pass, goal, acc', count + 1, p.next, p.energy, p.cursor, left - 1)
        else Run(pass, goal, acc', count + 1, comps, e, p.cursor, left - 1)
  }

  /**
   * A run keeps the moves accepted before it and adds at most one per pass;
   * it ends by an exception before its last pass, or after all its passes,
   * or once `goal` moves have been accepted, and never accepts more than
   * `goal` when it starts below.
   */
  lemma {:induction false} RunEnds(pass: (seq<Component>, Energy, nat) -> Pass, goal: int, acc: seq<seq<Component>>, count: nat,
                                   comps: seq<Component>, e: Energy, c: nat, left: nat)
    ensures var t := Run(pass, goal, acc, count, comps, e, c, left);
      && |acc| <= |t.accepted| && t.accepted[..|acc|] == acc
      && count <= t.passes <= count + left
      && |t.accepted| - |acc| <= t.passes - count
      && (t.error.Some? ==> t.passes < count + left)
      && (t.error.None? ==> t.passes == count + left || |t.accepted| == goal)
      && (|acc| < goal ==> |t.accepted| <= goal)
    decreases left
  {
    if left > 0 {
      var p := pass(comps, e, c);
      if p.error.None? {
        var acc' := if p.passed then acc + [p.next] else acc;
        if |acc'| != goal {
          if p.passed {
            RunEnds(pass, goal, acc', count + 1, p.next, p.energy, p.cursor, left - 1);
          } else {
            RunEnds(pass, goal, acc', count + 1, comps, e, p.cursor, left - 1);
          }
          var t := Run(pass, goal, acc', count + 1, if p.passed then p.next else comps, if p.passed then p.energy else e, p.cursor, left - 1);
          assert t.accepted[..|acc|] == t.accepted[..|acc'|][..|acc|];
        } else {
          assert acc'[..|acc|] == acc;
        }
      }
    }
  }

  lemma ComponentsOfAppend(ys: seq<SupraMolecule>, x: SupraMolecule)
    requires |ys| > 0
    ensures ComponentsOf((ys + [x])[1..]) == ComponentsOf(ys[1..]) + [x.components]
  {
    assert (ys + [x])[1..] == ys[1..] + [x];
    assert (ys[1..] + [x])[..|ys| - 1] == ys[1..];
  }

  /**
   * `translate_molecule_along_vector` and then `rotate_molecule_by_angle`
   * about the translated component's centroid; a component without atoms has
   * no centroid, and `get_centroid` raises.
   */
  function MoveComponent(c: Component, v: Vec, rot: Mat3): (r: Result<Component, StepError>)
    requires |c.atoms| == |c.positions|
    ensures r.Failure? <==> |c.atoms| == 0
    ensures r.Failure? ==> r.error == EmptyComponent
    ensures r.Success? ==>
      r.value.atoms == c.atoms && r.value.bonds == c.bonds && |r.value.positions| == |c.positions|
  {
    var moved := DisplaceComponent(c, v);
    if |moved.positions| == 0 then Failure(EmptyComponent)
    else Success(moved.(positions := RotateRows(moved.positions, rot, Mean(moved.positions))))
  }

  /** A moved component's centroid moves by the translation alone: the rotation keeps it in place. */
  lemma MovedCentroid(c: Component, v: Vec, rot: Mat3)
    requires |c.atoms| == |c.positions| > 0
    ensures MoveComponent(c, v, rot).Success?
    ensures Mean(MoveComponent(c, v, rot).value.positions) == Geometry.Add(Mean(c.positions), v)
  {
    var shifted := Shift(c.positions, v);
    RotationKeepsCentroid(shifted, rot);
    MeanShift(c.positions, v);
  }

  /** A move whose translation is within `bound` (squared) moves the centroid within `bound`. */
  lemma MoveWithinBound(c: Component, v: Vec, rot: Mat3, bound: real)
    requires |c.atoms| == |c.positions| > 0 && SqNorm(v) <= bound
    ensures MoveComponent(c, v, rot).Success?
    ensures SqDist(Mean(MoveComponent(c, v, rot).value.positions), Mean(c.positions)) <= bound
  {
    MovedCentroid(c, v, rot);
    var m := Mean(c.positions);
    assert Geometry.Sub(Geometry.Add(m, v), m) == v;
  }

  /** `after` is `before` with component `t` alone moved rigidly: same atoms, bonds and row count. */
  predicate MovedOnly(before: seq<Component>, after: seq<Component>, t: int)
  {
    && |after| == |before| && 0 <= t < |before|
    && (forall i :: 0 <= i < |before| && i != t ==> after[i] == before[i])
    && after[t].atoms == before[t].atoms && after[t].bonds == before[t].bonds
    && |after[t].positions| == |before[t].positions|
  }

  /** Consecutive conformers differ in one component at most. */
  predicate OneMoved(before: seq<Component>, after: seq<Component>)
  {
    exists t :: 0 <= t < |before| && MovedOnly(before, after, t)
  }

  /** Every component keeps its atoms, bonds and number of rows. */
  predicate Rigid(before: seq<Component>, after: seq<Component>)
  {
    && |after| == |before|
    && forall i :: 0 <= i < |before| ==>
      after[i].atoms == before[i].atoms && after[i].bonds == before[i].bonds
      && |after[i].positions| == |before[i].positions|
  }

  /** A run of single rigid moves is rigid as a whole. */
  lemma RigidThenMoved(start: seq<Component>, before: seq<Component>, after: seq<Component>)
    requires Rigid(start, before) && OneMoved(before, after)
    ensures Rigid(start, after)
  {
    var t :| 0 <= t < |before| && MovedOnly(before, after, t);
    forall i | 0 <= i < |start|
      ensures after[i].atoms == start[i].atoms && after[i].bonds == start[i].bonds
      ensures |after[i].positions| == |start[i].positions|
    {
      if i != t {
        assert after[i] == before[i];
      }
    }
  }

  /** Structure `k` of the sequence is a single rigid move away from structure `k - 1`. */
  predicate MovedAt(yielded: seq<SupraMolecule>, k: int)
    requires 0 < k < |yielded|
  {
    OneMoved(yielded[k - 1].components, yielded[k].components)
  }

  /** Each structure of the sequence is a single rigid move away from the one before. */
  predicate SingleMoves(yielded: seq<SupraMolecule>)
  {
    forall k :: 0 < k < |yielded| ==> MovedAt(yielded, k)
  }

  /** Structure `k` of the sequence keeps the atoms, bonds and row counts of `start`. */
  predicate RigidAt(start: seq<Component>, yielded: seq<SupraMolecule>, k: int)
    requires 0 <= k < |yielded|
  {
    Rigid(start, yielded[k].components)
  }

  /** Every structure of the sequence keeps the atoms, bonds and row counts of `start`. */
  predicate AllRigid(start: seq<Component>, yielded: seq<SupraMolecule>)
  {
    forall k :: 0 <= k < |yielded| ==> RigidAt(start, yielded, k)
  }

  /** One more single rigid move keeps a run of them rigid. */
  lemma MovesExtend(start: seq<Component>, yielded: seq<SupraMolecule>, x: SupraMolecule)
    requires SingleMoves(yielded) && AllRigid(start, yielded) && |yielded| > 0
    requires OneMoved(yielded[|yielded| - 1].components, x.components)
    ensures SingleMoves(yielded + [x]) && AllRigid(start, yielded + [x])
  {
    var y := yielded + [x];
    forall k | 0 < k < |y|
      ensures MovedAt(y, k)
    {
      assert y[k - 1] == yielded[k - 1];
      if k < |yielded| {
        assert y[k] == yielded[k];
        assert MovedAt(yielded, k);
      }
    }
    assert RigidAt(start, yielded, |yielded| - 1);
    RigidThenMoved(start, yielded[|yielded| - 1].components, x.components);
    forall k | 0 <= k < |y|
      ensures RigidAt(start, y, k)
    {
      if k < |yielded| {
        assert y[k] == yielded[k];
        assert RigidAt(start, yielded, k);
      }
    }
  }

  class Spinner {
    const stepSize: real
    const rotationStepSize: real
    const numConformers: int
    const maxAttempts: int
    const potential: Potential
    const beta: real
    /** The per-atom radius, sigma and epsilon the potential reads. */
    const params: AtomParameters
    const numerics: Numerics
    /** The generator seeded by `random_seed`, as the stream of its draws. */
    const draws: nat -> real
    /** How many draws the run has read so far. */
    var cursor: nat

    /** The square root is one and every draw is in (0, 1); the step reads nothing else. */
    ghost predicate Valid()
    {
      IsSqrt(numerics.sqrt) && UnitDraws(draws)
    }

    /** `Spinner(...)`: a missing potential function is `SpdPotential(5)`. */
    constructor (stepSize: real, rotationStepSize: real, numConformers: int, maxAttempts: int,
                 potentialFunction: Option<Potential>, beta: real, params: AtomParameters,
                 numerics: Numerics, draws: nat -> real)
      ensures this.stepSize == stepSize && this.rotationStepSize == rotationStepSize
      ensures this.numConformers == numConformers && this.maxAttempts == maxAttempts
      ensures this.potential == if potentialFunction.None? then DefaultPotential else potentialFunction.value
      ensures this.beta == beta && this.params == params && this.numerics == numerics && this.draws == draws
      ensures cursor == 0
    {
      this.stepSize := stepSize;
      this.rotationStepSize := rotationStepSize;
      this.numConformers := numConformers;
      this.maxAttempts := maxAttempts;
      this.potential := if potentialFunction.None? then DefaultPotential else potentialFunction.value;
      this.beta := beta;
      this.params := params;
      this.numerics := numerics;
      this.draws := draws;
      cursor := 0;
    }

    /** `compute_potential`: the configured potential of the structure. */
    method ComputePotential(s: SupraMolecule) returns (e: Energy)
      requires RowsPerAtom(s)
      ensures e == SupraPotential(numerics.sqrt, potential, params, s)
      ensures |s.components| <= 1 ==> e == Finite(0.0)
    {
      e := Potentials.ComputePotential(numerics.sqrt, potential, params, s);
    }

    /** `generator.random()` */
    method Random() returns (u: real)
      modifies this
      ensures u == draws(old(cursor)) && cursor == old(cursor) + 1
    {
      u := draws(cursor);
      cursor := cursor + 1;
    }

    /** `generator.random(3)` */
    method Random3() returns (v: Vec)
      modifies this
      ensures v == DrawVec(draws, old(cursor)) && cursor == old(cursor) + 3
    {
      var x := Random();
      var y := Random();
      var z := Random();
      v := Vec(x, y, z);
    }

    // -------------------------------------------------------------------------
    // The move a step proposes, as a function of the draws from cursor `c`

    /** A step has a component to pick: there are components and a movable one among them. */
    predicate Proposable(comps: seq<Component>, movable: Option<seq<int>>)
    {
      |comps| > 0 && |Candidates(|comps|, Movable(Sizes(comps), movable))| > 0
    }

    /** The component picked by the draw at `c`: always a movable one. */
    function TargetAt(comps: seq<Component>, movable: Option<seq<int>>, c: nat): (t: int)
      requires Valid() && Proposable(comps, movable)
      ensures 0 <= t < |comps| && t in Movable(Sizes(comps), movable)
    {
      Choose(Candidates(|comps|, Movable(Sizes(comps), movable)), draws(c))
    }

    /** The translation drawn at `c + 1` (its scalar) and `c + 2` (its direction). */
    function TranslationAt(c: nat): Vec
      requires Valid()
    {
      DrawVecNonZero(draws, c + 2);
      TranslationVector(numerics.sqrt, stepSize, DrawVec(draws, c + 2), draws(c + 1))
    }

    /**
     * The rotation for the scalar draw `u` about `axis` divided by the norm
     * of the translation direction `direction` once that is normalised.
     */
    function RotationFrom(u: real, axis: Vec, direction: Vec): Mat3
      requires IsSqrt(numerics.sqrt) && SqNorm(direction) > 0.0
    {
      NormalizedNormIsOne(numerics.sqrt, direction);
      numerics.rotation(RotationAngle(rotationStepSize, u), Divide(axis, Norm(numerics.sqrt, Normalized(numerics.sqrt, direction))))
    }

    /** The divisor is one: the rotation is about the drawn axis as it is. */
    lemma RotationAboutDrawnAxis(u: real, axis: Vec, direction: Vec)
      requires IsSqrt(numerics.sqrt) && SqNorm(direction) > 0.0
      ensures RotationFrom(u, axis, direction) == numerics.rotation(RotationAngle(rotationStepSize, u), axis)
    {
      NormalizedNormIsOne(numerics.sqrt, direction);
      assert Divide(axis, 1.0) == axis;
    }

    /**
     * The rotation drawn at `c + 5` (its scalar) and `c + 6` (its axis):
     * `RotationFrom` at those draws, by `RotationDrawn`, since the divisor is one.
     */
    function RotationAt(c: nat): Mat3
      requires Valid()
    {
      numerics.rotation(RotationAngle(rotationStepSize, draws(c + 5)), DrawVec(draws, c + 6))
    }

    lemma TranslationDrawn(c: nat, u: real, direction: Vec)
      requires Valid()
      requires u == draws(c + 1) && direction == DrawVec(draws, c + 2)
      ensures SqNorm(direction) > 0.0
      ensures TranslationVector(numerics.sqrt, stepSize, direction, u) == TranslationAt(c)
    {
      DrawVecNonZero(draws, c + 2);
    }

    lemma RotationDrawn(c: nat, u: real, axis: Vec, direction: Vec)
      requires Valid()
      requires u == draws(c + 5) && axis == DrawVec(draws, c + 6) && direction == DrawVec(draws, c + 2)
      ensures SqNorm(direction) > 0.0
      ensures RotationFrom(u, axis, direction) == RotationAt(c)
    {
      DrawVecNonZero(draws, c + 2);
      RotationAboutDrawnAxis(u, axis, direction);
    }

    /**
     * The components after the move drawn from `c`: the target alone moved,
     * or the `ValueError` of a target without atoms.
     */
    function Proposed(comps: seq<Component>, movable: Option<seq<int>>, c: nat): (r: Result<seq<Component>, StepError>)
      requires Valid() && Proposable(comps, movable) && OneRowPerAtom(comps)
      ensures r.Failure? <==> |comps[TargetAt(comps, movable, c)].atoms| == 0
      ensures r.Failure? ==> r.error == EmptyComponent
      ensures r.Success? ==> MovedOnly(comps, r.value, TargetAt(comps, movable, c)) && OneRowPerAtom(r.value)
    {
      var t := TargetAt(comps, movable, c);
      match MoveComponent(comps[t], TranslationAt(c), RotationAt(c))
      case Failure(e) => Failure(e)
      case Success(moved) => Success(comps[t := moved])
    }

    /** The moved component's centroid moves at most `step_size`. */
    lemma ProposalWithinStep(comps: seq<Component>, movable: Option<seq<int>>, c: nat)
      requires Valid() && Proposable(comps, movable) && OneRowPerAtom(comps)
      requires |comps[TargetAt(comps, movable, c)].atoms| > 0
      ensures Proposed(comps, movable, c).Success?
      ensures var t := TargetAt(comps, movable, c);
        SqDist(Mean(Proposed(comps, movable, c).value[t].positions), Mean(comps[t].positions)) <= stepSize * stepSize
    {
      var t := TargetAt(comps, movable, c);
      TranslationAtWithinStep(c);
      MoveWithinBound(comps[t], TranslationAt(c), RotationAt(c), stepSize * stepSize);
    }

    lemma TranslationAtWithinStep(c: nat)
      requires Valid()
      ensures SqNorm(TranslationAt(c)) <= stepSize * stepSize
    {
      DrawVecNonZero(draws, c + 2);
      TranslationWithinStep(numerics.sqrt, stepSize, DrawVec(draws, c + 2), draws(c + 1));
    }

    /**
     * Without given movable components, a structure whose components differ
     * in size always has a move, and the move leaves every largest component
     * (the host) where it was.
     */
    lemma LargestStaysPut(comps: seq<Component>, c: nat)
      requires Valid() && |comps| > 0 && !AllSameSize(Sizes(comps)) && OneRowPerAtom(comps)
      ensures Proposable(comps, None)
      ensures |comps[TargetAt(comps, None, c)].atoms| != MaxOf(Sizes(comps))
      ensures Proposed(comps, None, c).Success? ==>
        forall i :: 0 <= i < |comps| && |comps[i].atoms| == MaxOf(Sizes(comps)) ==>
          Proposed(comps, None, c).value[i] == comps[i]
    {
      var sizes := Sizes(comps);
      DefaultHasCandidate(sizes);
      DefaultMovableRule(sizes);
      var t := TargetAt(comps, None, c);
      assert sizes[t] != MaxOf(sizes);
    }

    // -------------------------------------------------------------------------
    // The run

    /**
     * `_run_step`: pick a movable component, translate it, rotate it about
     * its centroid, reassemble the structure from the components and compute
     * its potential. The first two exceptions come before any draw.
     */
    method RunStep(s: SupraMolecule, movable: Option<seq<int>>) returns (r: Result<(SupraMolecule, Energy), StepError>)
      requires Valid() && RowsPerAtom(s)
      modifies this
      ensures |s.components| == 0 ==> r == Failure(NoComponents) && cursor == old(cursor)
      ensures |s.components| > 0 && !Proposable(s.components, movable) ==>
        r == Failure(NoCandidates) && cursor == old(cursor)
      ensures cursor == StepCursor(s.components, movable, old(cursor))
      ensures r.Failure? <==> StepAt(s.components, movable, old(cursor)).Failure?
      ensures r.Failure? ==> r.error == StepAt(s.components, movable, old(cursor)).error
      ensures r.Success? ==>
        && r.value.0.components == StepAt(s.components, movable, old(cursor)).value
        && AssembledFrom(r.value.0, r.value.0.components, None, None) && RowsPerAtom(r.value.0)
        && r.value.1 == SupraPotential(numerics.sqrt, potential, params, r.value.0)
    {
      var componentList := s.components;
      if |componentList| == 0 {
        return Failure(NoComponents);
      }
      var componentSizes := Sizes(componentList);
      var movableComponents := Movable(componentSizes, movable);
      var candidates := Candidates(|componentList|, movableComponents);
      if |candidates| == 0 {
        return Failure(NoCandidates);
      }
      ghost var c := cursor;
      var targCompId, translationVector, rot := DrawMove(candidates);
      assert targCompId == TargetAt(componentList, movable, c);
      var targComp := MoveComponent(componentList[targCompId], translationVector, rot);
      if targComp.Failure? {
        return Failure(targComp.error);
      }
      componentList := componentList[targCompId := targComp.value];
      assert MovedOnly(s.components, componentList, targCompId);
      r := Assemble(componentList);
    }

    /**
     * The draws of a step: the target among the candidates, the translation
     * scalar and direction, the rotation scalar and axis.
     */
    method DrawMove(candidates: seq<int>) returns (targCompId: int, translationVector: Vec, rot: Mat3)
      requires Valid() && |candidates| > 0
      modifies this
      ensures targCompId == Choose(candidates, draws(old(cursor)))
      ensures translationVector == TranslationAt(old(cursor)) && rot == RotationAt(old(cursor))
      ensures cursor == old(cursor) + DrawsPerStep
    {
      var u := Random();
      targCompId := Choose(candidates, u);
      var randVector;
      translationVector, randVector := DrawTranslation();
      rot := DrawRotation(randVector);
    }

    /** The translation scalar and direction, drawn after the target. */
    method DrawTranslation() returns (translationVector: Vec, randVector: Vec)
      requires Valid() && cursor > 0
      modifies this
      ensures translationVector == TranslationAt(old(cursor) - 1)
      ensures randVector == DrawVec(draws, old(cursor) + 1)
      ensures cursor == old(cursor) + 4
    {
      ghost var c := cursor - 1;
      var rand := Random();
      randVector := Random3();
      TranslationDrawn(c, rand, randVector);
      translationVector := TranslationVector(numerics.sqrt, stepSize, randVector, rand);
    }

    /** The rotation scalar and axis, drawn after the translation direction `randVector`. */
    method DrawRotation(randVector: Vec) returns (rot: Mat3)
      requires Valid() && cursor >= 5 && randVector == DrawVec(draws, cursor - 3)
      modifies this
      ensures rot == RotationAt(old(cursor) - 5)
      ensures cursor == old(cursor) + 4
    {
      ghost var c := cursor - 5;
      var rand2 := Random();
      var randAxis := Random3();
      RotationDrawn(c, rand2, randAxis, randVector);
      rot := RotationFrom(rand2, randAxis, randVector);
    }

    /**
     * The end of a step: `init_from_components` on the new component list,
     * which raises exactly when a bond end is unknown, and the potential of
     * the structure it builds.
     */
    method Assemble(comps: seq<Component>) returns (r: Result<(SupraMolecule, Energy), StepError>)
      requires OneRowPerAtom(comps)
      ensures r.Failure? <==> !EndpointsResolve(comps)
      ensures r.Failure? ==> r.error == UnresolvedBond
      ensures r.Success? ==>
        && AssembledFrom(r.value.0, comps, None, None) && RowsPerAtom(r.value.0)
        && r.value.1 == SupraPotential(numerics.sqrt, potential, params, r.value.0)
    {
      var assembled := InitFromComponents(comps, None, None);
      if assembled.Failure? {
        return Failure(UnresolvedBond);
      }
      var supramolecule := assembled.value;
      var nonbondedPotential := ComputePotential(supramolecule);
      r := Success((supramolecule, nonbondedPotential));
    }

    /** `test_move` on the generator: a downhill move passes without a draw; otherwise one draw decides. */
    method PassesTest(curr: Energy, next: Energy) returns (passed: bool)
      modifies this
      ensures passed == TestMove(numerics.exp, beta, curr, next, draws(old(cursor)))
      ensures cursor == if Downhill(curr, next) then old(cursor) else old(cursor) + 1
    {
      if Downhill(curr, next) {
        return true;
      }
      var u := Random();
      passed := Exceeds(BoltzmannFactor(numerics.exp, beta, curr, next), u);
    }

    /**
     * Conformer `k` of a run: numbered `k`, its rows those of its components
     * in order, one row per atom, and carrying its own potential.
     */
    ghost predicate Conformer(x: SupraMolecule, k: int)
    {
      && AssembledFrom(x, x.components, Some(k), x.potential)
      && RowsPerAtom(x)
      && x.potential == Some(SupraPotential(numerics.sqrt, potential, params, x))
    }

    /**
     * An accepted move: the structure assembled again from the new
     * components with the next `cid` and the new potential, then given the
     * new rows, which are already its rows.
     */
    method Keep(next: SupraMolecule, cid: int, e: Energy) returns (conformer: SupraMolecule)
      requires AssembledFrom(next, next.components, None, None) && RowsPerAtom(next)
      requires EndpointsResolve(next.components)
      requires e == SupraPotential(numerics.sqrt, potential, params, next)
      ensures conformer.components == next.components
      ensures AssembledFrom(conformer, next.components, Some(cid), Some(e))
      ensures Conformer(conformer, cid)
    {
      var made := InitFromComponents(next.components, Some(cid), Some(e));
      assert made.Success?;
      AssembledEndpointsKnown(made.value, next.components, Some(cid), Some(e));
      conformer := Supramolecules.WithPositionMatrix(made.value, next.positions);
      assert conformer == made.value;
      PotentialReadsComponents(numerics.sqrt, potential, params, next, conformer);
    }

    /**
     * The conformers of a run from `s`: conformer `k` is numbered `k`, each is
     * a single rigid move away from the one before, and every one keeps the
     * atoms, bonds and row counts of the components of `s`.
     */
    ghost predicate Yields(s: SupraMolecule, yielded: seq<SupraMolecule>)
    {
      && (forall k {:trigger Conformer(yielded[k], k)} :: 0 <= k < |yielded| ==> Conformer(yielded[k], k))
      && SingleMoves(yielded)
      && AllRigid(s.components, yielded)
    }

    lemma YieldsExtend(s: SupraMolecule, yielded: seq<SupraMolecule>, x: SupraMolecule)
      requires Yields(s, yielded) && |yielded| > 0
      requires Conformer(x, |yielded|) && OneMoved(yielded[|yielded| - 1].components, x.components)
      ensures Yields(s, yielded + [x])
    {
      var y := yielded + [x];
      forall k | 0 <= k < |y|
        ensures Conformer(y[k], k)
      {
        if k < |yielded| {
          assert y[k] == yielded[k];
        } else {
          assert y[k] == x;
        }
      }
      MovesExtend(s.components, yielded, x);
    }

    /**
     * Every conformer of a run carries the potential of its own structure, and
     * the first carries the potential of the starting structure.
     */
    lemma {:induction false} YieldedPotentials(s: SupraMolecule, yielded: seq<SupraMolecule>, k: nat)
      requires RowsPerAtom(s) && Yields(s, yielded) && k < |yielded|
      requires yielded[0].components == s.components
      ensures RowsPerAtom(yielded[k])
      ensures yielded[k].potential == Some(SupraPotential(numerics.sqrt, potential, params, yielded[k]))
      ensures yielded[0].potential == Some(SupraPotential(numerics.sqrt, potential, params, s))
    {
      assert Conformer(yielded[k], k);
      assert Conformer(yielded[0], 0);
      PotentialReadsComponents(numerics.sqrt, potential, params, yielded[0], s);
    }

    /**
     * The structure yielded first: the starting components assembled with
     * `cid` 0 and the starting potential.
     */
    method Start(s: SupraMolecule) returns (r: Result<SupraMolecule, StepError>)
      requires RowsPerAtom(s)
      ensures r.Failure? <==> !EndpointsResolve(s.components)
      ensures r.Failure? ==> r.error == UnresolvedBond
      ensures r.Success? ==> r.value.components == s.components && r.value.potential.Some?
      ensures r.Success? ==> Yields(s, [r.value])
    {
      var nonbondedPotential := ComputePotential(s);
      var first := InitFromComponents(s.components, Some(0), Some(nonbondedPotential));
      if first.Failure? {
        return Failure(UnresolvedBond);
      }
      FirstYields(s, first.value);
      r := Success(first.value);
    }

    /** The structure assembled from the starting components, numbered 0 and carrying their potential, starts a run. */
    lemma FirstYields(s: SupraMolecule, x: SupraMolecule)
      requires RowsPerAtom(s)
      requires AssembledFrom(x, s.components, Some(0), Some(SupraPotential(numerics.sqrt, potential, params, s)))
      ensures Yields(s, [x])
    {
      PotentialReadsComponents(numerics.sqrt, potential, params, s, x);
      assert Conformer([x][0], 0);
      assert RigidAt(s.components, [x], 0);
    }

    /** The potential of any structure made of `comps`: the potential reads nothing else. */
    ghost function PotentialOf(comps: seq<Component>): Energy
      requires OneRowPerAtom(comps)
    {
      SupraPotential(numerics.sqrt, potential, params, SupraMolecule([], [], [], comps, None, None))
    }

    lemma PotentialOfComponents(x: SupraMolecule)
      requires RowsPerAtom(x)
      ensures SupraPotential(numerics.sqrt, potential, params, x) == PotentialOf(x.components)
    {
      PotentialReadsComponents(numerics.sqrt, potential, params, x, SupraMolecule([], [], [], x.components, None, None));
    }

    /**
     * What `_run_step` makes of components `comps` with the generator at
     * `c`: the exception it raises, before any draw when there is no
     * component or no candidate and after its nine draws when the target has
     * no atoms or a bond end is unknown; otherwise the moved components.
     */
    ghost function StepAt(comps: seq<Component>, movable: Option<seq<int>>, c: nat): (r: Result<seq<Component>, StepError>)
      requires Valid() && OneRowPerAtom(comps)
      ensures r.Success? ==> OneMoved(comps, r.value) && OneRowPerAtom(r.value) && EndpointsResolve(r.value)
    {
      if |comps| == 0 then Failure(NoComponents)
      else if !Proposable(comps, movable) then Failure(NoCandidates)
      else match Proposed(comps, movable, c)
        case Failure(err) => Failure(err)
        case Success(next) => if EndpointsResolve(next) then Success(next) else Failure(UnresolvedBond)
    }

    /** The cursor after `_run_step`: nine draws later, unless it raised before drawing. */
    function StepCursor(comps: seq<Component>, movable: Option<seq<int>>, c: nat): nat
    {
      if Proposable(comps, movable) then c + DrawsPerStep else c
    }

    /**
     * One pass of the loop from components `comps` with potential `e` and the
     * generator at `c`: the step, then `test_move` against the potential of
     * the moved components, which reads one more draw when the move is not
     * downhill.
     */
    ghost function PassAt(comps: seq<Component>, e: Energy, movable: Option<seq<int>>, c: nat): (p: Pass)
      requires Valid() && OneRowPerAtom(comps)
      ensures p.error.None? ==> OneRowPerAtom(p.next)
    {
      var d := StepCursor(comps, movable, c);
      match StepAt(comps, movable, c)
      case Failure(err) => Pass(Some(err), false, comps, e, d)
      case Success(next) =>
        var nextPotential := PotentialOf(next);
        Pass(None, TestMove(numerics.exp, beta, e, nextPotential, draws(d)), next, nextPotential,
             if Downhill(e, nextPotential) then d else d + 1)
    }

    /** `pass` is `PassAt` on every state with one row per atom. */
    ghost predicate Drawing(pass: (seq<Component>, Energy, nat) -> Pass, movable: Option<seq<int>>)
      requires Valid()
    {
      forall comps, e, c {:trigger PassAt(comps, e, movable, c)} ::
        OneRowPerAtom(comps) ==> pass(comps, e, c) == PassAt(comps, e, movable, c)
    }

    /**
     * The passes of a run of `get_conformers`: `PassAt`, on the states with
     * one row per atom, which are the only states a run reaches.
     */
    ghost function Drawn(movable: Option<seq<int>>): (pass: (seq<Component>, Energy, nat) -> Pass)
      requires Valid()
      ensures Drawing(pass, movable)
    {
      (comps: seq<Component>, e: Energy, c: nat) => if OneRowPerAtom(comps) then PassAt(comps, e, movable, c) else Pass(Some(NoComponents), false, comps, e, c)
    }

    /**
     * The step and the test of one pass from `current` with potential `e`:
     * the pass `PassAt` makes at the current generator position, and the
     * structure the step assembles when it raises nothing.
     */
    method Trial(current: SupraMolecule, e: Energy, movable: Option<seq<int>>)
      returns (r: Result<(SupraMolecule, Energy, bool), StepError>)
      requires Valid() && RowsPerAtom(current)
      modifies this
      ensures var st := StepAt(current.components, movable, old(cursor));
        var d := StepCursor(current.components, movable, old(cursor));
        && (r.Failure? <==> st.Failure?)
        && (r.Failure? ==> r.error == st.error && cursor == d)
        && (r.Success? ==>
              && r.value.0.components == st.value
              && r.value.1 == PotentialOf(st.value)
              && r.value.2 == TestMove(numerics.exp, beta, e, r.value.1, draws(d))
              && cursor == if Downhill(e, r.value.1) then d else d + 1)
      ensures r.Success? ==> var next := r.value.0;
        && AssembledFrom(next, next.components, None, None) && RowsPerAtom(next)
        && EndpointsResolve(next.components)
        && OneMoved(current.components, next.components)
        && r.value.1 == SupraPotential(numerics.sqrt, potential, params, next)
    {
      var step := RunStep(current, movable);
      if step.Failure? {
        return Failure(step.error);
      }
      var (next, nextPotential) := step.value;
      PotentialOfComponents(next);
      var passed := PassesTest(e, nextPotential);
      r := Success((next, nextPotential, passed));
    }

    /** A pass that is `PassAt`, from the outcome of its step and its test. */
    lemma PassIs(pass: (seq<Component>, Energy, nat) -> Pass, comps: seq<Component>, e: Energy, movable: Option<seq<int>>, c: nat)
      requires Valid() && OneRowPerAtom(comps) && Drawing(pass, movable)
      ensures var st := StepAt(comps, movable, c);
        var d := StepCursor(comps, movable, c);
        var p := pass(comps, e, c);
        && (st.Failure? ==> p == Pass(Some(st.error), false, comps, e, d))
        && (st.Success? ==>
              var ep := PotentialOf(st.value);
              p == Pass(None, TestMove(numerics.exp, beta, e, ep, draws(d)), st.value, ep, if Downhill(e, ep) then d else d + 1))
    {
      assert pass(comps, e, c) == PassAt(comps, e, movable, c);
    }

    /**
     * One pass of the loop of `get_conformers`: a step from `current`, the
     * test against its potential `e`, and, when the move passes, the
     * conformer numbered `cid` that it yields after the conformers `yielded`
     * of a run from `s`, the last of which has the components of `current`.
     * The pass is `pass` at the current generator position.
     */
    method Attempt(current: SupraMolecule, e: Energy, cid: int, movable: Option<seq<int>>,
                   ghost s: SupraMolecule, ghost yielded: seq<SupraMolecule>, ghost pass: (seq<Component>, Energy, nat) -> Pass)
      returns (r: Result<Option<SupraMolecule>, StepError>)
      requires Valid() && RowsPerAtom(current) && Drawing(pass, movable)
      requires Yields(s, yielded) && cid == |yielded| > 0
      requires current.components == yielded[cid - 1].components
      modifies this
      ensures var p := pass(current.components, e, old(cursor));
        && cursor == p.cursor
        && (p.error.Some? ==> r == Failure(p.error.value))
        && (p.error.None? ==> r.Success? && (r.value.Some? <==> p.passed))
        && (r.Success? && r.value.Some? ==>
              r.value.value.components == p.next && r.value.value.potential == Some(p.energy))
      ensures r.Success? && r.value.Some? ==> var x := r.value.value;
        && OneMoved(current.components, x.components)
        && RowsPerAtom(x) && x.potential.Some?
        && Yields(s, yielded + [x])
    {
      ghost var c := cursor;
      var trial := Trial(current, e, movable);
      PassIs(pass, current.components, e, movable, c);
      if trial.Failure? {
        return Failure(trial.error);
      }
      var (next, nextPotential, passed) := trial.value;
      if !passed {
        return Success(None);
      }
      var conformer := Keep(next, cid, nextPotential);
      YieldsExtend(s, yielded, conformer);
      r := Success(Some(conformer));
    }

    /**
     * `Attempt` within a run whose conformers so far are `yielded`, the last
     * of which has the components of `current`: the pass either raises, or
     * leaves the structure, its potential and the conformers yielded (one
     * more when the move passes). When the run so far is `whole`, with the
     * components `ComponentsOf(yielded[1..])` accepted in `count` passes and
     * `left` passes to go, the pass either ends the run or moves it on to
     * the state it leaves.
     */
    method Turn(current: SupraMolecule, e: Energy, yielded: seq<SupraMolecule>, movable: Option<seq<int>>,
                ghost s: SupraMolecule, ghost pass: (seq<Component>, Energy, nat) -> Pass,
                ghost whole: Trail, ghost count: nat, ghost left: nat)
      returns (error: Option<StepError>, next: SupraMolecule, e': Energy, grown: seq<SupraMolecule>)
      requires Valid() && RowsPerAtom(current) && Drawing(pass, movable)
      requires Yields(s, yielded) && |yielded| > 0
      requires current.components == yielded[|yielded| - 1].components
      requires left > 0 && whole == Run(pass, numConformers, ComponentsOf(yielded[1..]), count, current.components, e, cursor, left)
      modifies this
      ensures error.Some? ==> whole == Trail(ComponentsOf(yielded[1..]), error, cursor, count)
      ensures error.None? ==>
        && (grown == yielded ==> next == current && e' == e)
        && (grown == yielded || grown == yielded + [next])
        && |yielded| <= |grown| <= |yielded| + 1 && grown[0] == yielded[0]
        && RowsPerAtom(next) && next.components == grown[|grown| - 1].components
        && Yields(s, grown)
        && (|grown| - 1 == numConformers ==> whole == Trail(ComponentsOf(grown[1..]), None, cursor, count + 1))
        && (|grown| - 1 != numConformers ==>
              whole == Run(pass, numConformers, ComponentsOf(grown[1..]), count + 1, next.components, e', cursor, left - 1))
    {
      var r := Attempt(current, e, |yielded|, movable, s, yielded, pass);
      if r.Failure? {
        return Some(r.error), current, e, yielded;
      }
      if r.value.None? {
        return None, current, e, yielded;
      }
      next := r.value.value;
      e' := next.potential.value;
      grown := yielded + [next];
      error := None;
      ComponentsOfAppend(yielded, next);
    }

    /**
     * The loop of `get_conformers` from `s`, whose conformer 0 is `start`:
     * the conformers yielded are `start` and then the components the
     * reference run `Run` accepts, and the run ends as that one does.
     */
    method Spin(s: SupraMolecule, start: SupraMolecule, movable: Option<seq<int>>, ghost pass: (seq<Component>, Energy, nat) -> Pass)
      returns (run: Conformers)
      requires Valid() && RowsPerAtom(s) && Drawing(pass, movable)
      requires start.components == s.components && start.potential.Some? && Yields(s, [start])
      modifies this
      ensures |run.yielded| > 0 && run.yielded[0] == start
      ensures var t := Run(pass, numConformers, [], 0, s.components, start.potential.value, old(cursor), Passes(maxAttempts));
        && |run.yielded| == |t.accepted| + 1
        && ComponentsOf(run.yielded[1..]) == t.accepted
        && run.error == t.error && cursor == t.cursor
      ensures Yields(s, run.yielded)
    {
      var cid := 0;
      var nonbondedPotential := start.potential.value;
      var yielded := [start];
      ghost var whole := Run(pass, numConformers, [], 0, s.components, nonbondedPotential, cursor, Passes(maxAttempts));
      ghost var left := Passes(maxAttempts);
      var supramolecule := s;
      var cidsPassed: seq<int> := [];
      var count := 0;
      var attempt := 1;
      assert ComponentsOf(yielded[1..]) == [];
      while attempt < maxAttempts
        invariant 1 <= attempt && count == attempt - 1 && left == Passes(maxAttempts) - count
        invariant cid == |yielded| - 1 && |cidsPassed| == cid
        invariant yielded[0] == start
        invariant RowsPerAtom(supramolecule) && supramolecule.components == yielded[|yielded| - 1].components
        invariant Yields(s, yielded)
        invariant whole == Run(pass, numConformers, ComponentsOf(yielded[1..]), count, supramolecule.components, nonbondedPotential, cursor, left)
        decreases maxAttempts - attempt
      {
        var error, next, nextPotential, grown := Turn(supramolecule, nonbondedPotential, yielded, movable, s, pass, whole, count, left);
        if error.Some? {
          return Conformers(yielded, error);
        }
        if |grown| > |yielded| {
          cid := cid + 1;
          cidsPassed := cidsPassed + [cid];
        }
        supramolecule, nonbondedPotential, yielded := next, nextPotential, grown;
        count := count + 1;
        attempt := attempt + 1;
        left := left - 1;
        if |cidsPassed| == numConformers {
          return Conformers(yielded, None);
        }
      }
      run := Conformers(yielded, None);
    }

    /**
     * `get_conformers`: the starting structure as conformer 0, with the
     * potential of `s`, then one conformer per accepted move, numbered in
     * order, each a single rigid move away from the one before; the
     * conformers and the way the run ends are those of the reference run
     * `Run` of the passes `pass` from `s`, which tries at most
     * `max_attempts - 1` moves and stops once `num_conformers` have been
     * accepted.
     */
    method GetConformers(s: SupraMolecule, movable: Option<seq<int>>, ghost pass: (seq<Component>, Energy, nat) -> Pass)
      returns (run: Conformers)
      requires Valid() && RowsPerAtom(s) && Drawing(pass, movable)
      modifies this
      ensures |run.yielded| == 0 <==> !EndpointsResolve(s.components)
      ensures |run.yielded| == 0 ==> run.error == Some(UnresolvedBond) && cursor == old(cursor)
      ensures |run.yielded| > 0 ==> run.yielded[0].components == s.components
      ensures EndpointsResolve(s.components) ==>
        var t := Run(pass, numConformers, [], 0, s.components, SupraPotential(numerics.sqrt, potential, params, s), old(cursor), Passes(maxAttempts));
        && |run.yielded| == |t.accepted| + 1
        && ComponentsOf(run.yielded[1..]) == t.accepted
        && run.error == t.error && cursor == t.cursor
      ensures Yields(s, run.yielded)
    {
      var start := Start(s);
      if start.Failure? {
        return Conformers([], Some(start.error));
      }
      YieldedPotentials(s, [start.value], 0);
      run := Spin(s, start.value, movable, pass);
    }

    /**
     * `get_final_conformer`: the last conformer of the run; an exception
     * raised during the run propagates.
     */
    method GetFinalConformer(s: SupraMolecule, movable: Option<seq<int>>, ghost pass: (seq<Component>, Energy, nat) -> Pass)
      returns (r: Result<SupraMolecule, StepError>)
      requires Valid() && RowsPerAtom(s) && Drawing(pass, movable)
      modifies this
      ensures !EndpointsResolve(s.components) ==> r == Failure(UnresolvedBond)
      ensures EndpointsResolve(s.components) ==>
        var t := Run(pass, numConformers, [], 0, s.components, SupraPotential(numerics.sqrt, potential, params, s), old(cursor), Passes(maxAttempts));
        && (r.Failure? <==> t.error.Some?)
        && (r.Failure? ==> r.error == t.error.value)
        && (r.Success? ==> r.value.cid == Some(|t.accepted|))
        && (r.Success? ==> r.value.components == if |t.accepted| == 0 then s.components else t.accepted[|t.accepted| - 1])
      ensures r.Success? ==> r.value.cid.Some? && Conformer(r.value, r.value.cid.value)
      ensures r.Success? ==> Rigid(s.components, r.value.components)
      ensures r.Success? && maxAttempts <= 1 ==> r.value.components == s.components && r.value.cid == Some(0)
    {
      var run := GetConformers(s, movable, pass);
      if run.error.Some? {
        return Failure(run.error.value);
      }
      ghost var t := Run(pass, numConformers, [], 0, s.components, SupraPotential(numerics.sqrt, potential, params, s), old(cursor), Passes(maxAttempts));
      LastOfTrail(s, run, t);
      r := Success(run.yielded[|run.yielded| - 1]);
    }

    /**
     * The last conformer of a run that ended without an exception, whose
     * moves accepted are those of the trail `t`: numbered after them, made
     * of the last of them (the starting components when there is none), and
     * a rigid move of each component of the start.
     */
    lemma LastOfTrail(s: SupraMolecule, run: Conformers, t: Trail)
      requires Yields(s, run.yielded) && |run.yielded| > 0 && run.yielded[0].components == s.components
      requires |run.yielded| == |t.accepted| + 1 && ComponentsOf(run.yielded[1..]) == t.accepted
      ensures var last := run.yielded[|run.yielded| - 1];
        && last.cid == Some(|t.accepted|) && Conformer(last, |t.accepted|)
        && last.components == (if |t.accepted| == 0 then s.components else t.accepted[|t.accepted| - 1])
        && Rigid(s.components, last.components)
    {
      var yielded := run.yielded;
      assert Conformer(yielded[|yielded| - 1], |yielded| - 1);
      assert RigidAt(s.components, yielded, |yielded| - 1);
      if |yielded| > 1 {
        ComponentsOfAt(yielded[1..], |yielded| - 2);
      }
    }
  }
}
