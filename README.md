# SpinDry in Dafny

SpinDry places guest molecules around a host by rigid-body Metropolis Monte
Carlo. It splits a supramolecule into disconnected components and repeatedly
picks one movable component. It translates the component by a random vector
of at most `step_size` and rotates it about its own centroid. It then
reassembles the structure, computes a pairwise nonbonded potential between
components, and keeps the move when the Metropolis test passes. Every kept
structure is yielded as a numbered conformer.

This project models that core and proves its properties:

- `wrappers.dfy` (`Wrappers`): `Option` and `Result`, the error paths of the
  source's exceptions.
- `floats.dfy` (`Floats`): energies as exact reals together with the IEEE
  special values (`inf`, `-inf`, `nan`). This makes potentials total: a zero
  distance in the Lennard-Jones term gives `nan`, and the legacy term gives
  `inf`. Comparisons behave as numpy's do (everything compared with `nan` is
  false).
- `geometry.dfy` (`Geometry`): 3-vectors, position rows, sums and means,
  3x3 matrices, and distances over a square-root parameter.
- `molecule.dfy` (`Molecules`): the `Molecule` of `spindry/molecule.py`. It
  covers the XYZ reader and writer, the position-matrix round trip,
  displacement, the centroid with its errors, and title-casing of element
  symbols.
- `pairs.dfy` (`Combinations`): `itertools.combinations(range(n), 2)`.
- `dicts.dfy` (`Dicts`): the insertion-ordered Python dictionaries that
  `init_from_components` uses to renumber ids.
- `connectivity.dfy` (`Connectivity`): the connected components of the bond
  graph. The split is characterised as a partition into bond-closed
  connected sets in the order of their first atom, and shown to be unique.
- `supramolecule.dfy` (`Supramolecules`): the `SupraMolecule` of
  `src/spindry/_internal/supramolecule.py`. It covers component definition,
  the two clone operations, and the id renumbering of `init_from_components`.
- `potential.dfy` (`Potentials`): `SpdPotential` and
  `VaryingEpsilonPotential`. It covers the Lennard-Jones-shaped term, the
  Lorentz-Berthelot mixing matrices, the strict zip and the sum over
  component pairs.
- `legacy_potential.dfy` (`LegacyPotentials`): the older `spindry/potential.py`,
  whose plain `zip` silently truncates.
- `utilities.dfy` (`Utilities`): atom distance, minimum cross-component
  distance, and centroid distance.
- `metropolis.dfy` (`Metropolis`): the parts shared by the engines. These
  are the acceptance test, the movable-component rule, the step scalars,
  and the translation and rotation of `src/spindry/spinner.py`.
- `spinner.dfy` (`Spinners`): the current engine,
  `src/spindry/_internal/spinner.py`. It is a class whose generator is a
  stream of draws with a cursor.
- `legacy_spinner.dfy` (`LegacySpinners`): the first engine,
  `spindry/spinner.py`. Its guest list is an array updated in place, fed by
  two generators (Python's `random` and numpy's global one).

External numerics are parameters: `sqrt`, `exp` and
`rotation_matrix_arbitrary_axis`. Only the laws the proofs use are
required of `sqrt` and `exp`: `IsSqrt` and `IsExp`. Each random generator is
a stream `nat -> real` of draws in (0, 1), read through a cursor that the
engine advances. `choice` over `n` candidates is one draw `u`, scaled to
`floor(u * n)`.

The legacy `_nonbond_potential` (`spindry/potential.py:72-76`) and
`_combine_sigma` (`spindry/potential.py:81-97`) compute the same values as
their current counterparts. They are modelled by `Potentials.Nonbond`
(`Potentials.NonbondZeroAtSigma`) and `Potentials.SigmaMatrix`, which the
legacy potential reuses through
`Potentials.SumPair`.

Details of the code that the model follows:

- A step reads its draws in this order: the choice, the translation scalar,
  the translation direction, the rotation scalar, the rotation axis, and
  the acceptance draw when the move is not downhill.
- The rotation axis is divided by the norm of the translation direction
  (`src/spindry/_internal/spinner.py:136`, `spindry/spinner.py:206`). That
  direction has been normalised just before, so the norm is 1 and the axis
  is the raw draw (`Spinners.Spinner.RotationDrawn`).
- Without given movable components, every component of the largest size is
  excluded, not just a single largest one.
- The legacy engine yields each accepted conformer with the potential from
  before the move, not the new one (`spindry/spinner.py:267-274`).
- The legacy translation subtracts the vector
  (`spindry/spinner.py:139-147`).
- The legacy engine never undoes a rejected move: the step changes the
  guest list in place, and the next step starts from it
  (`spindry/spinner.py:257-283`).

The two `get_conformers` loops are each specified by a reference run: a
function (`Spinners.Run`, `LegacySpinners.Trace`) that takes the outcome of
one pass as a function `pass` of the state and the generator cursors, and
unfolds the loop over the remaining passes. Each engine defines the pass
its code makes (`PassAt`, from the step `StepAt` and the test), and the
methods take `pass` as a ghost parameter with the precondition
`Drawing(pass, ...)` that `pass` is that one; `Drawn` supplies it. The
methods then state that what they yield, the cursors they leave and the
exception they raise are those of the reference run.

## Model

| member | source | states |
|---|---|---|
| Molecules.Init | spindry/molecule.py:70-85 | the molecule holds exactly the given atoms, in order, and the given rows |
| Molecules.GetNumAtoms | spindry/molecule.py:203-209 | the count is the number of atoms `get_atoms` yields |
| Molecules.WithPositionMatrix | spindry/molecule.py:139-157 | `get_position_matrix` of the clone is the matrix it was given (round trip) and the atoms are unchanged |
| Molecules.WithDisplacement | spindry/molecule.py:116-137 | the clone has as many rows, every row moved by the vector, and the same atoms |
| Molecules.Wrap | spindry/molecule.py:245-247 | an index in [-n, n) names a row below n, counting from the end when negative |
| Molecules.Gather | spindry/molecule.py:245-247 | one row is taken per selected id, repeats included |
| Molecules.GetCentroid | spindry/molecule.py:235-248 | `ValueError` exactly when the selection is empty (`None` is every atom, an `int` one atom); a result exactly when it is non-empty and every id indexes a row |
| Molecules.WithCentroid | spindry/molecule.py:101-114 | succeeds exactly when the centroid of all atoms exists |
| Molecules.CentroidOfDisplacement | spindry/molecule.py:116-137 | displacing by v moves the centroid of every selection by v and keeps every error |
| Molecules.WithCentroidPlacesCentroid | spindry/molecule.py:101-114 | the centroid of `with_centroid(p)` is p |
| Molecules.CentroidOfSingle | spindry/molecule.py:237-238 | a single id gives that atom's row as the centroid |
| Molecules.FixtureCentroid | tests/molecule/test_molecule.py:68-80 | the centroid of the six-atom fixture is (0, 5.5, 0) |
| Molecules.TitleFrom | spindry/molecule.py:48-49 | title-casing keeps the length and which characters are letters |
| Molecules.TitleCaseIsTitled | spindry/molecule.py:48-49 | every title-cased symbol is upper-case exactly at the start of each word |
| Molecules.TitleFromOfTitled | spindry/molecule.py:48-49 | title-casing leaves already title-cased text unchanged |
| Molecules.TitleCaseIdempotent | spindry/molecule.py:48-49 | title-casing twice is title-casing once |
| Molecules.TitleCaseExamples | spindry/molecule.py:48-49 | `CL` and `cl` become `Cl`, `n` becomes `N` |
| Molecules.XyzMolecule | spindry/molecule.py:46-60 | reading succeeds exactly when there are atom lines and their number equals the header count; the molecule then has one atom and one row per line |
| Molecules.ReadXyz | spindry/molecule.py:39-68 | the line loop yields the molecule `XyzMolecule` describes: ids 0..k-1 in line order, title-cased symbols, the count check |
| Molecules.ReadCountMatchesHeader | spindry/molecule.py:53-60 | a molecule that was read has as many atoms as the header declares |
| Molecules.XyzContent | spindry/molecule.py:159-174 | content exists exactly when there are atoms and each atom's id indexes a row; it is the count header followed by one line per atom |
| Molecules.WriteXyzContent | spindry/molecule.py:159-174 | the atom loop with the header patched in afterwards yields `XyzContent` |
| Molecules.XyzRoundTrip | spindry/molecule.py:159-174 | reading back what was written for a molecule with ids 0..n-1 and title-cased symbols gives that molecule |
| Dicts.LastIndex | src/spindry/_internal/supramolecule.py:126-131 | the index of the last occurrence of an id, or -1 exactly when the id is absent |
| Dicts.Get | src/spindry/_internal/supramolecule.py:134 | reading a present key gives the value stored beside it |
| Dicts.Assign | src/spindry/_internal/supramolecule.py:126-131 | assigning keeps one value per key and adds the key only when it was absent |
| Dicts.GetAssign | src/spindry/_internal/supramolecule.py:126-134 | reading back after an assignment gives the new value at that key and the old value elsewhere |
| Dicts.MaxValue | src/spindry/_internal/supramolecule.py:129-131 | `max(list(d.values()))` is one of the values and at least every value |
| Dicts.IndexDictAssign | src/spindry/_internal/supramolecule.py:126-131 | assigning the next index to an id keeps the dictionary the index dictionary of the ids seen so far |
| Dicts.IndexDictMax | src/spindry/_internal/supramolecule.py:129-131 | in an index dictionary the largest value is the last index handed out |
| Dicts.IndexDictEmpty | src/spindry/_internal/supramolecule.py:126 | the dictionary is empty exactly when no id has been seen |
| Dicts.NextId | src/spindry/_internal/supramolecule.py:126-131 | the next id handed out (0 when empty, else the largest value plus one) is the number of ids seen, so ids are contiguous |
| Dicts.IndexDictGet | src/spindry/_internal/supramolecule.py:134 | an id is a key exactly when it was seen, and maps to its last occurrence |
| Connectivity.AtomIds | src/spindry/_internal/supramolecule.py:170-172 | the graph's nodes are exactly the atom ids |
| Connectivity.FirstOutside | src/spindry/_internal/supramolecule.py:181 | the first atom, in atom order, not in any component found so far |
| Connectivity.ClosedHoldsStart | src/spindry/_internal/supramolecule.py:174-181 | a set no bond crosses that holds the end of a walk holds its start |
| Connectivity.ClosedHoldsEnd | src/spindry/_internal/supramolecule.py:174-181 | a set no bond crosses that holds the start of a walk holds its end |
| Connectivity.Component | src/spindry/_internal/supramolecule.py:181 | the component grown from `x` holds `x`, is closed under bonds and is reachable from `x` |
| Connectivity.Split | src/spindry/_internal/supramolecule.py:170-181 | the components are a partition of the atom ids into bond-closed connected sets, in the order of their first atom |
| Connectivity.AtomInOneComponent | src/spindry/_internal/supramolecule.py:181-183 | every atom lies in exactly one component |
| Connectivity.BondInOneComponent | src/spindry/_internal/supramolecule.py:181-188 | every bond has both ends in one component and in no other |
| Connectivity.SameComponent | src/spindry/_internal/supramolecule.py:181 | two closed sets reachable from the same atom are equal |
| Connectivity.RootBeforeEnd | src/spindry/_internal/supramolecule.py:181 | each component is rooted at an atom the earlier ones miss |
| Connectivity.SplitUnique | src/spindry/_internal/supramolecule.py:181 | the split of a structure into components is unique |
| Supramolecules.ComponentRows | src/spindry/_internal/supramolecule.py:206-208 | one row list per component, in component order |
| Supramolecules.AtomsIn | src/spindry/_internal/supramolecule.py:183 | the atoms whose id is in the component, and no others |
| Supramolecules.BondsIn | src/spindry/_internal/supramolecule.py:184-188 | the bonds with both ends in the component, and no others |
| Supramolecules.SortedBelow | src/spindry/_internal/supramolecule.py:182 | `sorted(c)`: the component's ids in strictly increasing order |
| Supramolecules.DefineComponents | src/spindry/_internal/supramolecule.py:166-192 | the components are built, one per part, from the unique split of the bond graph |
| Supramolecules.New | src/spindry/_internal/supramolecule.py:45-54 | the constructor stores atoms, bonds, rows, `cid` and potential, and defines the components from them |
| Supramolecules.WithPositionMatrix | src/spindry/_internal/supramolecule.py:56-79 | the clone has the new rows and keeps atoms, bonds, `cid`, potential and the old components |
| Supramolecules.WithDisplacement | src/spindry/_internal/supramolecule.py:81-96 | every row moves by the displacement, the other fields are kept, and the redefined components are the old ones displaced |
| Supramolecules.DisplacedComponents | src/spindry/_internal/supramolecule.py:89-96 | building components from displaced rows displaces each component |
| Supramolecules.BondKeptOnce | src/spindry/_internal/supramolecule.py:184-190 | each bond of the structure lands in exactly one component |
| Supramolecules.AtomKeptOnce | src/spindry/_internal/supramolecule.py:183-190 | each atom of the structure lands in exactly one component |
| Supramolecules.SortedAtomsMatchRows | src/spindry/_internal/supramolecule.py:182-189 | with atoms listed by increasing id, a component's k-th atom and k-th row belong to the same atom |
| Supramolecules.SortedUnique | src/spindry/_internal/supramolecule.py:182 | two strictly increasing sequences with the same elements are equal, so `sorted(c)` is determined by `c` |
| Supramolecules.IdsOf | src/spindry/_internal/supramolecule.py:125-127 | the ids of the atoms, in order |
| Supramolecules.RenumberAtoms | src/spindry/_internal/supramolecule.py:125-137 | each atom gets the next id and the dictionary maps its old id to that id |
| Supramolecules.RenumberBonds | src/spindry/_internal/supramolecule.py:138-153 | each bond gets the next id and its ends are looked up; the loop fails exactly when a lookup would raise `KeyError` |
| Supramolecules.InitFromComponents | src/spindry/_internal/supramolecule.py:98-164 | `KeyError` exactly when some bond end is carried by no atom processed so far; otherwise the atoms renumbered 0.., the bonds renumbered with ends mapped to the last atom that carried each id, the rows concatenated, components, `cid` and potential stored |
| Supramolecules.BondsFail | src/spindry/_internal/supramolecule.py:148-151 | one bond end not yet seen makes the whole assembly fail |
| Supramolecules.OwnComponentRemap | src/spindry/_internal/supramolecule.py:148-151 | a bond end carried by an atom of its own component is renumbered to that atom, even when earlier components reused the id |
| Supramolecules.RowsMatchAtoms | src/spindry/_internal/supramolecule.py:154-155 | the assembled rows are as many as the assembled atoms |
| Supramolecules.AssembledIdsContiguous | src/spindry/_internal/supramolecule.py:126-147 | the assembled atom ids are 0, 1, ..., n-1 and bond j has id j |
| Supramolecules.AssembledEndpointsKnown | src/spindry/_internal/supramolecule.py:145-163 | when every end resolves, the assembled structure is well formed |
| Combinations.Pairs | src/spindry/potential.py:63-65 | every pair listed by `combinations(range(n), 2)` has a smaller first index, both below n |
| Combinations.PairsExactlyOnce | src/spindry/potential.py:63-65 | every unordered pair i < j of components is listed exactly once, and no component is paired with itself |
| Combinations.PairsFromIncreasing | src/spindry/potential.py:63-65 | the pairs come in lexicographic order, so none repeats |
| Combinations.PairsCount | src/spindry/potential.py:63-65 | there are n(n-1)/2 pairs |
| Combinations.PairCountsEqual | src/spindry/potential.py:63-67 | two pair listings have the same length exactly when the counts are equal or both below two, which is when the strict zip succeeds |
| Potentials.ShapeIsPowerDifference | src/spindry/potential.py:41-43 | the closed form of `q ** 12 - q ** 6` agrees with the float powers, NaN for an infinite quotient |
| Potentials.NonbondOfFinite | src/spindry/potential.py:41-43 | at a nonzero distance the term is the real `epsilon * ((s/d)^12 - (s/d)^6)` |
| Potentials.NonbondZeroAtSigma | src/spindry/potential.py:41-43 | the term is exactly 0 at d == sigma |
| Potentials.NonbondSign | src/spindry/potential.py:41-43 | for positive epsilon and sigma the term is positive inside sigma, negative beyond it, and zero exactly at sigma |
| Potentials.NonbondAtContact | src/spindry/potential.py:41-43 | two atoms at distance zero give NaN |
| Potentials.SigmaMatrix | src/spindry/potential.py:45-55 | the mixed radii form a `len(r1)` by `len(r2)` matrix |
| Potentials.SigmaSymmetric | src/spindry/potential.py:45-55 | entry [i][j] is `(r1[i] + r2[j]) / 2`, and swapping the radius lists transposes the matrix |
| Potentials.SigmaTransposed | src/spindry/potential.py:45-55 | the mixed radii of the swapped pair are the transpose of those of the pair |
| Potentials.EpsilonTransposed | src/spindry/potential.py:124-134 | the mixed epsilons of the swapped pair are the transpose of those of the pair |
| Potentials.UniformTransposed | src/spindry/potential.py:68-75 | the broadcast scalar epsilon is its own transpose |
| Potentials.NoColumns | src/spindry/potential.py:68-75 | the sum over a pair one of whose components has no rows is 0 |
| Potentials.PeelColumn | src/spindry/potential.py:68-75 | the row-major sum of a block equals the sum without its last column plus that column |
| Potentials.BlockSymmetric | src/spindry/potential.py:68-75 | the energy of a block of pair terms equals that of its transpose, the two components' roles swapped |
| Potentials.PairSymmetric | src/spindry/potential.py:149-161 | the pair (A, B) contributes exactly what the pair (B, A) does |
| Potentials.MixBetween | spindry/potential.py:78-83 | the mean of a radius with itself is that radius; the mean of two radii lies between them |
| Potentials.CombineSigma | src/spindry/potential.py:45-55 | the nested loops fill a fresh `len1` by `len2` array with `SigmaMatrix` |
| Potentials.EpsilonMatrix | src/spindry/potential.py:124-134 | the mixed epsilons have the same shape as the mixed radii |
| Potentials.EpsilonMixing | src/spindry/potential.py:124-134 | `sqrt(e1 * e2)` is symmetric, returns a non-negative epsilon mixed with itself, and is NaN exactly when the signs are strictly opposite |
| Potentials.CombineEpsilon | src/spindry/potential.py:124-134 | the nested loops fill a fresh array with `EpsilonMatrix` |
| Potentials.ZipFailsIff | src/spindry/potential.py:63-67 | the strict zip fails exactly when the counts of matrices and radius lists (and epsilon lists) differ and are not both below two |
| Potentials.PairsShaped | src/spindry/potential.py:63-69 | when the sizes match and the zip succeeds, every zipped pair has radii of the sizes of its matrices |
| Potentials.ZipStep | src/spindry/potential.py:62-75 | the running total after k + 1 pairs is the total after k plus the energy of pair k |
| Potentials.SumPair | src/spindry/potential.py:68-75 | one pair's block sums the term over every atom of one component against every atom of the other, with mixed sigmas (and epsilons) |
| Potentials.ComputeNonbondedPotential | src/spindry/potential.py:57-77 | fails exactly when the strict zip fails; otherwise the loop accumulates, from 0, the total over every unordered pair of components in `combinations` order; fewer than two components give 0 |
| Potentials.TwoComponentsTotal | src/spindry/potential.py:57-77 | with two components the total is the energy of the one pair |
| Potentials.AtomValues | src/spindry/potential.py:84-87 | one value per atom of each component, one list per component |
| Potentials.ComponentListsZip | src/spindry/potential.py:79-91 | lists built from the components always have matching sizes and always zip |
| Potentials.ComputePotential | src/spindry/potential.py:79-91 | `compute_potential` of either class is the total over the component pairs, with radii from `get_radius` (`SpdPotential`) or `get_sigma` and `get_epsilon` (`VaryingEpsilonPotential`); it is 0 for fewer than two components |
| Potentials.TwoComponentPotential | src/spindry/potential.py:164-181 | with two components the potential is the block between them, with parameters taken in `get_atoms` order |
| Potentials.NewRowsKeepPotential | src/spindry/_internal/supramolecule.py:56-79 | new rows alone do not change the potential, since the components are kept |
| Potentials.PotentialReadsComponents | src/spindry/potential.py:79-91 | structures with the same components have the same potential |
| LegacyPotentials.BaseComputePotential | spindry/potential.py:29-39 | the base class raises `NotImplementedError` for every supramolecule |
| LegacyPotentials.ZipLength | spindry/potential.py:101-104 | the plain `zip` takes as many pairs as the shorter of the two pair listings |
| LegacyPotentials.ZippedPms | spindry/potential.py:101-104 | the matrix pairs taken are the first `ZipLength` of `combinations` |
| LegacyPotentials.ZippedRadii | spindry/potential.py:101-104 | the radius pairs taken are the first `ZipLength` of `combinations` |
| LegacyPotentials.LegacyComputeNonbondedPotential | spindry/potential.py:99-114 | the loop accumulates, from 0, the energies of the zipped pairs in order |
| LegacyPotentials.LegacyAgreesWhenCountsMatch | spindry/potential.py:99-114 | with one radius list per matrix every pair is taken once, and the legacy total equals the current `SpdPotential` total |
| LegacyPotentials.LegacyZipMisaligns | spindry/potential.py:101-104 | with three matrices and four radius lists, the matrix pair (1, 2) is zipped with the radii of (0, 3) |
| LegacyPotentials.LegacyComputePotential | spindry/potential.py:116-128 | `compute_potential` takes `get_radius` per atom in `get_atoms` order for each component, and equals the current `SpdPotential` potential |
| Metropolis.DrawVecNonZero | src/spindry/_internal/spinner.py:121-122 | three draws in (0, 1) never form the zero vector, so the direction can be normalised |
| Metropolis.UphillAcceptance | src/spindry/spinner.py:113-120 | an uphill move between finite potentials is not downhill, its factor is `exp(-beta * (new - curr))`, strictly between 0 and 1, and it is accepted exactly by the draws below that factor |
| Metropolis.LevelAccepted | src/spindry/spinner.py:113-120 | a move to an equal finite potential is not downhill and is accepted by every draw below 1 |
| Metropolis.NaNRejected | src/spindry/spinner.py:113-120 | a move to NaN is rejected, and from a NaN potential every move is rejected |
| Metropolis.InfinityRejected | src/spindry/spinner.py:117-120 | a move up to infinity has factor 0 for a positive beta, and no draw accepts it |
| Metropolis.SmallerDrawAccepts | src/spindry/spinner.py:113-120 | acceptance is monotone in the draw: a move accepted by one draw is accepted by every smaller one |
| Metropolis.Sizes | src/spindry/spinner.py:127-130 | one size per component, its atom count |
| Metropolis.MaxOf | src/spindry/spinner.py:131 | `max(component_sizes.values())` is one of the sizes and at least every size |
| Metropolis.Below | src/spindry/spinner.py:146-148 | `tuple(range(n))` is 0, 1, ..., n-1 |
| Metropolis.NotOfSize | src/spindry/spinner.py:139-143 | ascending indices whose size is not the maximum |
| Metropolis.NotOfSizeComplete | src/spindry/spinner.py:139-143 | every index whose size differs from the maximum is listed |
| Metropolis.DefaultMovableRule | src/spindry/spinner.py:136-148 | when sizes differ exactly the components not of the largest size are movable; when all are equal every component is; at least one always is |
| Metropolis.Candidates | src/spindry/spinner.py:150-152 | the candidates are in-range indices that appear in `movable_components`, ascending |
| Metropolis.CandidatesComplete | src/spindry/spinner.py:150-152 | every in-range index named by `movable_components` is a candidate; out-of-range entries are ignored |
| Metropolis.DefaultHasCandidate | src/spindry/_internal/spinner.py:97-113 | without given movable components there is always a candidate to choose |
| Metropolis.Choose | src/spindry/_internal/spinner.py:111-113 | `choice` returns one of the candidates |
| Metropolis.StepScalar | src/spindry/_internal/spinner.py:117-118 | `(u - 0.5) * 2` lies in [-1, 1) for `u` in [0, 1), negative exactly when `u < 0.5` |
| Metropolis.TranslationWithinStep | src/spindry/_internal/spinner.py:117-125 | the translation vector is at most `step_size` long |
| Metropolis.RotateRows | src/spindry/spinner.py:100-109 | one rotated row per row |
| Metropolis.RotateIdentity | src/spindry/spinner.py:100-109 | rotating by the identity about any origin leaves every row in place |
| Metropolis.RotationKeepsCentroid | src/spindry/_internal/spinner.py:139-144 | rotating rows about their own centroid keeps the centroid |
| Metropolis.Translate | src/spindry/spinner.py:86-91 | translation is exactly `with_displacement`: every row shifted, other fields kept, components redefined |
| Metropolis.RotateAtoms | src/spindry/spinner.py:93-111 | only the rows change: each is moved to the origin, rotated, and moved back |
| Metropolis.RotateAtomsIdentity | src/spindry/spinner.py:100-111 | an identity rotation matrix gives the same supramolecule back |
| Spinners.MoveComponent | src/spindry/_internal/spinner.py:124-144 | a move keeps the component's atoms, bonds and number of rows |
| Spinners.MovedCentroid | src/spindry/_internal/spinner.py:124-144 | the moved component's centroid moves by the translation alone |
| Spinners.MoveWithinBound | src/spindry/_internal/spinner.py:124-144 | a translation within the bound moves the centroid within the bound |
| Spinners.RigidThenMoved | src/spindry/_internal/spinner.py:146-149 | a rigid run followed by a single move is rigid |
| Spinners.MovesExtend | src/spindry/_internal/spinner.py:198-210 | one more single move keeps the yielded run a run of single rigid moves |
| Spinners.Spinner.constructor | src/spindry/_internal/spinner.py:25-77 | the settings are stored, a missing potential function is `SpdPotential(5)`, and the generator starts at its first draw |
| Spinners.Spinner.ComputePotential | src/spindry/_internal/spinner.py:79-81 | the configured potential of the structure; 0 with fewer than two components |
| Spinners.Spinner.Random | src/spindry/_internal/spinner.py:118 | `generator.random()` reads the next draw |
| Spinners.Spinner.Random3 | src/spindry/_internal/spinner.py:121 | `generator.random(3)` reads the next three draws |
| Spinners.Spinner.TargetAt | src/spindry/_internal/spinner.py:97-115 | the picked component is an existing, movable one |
| Spinners.Spinner.TranslationDrawn | src/spindry/_internal/spinner.py:117-125 | the translation is built from the scalar and direction at their places in the stream |
| Spinners.Spinner.RotationDrawn | src/spindry/_internal/spinner.py:131-136 | the rotation built from the scalar and the axis at their places in the stream, the axis divided by the norm of the normalised direction, is the rotation about the drawn axis as it is |
| Spinners.Spinner.RotationAboutDrawnAxis | src/spindry/_internal/spinner.py:136 | dividing the axis by the norm of a normalised vector leaves it unchanged |
| Spinners.Spinner.Proposed | src/spindry/_internal/spinner.py:146 | the proposed component list differs from the old only at the target, which is moved rigidly |
| Spinners.Spinner.ProposalWithinStep | src/spindry/_internal/spinner.py:117-144 | the moved component's centroid moves at most `step_size` |
| Spinners.Spinner.TranslationAtWithinStep | src/spindry/_internal/spinner.py:117-125 | every drawn translation is at most `step_size` long |
| Spinners.Spinner.LargestStaysPut | src/spindry/_internal/spinner.py:97-113 | without given movable components and with sizes that differ, a move exists, its target is not of the largest size and every largest component is left unchanged |
| Spinners.Spinner.RunStep | src/spindry/_internal/spinner.py:83-152 | no components or no candidates raise before any draw; otherwise nine draws are read, the target alone is moved, the structure is reassembled (failing exactly when a bond end is unresolved) and its potential computed |
| Spinners.Spinner.DrawMove | src/spindry/_internal/spinner.py:111-136 | the draws of a step in their order: target, translation scalar and direction, rotation scalar and axis |
| Spinners.Spinner.DrawTranslation | src/spindry/_internal/spinner.py:117-125 | the translation scalar and direction read four draws and give the step's translation |
| Spinners.Spinner.DrawRotation | src/spindry/_internal/spinner.py:131-136 | the rotation scalar and axis read four draws and give the step's rotation |
| Spinners.Spinner.Assemble | src/spindry/_internal/spinner.py:146-152 | `init_from_components` fails exactly when a bond end is unknown; otherwise the assembled structure with its potential |
| Spinners.Spinner.PassesTest | src/spindry/_internal/spinner.py:192-197 | a downhill move passes without a draw; otherwise one draw decides by the Metropolis rule |
| Spinners.Spinner.Keep | src/spindry/_internal/spinner.py:198-209 | an accepted structure is reassembled with the next `cid` and the new potential and keeps its rows |
| Spinners.Spinner.YieldsExtend | src/spindry/_internal/spinner.py:198-210 | a conformer numbered next, one move from the last, extends the run |
| Spinners.Spinner.YieldedPotentials | src/spindry/_internal/spinner.py:177-210 | every yielded conformer carries its own potential, the first the starting one |
| Spinners.Spinner.Start | src/spindry/_internal/spinner.py:177-184 | the first conformer is the starting components with `cid` 0 and the starting potential, yielded unconditionally unless assembly fails |
| Spinners.Spinner.Attempt | src/spindry/_internal/spinner.py:187-210 | one pass is the pass `PassAt` makes at the current cursor: the same cursor afterwards, the same exception, and, exactly when it passes, a conformer with its components and potential; that conformer is one rigid move from the current one and extends the run |
| Spinners.Spinner.StepAt | src/spindry/_internal/spinner.py:83-152 | a step that raises nothing leaves the components with exactly one of them moved rigidly, one row per atom and every bond end resolvable |
| Spinners.Spinner.PassAt | src/spindry/_internal/spinner.py:187-197 | a pass that raises nothing leaves one row per atom |
| Spinners.Spinner.Drawn | src/spindry/_internal/spinner.py:187-197 | the passes of the code, `PassAt`, satisfy `Drawing` |
| Spinners.Spinner.PassIs | src/spindry/_internal/spinner.py:187-197 | a pass satisfying `Drawing` is the step's exception with the cursor after it, or the moved components, their potential, the Metropolis test at the next draw and the cursor after that draw when the move is not downhill |
| Spinners.Spinner.Trial | src/spindry/_internal/spinner.py:188-197 | the step and the test at the current cursor give the outcome of `StepAt`, the potential of the moved components, the test at the draw after the step, and the cursor `PassAt` leaves |
| Spinners.Spinner.Turn | src/spindry/_internal/spinner.py:187-213 | within a run equal to the reference run `Run`, one pass either ends it (by an exception or by reaching `num_conformers`) with the conformers so far, or leaves the rest of the run equal to `Run` from the new state |
| Spinners.Spinner.Spin | src/spindry/_internal/spinner.py:185-213 | the loop yields the first conformer and then one conformer per move the reference run `Run` accepts, with their components in order, and ends with its cursor and its exception |
| Spinners.Spinner.FirstYields | src/spindry/_internal/spinner.py:177-184 | the starting components assembled with `cid` 0 and their potential form a run of one conformer |
| Spinners.Spinner.LastOfTrail | src/spindry/_internal/spinner.py:236-247 | the last conformer of a run that ended without an exception is numbered after the accepted moves, has the components of the last of them (the start when there is none), and is a rigid move of the start |
| Spinners.RunEnds | src/spindry/_internal/spinner.py:187-213 | the reference run keeps the moves accepted before it, accepts at most one per pass, stops early only by an exception or on reaching `num_conformers`, runs every pass otherwise, and never accepts more than `num_conformers` |
| Spinners.ComponentsOfAt | src/spindry/_internal/spinner.py:199-210 | the accepted components of a run are those of its conformers after the first, in order |
| Spinners.Spinner.GetConformers | src/spindry/_internal/spinner.py:154-213 | nothing is yielded exactly when the starting assembly fails, with that error and no draw; otherwise conformer 0 has the starting components, the later conformers are the moves the reference run `Run` accepts from the starting potential in `max_attempts - 1` passes, and the cursor and exception are the run's; every conformer is numbered, carries its own potential and is one rigid move from the one before |
| Spinners.Spinner.GetFinalConformer | src/spindry/_internal/spinner.py:220-247 | an exception of the run propagates, and exactly then; otherwise the result is the last conformer yielded: numbered by the count of accepted moves, made of the last accepted components (the start when none), and a rigid move of the start |
| Utilities.GetAtomDistance | src/spindry/_internal/utilities.py:11-19 | the distance is defined exactly when both row indices are valid numpy indices (negative ones counted from the end), otherwise `IndexError` |
| Utilities.AtomDistanceSymmetric | src/spindry/_internal/utilities.py:11-19 | swapping the two atoms gives the same result; a distance is non-negative and zero exactly when the two rows coincide |
| Utilities.AtomDistanceIs | src/spindry/_internal/utilities.py:11-19 | two rows whose squared distance is `d * d`, with `d >= 0`, are `d` apart |
| Utilities.AtomDistanceExampleY | tests/test_utilities.py:5-14 | on the test's matrix the distance between atoms 0 and 1 is 1 |
| Utilities.AtomDistanceExampleX | tests/test_utilities.py:5-14 | on the test's matrix the distance between atoms 0 and 2 is 2 |
| Utilities.MinRowDistance | src/spindry/_internal/utilities.py:30-31 | one row of `cdist`: the result is at most the running minimum and every distance from the row to `q`, and is one of them |
| Utilities.MinCrossDistance | src/spindry/_internal/utilities.py:30-31 | `min(cdist(p, q).flatten())` is below every cross distance and is attained by some pair of rows |
| Utilities.AllPairsScanned | src/spindry/_internal/utilities.py:29-33 | scanning every listed pair of components bounds every pair `i < j` and means every component has rows |
| Utilities.CalculateMinAtomDistance | src/spindry/_internal/utilities.py:22-33 | fails exactly when two or more components exist and one has no atoms; otherwise the result is at most `1e24`, below every distance between atoms of different components, and either `1e24` or attained by such a pair |
| Utilities.CalculateCentroidDistance | src/spindry/_internal/utilities.py:36-45 | `ValueError` exactly when there are not two components or, from `get_centroid`, one of the two has no atoms; otherwise the distance between the two components' centroids |
| Utilities.CentroidDistanceZeroIff | src/spindry/_internal/utilities.py:43-45 | with two components that have atoms, the centroid distance is non-negative and zero exactly when the two centroids coincide |
| LegacySpinners.TermOfPositive | spindry/spinner.py:102-114 | at a positive distance the term is `epsilon * (sigma / d) ** mu` |
| LegacySpinners.TermFixtures | tests/conftest.py:62-69 | with the defaults (20, 1.2, 3) the term is 34.56 at distance 1, 4.32 at 2 and 1.28 at 3 |
| LegacySpinners.TermRepulsive | spindry/spinner.py:102-114 | for positive parameters the term is positive and strictly smaller at a larger distance |
| LegacySpinners.TermAtContact | spindry/spinner.py:110-114 | coincident atoms give an infinite term |
| LegacySpinners.RealPowIncreasing | spindry/spinner.py:112 | a positive power is strictly increasing on positive bases |
| LegacySpinners.Matrices | spindry/spinner.py:127-134 | the host's matrix first, then each guest's, in order |
| LegacySpinners.PotentialOfNoGuests | spindry/spinner.py:116-137 | a host without guests has no pairs and potential 0 |
| LegacySpinners.PotentialOfOneGuest | spindry/spinner.py:116-137 | with one guest the potential is the sum over all host-guest atom pairs |
| LegacySpinners.PotentialNonNegative | spindry/spinner.py:116-137 | with non-negative parameters and no coinciding atoms of different molecules the potential is finite and non-negative |
| LegacySpinners.PairsSumNonNegative | spindry/spinner.py:118-123 | the sum over listed pairs of matrices stays finite and non-negative |
| LegacySpinners.CrossSumNonNegative | spindry/spinner.py:120-123 | the sum over one pair of matrices is finite and non-negative |
| LegacySpinners.Translated | spindry/spinner.py:139-147 | each row named by an atom id is replaced by itself minus the vector; an id outside the matrix raises `IndexError`; atoms and row count are kept |
| LegacySpinners.TranslationSubtracts | spindry/spinner.py:139-147 | when ids are the row numbers the translation is `with_displacement` by minus the vector |
| LegacySpinners.TouchedStep | spindry/spinner.py:142-144 | after one more atom the rewritten rows are the earlier ones plus that atom's row |
| LegacySpinners.TranslateAtoms | spindry/spinner.py:139-147 | the loop over the atoms computes `Translated` |
| LegacySpinners.RotateGuest | spindry/spinner.py:149-162 | rotation keeps the atoms and the number of rows |
| LegacySpinners.RotationAboutCentroid | spindry/spinner.py:209-214 | rotating a guest about its own centroid keeps the centroid |
| LegacySpinners.Origin | spindry/spinner.py:213 | the centroid of all atoms; `ValueError` exactly for a guest without atoms |
| LegacySpinners.MovedGuest | spindry/spinner.py:196-214 | a moved guest keeps its atoms and row count |
| LegacySpinners.ChainedExtend | spindry/spinner.py:265-274 | an accepted move appends a conformer carrying the potential held before the move |
| LegacySpinners.ChainedCarries | spindry/spinner.py:265-274 | every conformer after the first carries the potential of the previous conformer's guests |
| LegacySpinners.Spinner.constructor | spindry/spinner.py:32-100 | the settings are stored and both generators start at their first draw |
| LegacySpinners.Spinner.PyRandom | spindry/spinner.py:188 | `random.random()` reads the next Python draw only |
| LegacySpinners.Spinner.NpRand3 | spindry/spinner.py:191 | `np.random.rand(3)` reads the next three numpy draws only |
| LegacySpinners.Spinner.ComputeNonbondedPotential | spindry/spinner.py:116-125 | the loop adds, from 0, the pair sum of every unordered pair of matrices in `combinations` order |
| LegacySpinners.Spinner.ComputePotential | spindry/spinner.py:127-137 | the potential of the host's matrix followed by the guests' matrices |
| LegacySpinners.Spinner.TargetAt | spindry/spinner.py:184 | `random.choice(range(len(guests)))` picks an existing guest |
| LegacySpinners.Spinner.RunStep | spindry/spinner.py:181-219 | no guests raise `IndexError` before any draw; otherwise only the picked guest is replaced in the caller's list, in place, by its moved copy, and the potential of the host with the new list is returned; on an error the list is unchanged |
| LegacySpinners.Spinner.MoveGuest | spindry/spinner.py:187-214 | the guest translated then rotated, with the draws each part reads from each generator |
| LegacySpinners.Spinner.DrawTranslation | spindry/spinner.py:187-195 | one Python and three numpy draws give the translation vector |
| LegacySpinners.Spinner.DrawRotation | spindry/spinner.py:201-206 | one Python and three numpy draws give the rotation, the axis divided by the norm of the normalised translation direction |
| LegacySpinners.Spinner.RotationAboutDrawnAxis | spindry/spinner.py:191-206 | that divisor is 1: the rotation is about the drawn axis as it is |
| LegacySpinners.Spinner.PassesTest | spindry/spinner.py:164-175 | the result is the Metropolis test of the two potentials at the next Python draw; a strictly lower potential passes without reading it, otherwise exactly one Python draw is read, and the numpy cursor is untouched |
| LegacySpinners.Spinner.GetConformers | spindry/spinner.py:221-290 | the conformers, both cursors and the exception are those of the reference run `Trace` from the starting list and its potential over `max_attempts - 1` passes, except that `max_attempts <= 1` raises `UnboundLocalError` after the first yield; the first conformer is the start with `cid` 0, conformer k has `cid` k, the host and rigid copies of the guests, and carries the potential of the guests before it; no guests raise `IndexError`; at most `max_attempts` conformers, and at most `num_conformers` when it is at least 2 |
| LegacySpinners.Spinner.Spin | spindry/spinner.py:255-290 | the loop yields what the reference run `Trace` yields after the first conformer, leaves its cursors, ends with its exception (or `UnboundLocalError` when the loop never ran), and keeps the caller's list rigid |
| LegacySpinners.Spinner.Attempt | spindry/spinner.py:257-283 | one pass is the pass `PassAt` makes at the current cursors: the cursors and the list it leaves in place, its exception and its test result; an accepted move appends the moved list with the next `cid` and the previous potential, and hands on a fresh list with the same guests; a rejected move keeps the moved list |
| LegacySpinners.Spinner.StepAt | spindry/spinner.py:181-214 | a step never raises `UnboundLocalError` |
| LegacySpinners.Spinner.Drawn | spindry/spinner.py:257-283 | the passes of the code, `PassAt`, satisfy `Drawing` |
| LegacySpinners.Spinner.PassIs | spindry/spinner.py:257-265 | a pass satisfying `Drawing` is the step's exception with the cursors after it, or the moved list, its potential, the Metropolis test at the next Python draw and the cursors after that draw when the move is not downhill |
| LegacySpinners.Spinner.NoGuestRaises | spindry/spinner.py:184 | with no guests a pass raises `IndexError` and reads no draw |
| LegacySpinners.Spinner.DrawnNeverUnbound | spindry/spinner.py:181-219 | no pass of the code raises `UnboundLocalError` |
| LegacySpinners.Spinner.PassKeeps | spindry/spinner.py:181-219 | a pass from a list rigid with the start that raises nothing leaves a rigid list and its potential |
| LegacySpinners.Spinner.DrawnKeeps | spindry/spinner.py:181-219 | every pass of the code keeps lists rigid with the start and hands on their potential |
| LegacySpinners.TraceEnds | spindry/spinner.py:256-286 | the reference run keeps the conformers yielded before it, yields at most one per pass numbered by its position with the host, stops early only by an exception or on reaching `num_conformers`, runs every pass otherwise, and never yields more than `num_conformers` |
| LegacySpinners.TraceNeverUnbound | spindry/spinner.py:256-286 | a run whose passes never raise `UnboundLocalError` does not end with it |
| LegacySpinners.KeptOnPass | spindry/spinner.py:265-283 | a pass that keeps lists rigid keeps the conformers numbered and each carrying the potential of the guests before it |
| LegacySpinners.TraceKeeps | spindry/spinner.py:256-286 | every conformer of the reference run has its position as `cid`, the host and rigid copies of the starting guests, and carries the potential of the guests of the conformer before it |
| LegacySpinners.RigidAfterMove | spindry/spinner.py:216 | replacing one guest of a rigid list by a moved copy keeps the list rigid |
| LegacySpinners.Spinner.Turn | spindry/spinner.py:256-286 | within a run equal to the reference run `Trace`, one pass either ends it (by an exception or by reaching `num_conformers`) with the conformers so far, or leaves the rest of the run equal to `Trace` from the new list, potential and cursors; the lists stay rigid |
| LegacySpinners.Spinner.Advance | spindry/spinner.py:257-260 | the step is `StepAt` at the current cursors written into the list in place, the cursors move as `StepCursors` says, a failed step leaves the list, and the result is the potential of the list left; the list stays rigid |
| LegacySpinners.Spinner.GetConformersOfGuest | spindry/spinner.py:240-241 | a single guest runs as the one-element list: the run is `Trace` from `[guest]`, and every later conformer has one guest |
| LegacySpinners.Rebuild | spindry/spinner.py:278-283 | the rebuilt list is a new list holding the same guests |

## Left out

- Floating point: energies and coordinates are exact reals. Rounding, float
  text formatting (`{x:f}`) and the bit-exact regression positions of the
  spinner and stk tests are not modelled. IEEE `inf` and `nan` are modelled
  where the potentials produce them.
- Random generators: seeding and the generators' internals
  (`np.random.default_rng`, `random.seed`, `np.random.seed`) are not
  modelled. Each generator is an arbitrary stream of draws in (0, 1), and
  `choice` is one draw scaled to the number of candidates.
- `sqrt`, `exp`, `np.linalg.norm` and `rotation_matrix_arbitrary_axis` are
  parameters. Only the square-root and exponential laws the proofs need are
  assumed, and the rotation matrix is any 3x3 matrix. No trigonometry is
  modelled.
- `mchammer` is not part of this model. Its `Molecule` is modelled after
  `spindry/molecule.py`. `translate_molecule_along_vector` and
  `rotate_molecule_by_angle` are modelled after the in-repository versions in
  `src/spindry/spinner.py:86-111`. `mch.test_move` is modelled after
  `_test_move`: a downhill move passes without a draw, otherwise one draw of
  the engine's generator decides.
- networkx is not part of this model. Connected components are computed
  directly and listed in the order of each component's first atom, which is
  the order networkx enumerates them from the insertion-ordered nodes.
- `src/spindry/spinner.py` as a whole: the file does not parse
  (`src/spindry/spinner.py:233-236`). Only its `_test_move`, translation,
  rotation and movable-component selection are modelled (`Metropolis`).
  Its constructor default `SpdPotential(5)` is the same as that of
  `src/spindry/_internal/spinner.py`, modelled by `Spinners.Spinner.constructor`.
- `spindry/supramolecule.py`, the legacy `SupraMolecule`, is not part of this
  model. The legacy engine calls it with `host=` and `guests=` keywords,
  which its constructor does not take. The model yields a record
  (`LegacyConformer`) of exactly those arguments instead of raising.
- LegacySpinners.Spinner.GetConformers: a yielded conformer holds a snapshot
  of the guest list. In the source, the first yield holds the caller's list
  itself, which later steps change in place. Consumers that keep the first
  conformer therefore see moved guests there; that aliasing is not modelled.
- LegacySpinners.Spinner.GetConformers: the bound on the number of conformers
  is stated for `num_conformers >= 2`. With `num_conformers = 1` the initial
  conformer already fills `cids_passed`, yet the loop still runs one pass
  before its check (`spindry/spinner.py:255-286`). A rejected first pass ends
  the run after the initial conformer. An accepted one makes the check
  unreachable, so the run is bounded only by `max_attempts`.
- Printing: the legacy closing report (`spindry/spinner.py:288-290`) and the
  `verbose` report of the current engine are not modelled. Only the legacy
  report's `UnboundLocalError` for `max_attempts <= 1` is kept, as the run's
  error.
- File I/O: `open` and `write` in `spindry/molecule.py` are not modelled.
  The writer produces the content lines.
- Molecules.XyzMolecule, Molecules.ReadXyz: the reader takes the header
  count and the atom lines already split into an element and three numbers.
  Text parsing and its errors are not modelled: the `ValueError`s of
  `int()`, `float()` and the unpacking of `split()`, a file of fewer than
  two lines, and a row with other than three coordinates.
- Molecules.TitleFrom: title-casing changes the case of ASCII letters only.
  Python's `str.title` also changes non-ASCII letters; element symbols are
  ASCII.
- Potentials.ComputePotential, Potentials.SupraPotential,
  LegacyPotentials.LegacyComputePotential and the engines that call them
  require one row per atom in every component (`RowsPerAtom`). The
  component split guarantees this when atom ids are distinct. With a
  repeated id, the flattened distances and sigmas can differ in length
  (`src/spindry/potential.py:68-74`). numpy then raises. When one flattened
  length is 1 or the two lengths coincide, it broadcasts or pairs
  mismatched entries without raising. That path is not modelled.
- Utilities.CalculateCentroidDistance requires the same of the
  components (`OneRowPerAtom`), which `get_centroid` relies on.
- LegacySpinners.Spinner.constructor: `nonbond_mu` is a natural-number
  exponent (`Nonbond.mu: nat`). The source documents it as a float, so
  non-integer and negative exponents are not modelled. The default, 3, is
  covered.
- `__str__` and `__repr__`, and the `cid`/`pot` comment line of the
  supramolecule XYZ writer, are text formatting and are left out.
- Supramolecules.WithPositionMatrix, Supramolecules.New: both require every
  atom id and bond end to index a row (`WellFormed`). The source's
  `_define_components` indexes the rows by the ids of each component, so a
  structure outside that precondition raises `IndexError` or picks rows
  numpy wraps around. That error path is not modelled. The clone keeps the
  old components, as the source overwrites the ones the constructor finds.
  `Supramolecules.WithDisplacement`, `Metropolis.Translate` and
  `Metropolis.RotateAtoms` require the same.
- Metropolis.TranslationWithinStep: the bound on the translation uses the
  exact square root. A float `norm` may round the length by an ulp.
- Custom potentials supplied by a caller (the examples' `custom_potential`
  scripts) are not modelled. The engine is modelled over the two potential
  classes of `src/spindry/potential.py`.
