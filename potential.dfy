/**
 * The pairwise non-bonded potentials: a Lennard-Jones-shaped term per atom
 * pair, Lorentz-Berthelot mixing of the per-atom parameters into
 * component-by-component matrices (filled by nested loops), and a total summed
 * over every unordered pair of components, never within one.
 *
 * `SpdPotential` has one epsilon for every atom pair; `VaryingEpsilonPotential`
 * mixes per-atom epsilons as a geometric mean. The two share the summation
 * shape, so the epsilon input selects the class: `Scalar(e)` for the first,
 * `PerAtom(epsilons)` for the second.
 */
module Potentials {
  import opened Wrappers
  import opened Geometry
  import opened Floats
  import opened Molecules
  import opened Supramolecules
  import opened Combinations

  // ---------------------------------------------------------------------------
  // The term

  /** `epsilon * ((sigma / d) ** 12 - (sigma / d) ** 6)`, evaluated as numpy floats. */
  function Nonbond(epsilon: Energy, sigma: real, distance: real): Energy
  {
    Times(epsilon, Shape(Div(sigma, distance)))
  }

  /**
   * `q ** 12 - q ** 6` in closed form: a finite quotient gives the real
   * difference of powers; an infinite one gives infinity minus infinity, NaN.
   */
  function Shape(q: Energy): Energy
  {
    match q
    case Finite(x) => Finite(RealPow(x, 12) - RealPow(x, 6))
    case _ => NaN
  }

  /** The closed form agrees with the float powers taken one multiplication at a time. */
  lemma ShapeIsPowerDifference(q: Energy)
    ensures Shape(q) == Floats.Sub(Pow(q, 12), Pow(q, 6))
  {
    match q {
      case Finite(x) =>
        PowOfFinite(x, 12);
        PowOfFinite(x, 6);
      case NaN =>
        PowOfNaN(12);
        PowOfNaN(6);
      case _ =>
        PowOfInfinity(q, 12);
        PowOfInfinity(q, 6);
    }
  }

  /** At a nonzero distance the term is the real `epsilon * (q ** 12 - q ** 6)` with `q = sigma / d`. */
  lemma NonbondOfFinite(epsilon: real, sigma: real, d: real, q: real)
    requires d != 0.0 && q == sigma / d
    ensures Nonbond(Finite(epsilon), sigma, d) == Finite(epsilon * (RealPow(q, 12) - RealPow(q, 6)))
  {
  }

  /** At the distance sigma the term vanishes, whatever the (finite) epsilon. */
  lemma NonbondZeroAtSigma(epsilon: real, sigma: real)
    requires sigma != 0.0
    ensures Nonbond(Finite(epsilon), sigma, sigma) == Finite(0.0)
  {
    var q := sigma / sigma;
    NonbondOfFinite(epsilon, sigma, sigma, q);
    assert (q - 1.0) * sigma == 0.0;
    ProductZero(q - 1.0, sigma);
    RealPowBounds(q, 12);
    RealPowBounds(q, 6);
    EqualPowersCancel(epsilon, RealPow(q, 12), RealPow(q, 6));
  }

  lemma EqualPowersCancel(epsilon: real, a: real, b: real)
    requires a == b
    ensures epsilon * (a - b) == 0.0
  {
  }

  /**
   * For a positive epsilon and sigma the term is repulsive (positive) inside
   * sigma, attractive (negative) beyond it, and zero only at sigma.
   */
  lemma NonbondSign(epsilon: real, sigma: real, d: real)
    requires epsilon > 0.0 && sigma > 0.0 && d > 0.0
    ensures Nonbond(Finite(epsilon), sigma, d).Finite?
    ensures d < sigma ==> Nonbond(Finite(epsilon), sigma, d).value > 0.0
    ensures d > sigma ==> Nonbond(Finite(epsilon), sigma, d).value < 0.0
    ensures d == sigma <==> Nonbond(Finite(epsilon), sigma, d).value == 0.0
  {
    var q := sigma / d;
    NonbondOfFinite(epsilon, sigma, d, q);
    QuotientVersusOne(sigma, d, q);
    var p6, p12 := RealPow(q, 6), RealPow(q, 12);
    RealPowAdd(q, 6, 6);
    assert p12 == p6 * p6;
    RealPowBounds(q, 6);
    PowerDifferenceSign(epsilon, p6, p12);
  }

  /** `q = sigma / d` compares with one as `sigma` compares with `d`. */
  lemma QuotientVersusOne(sigma: real, d: real, q: real)
    requires sigma > 0.0 && d > 0.0 && q == sigma / d
    ensures q > 0.0
    ensures d < sigma <==> q > 1.0
    ensures d == sigma <==> q == 1.0
  {
    ScaleCompare(q, d, sigma);
  }

  /** Multiplying by a positive `d` keeps the comparison of `q` with one: `p = q * d` compares with `d` as `q` with one. */
  lemma ScaleCompare(q: real, d: real, p: real)
    requires d > 0.0 && p == q * d
    ensures q > 0.0 <==> p > 0.0
    ensures q > 1.0 <==> p > d
    ensures q == 1.0 <==> p == d
  {
    assert q * d - d == (q - 1.0) * d;
    if q > 1.0 {
      PositiveProduct(q - 1.0, d);
    } else if q < 1.0 {
      PositiveProduct(1.0 - q, d);
    }
    if q > 0.0 {
      PositiveProduct(q, d);
    } else if q < 0.0 {
      PositiveProduct(-q, d);
    }
  }

  /** With `p12 = p6 * p6`, `epsilon * (p12 - p6)` has the sign of `p6 - 1`. */
  lemma PowerDifferenceSign(epsilon: real, p6: real, p12: real)
    requires epsilon > 0.0 && p6 > 0.0 && p12 == p6 * p6
    ensures p6 > 1.0 ==> epsilon * (p12 - p6) > 0.0
    ensures p6 < 1.0 ==> epsilon * (p12 - p6) < 0.0
    ensures p6 == 1.0 <==> epsilon * (p12 - p6) == 0.0
  {
    var diff := p12 - p6;
    assert diff == p6 * (p6 - 1.0);
    if p6 > 1.0 {
      PositiveProduct(p6, p6 - 1.0);
      PositiveProduct(epsilon, diff);
    } else if p6 < 1.0 {
      assert -diff == p6 * (1.0 - p6);
      PositiveProduct(p6, 1.0 - p6);
      PositiveProduct(epsilon, -diff);
    }
  }

  lemma PositiveProduct(a: real, b: real)
    requires a > 0.0 && b > 0.0
    ensures a * b > 0.0
  {
  }

  /** Two atoms at distance zero give NaN: the quotient is infinite (or 0/0) and infinity minus infinity is NaN. */
  lemma NonbondAtContact(epsilon: Energy, sigma: real)
    ensures Nonbond(epsilon, sigma, 0.0) == NaN
  {
  }

  // ---------------------------------------------------------------------------
  // Lorentz-Berthelot mixing

  /** The arithmetic mean of two radii (the legacy `_mixing_function`). */
  function Mix(a: real, b: real): real
  {
    (a + b) / 2.0
  }

  /** An `n1 x n2` matrix given by its rows. */
  predicate Shaped<T>(m: seq<seq<T>>, n1: nat, n2: nat)
  {
    |m| == n1 && forall i :: 0 <= i < n1 ==> |m[i]| == n2
  }

  /** The matrix of mixed radii, `[i][j] = mean(radii1[i], radii2[j])`. */
  function SigmaMatrix(radii1: seq<real>, radii2: seq<real>): (m: seq<seq<real>>)
    ensures Shaped(m, |radii1|, |radii2|)
  {
    seq(|radii1|, i requires 0 <= i < |radii1| => SigmaRow(radii1[i], radii2))
  }

  /** One row of the mixed radii: `r` mixed with each of `radii2`. */
  function SigmaRow(r: real, radii2: seq<real>): (row: seq<real>)
    ensures |row| == |radii2|
  {
    seq(|radii2|, j requires 0 <= j < |radii2| => Mix(r, radii2[j]))
  }

  /** Swapping the two radius lists transposes the matrix. */
  lemma SigmaSymmetric(radii1: seq<real>, radii2: seq<real>, i: nat, j: nat)
    requires i < |radii1| && j < |radii2|
    ensures SigmaMatrix(radii1, radii2)[i][j] == SigmaMatrix(radii2, radii1)[j][i]
    ensures SigmaMatrix(radii1, radii2)[i][j] == (radii1[i] + radii2[j]) / 2.0
  {
  }

  /** Mixing a radius with itself gives it back, and the mix lies between the two radii. */
  lemma MixBetween(a: real, b: real)
    ensures Mix(a, a) == a
    ensures a <= b ==> a <= Mix(a, b) <= b
  {
  }

  /** `np.sqrt(e1 * e2)`: the geometric mean, NaN when the product is negative. */
  function EpsilonEntry(sqrt: real -> real, e1: real, e2: real): Energy
  {
    if e1 * e2 >= 0.0 then Finite(sqrt(e1 * e2)) else NaN
  }

  function EpsilonMatrix(sqrt: real -> real, e1: seq<real>, e2: seq<real>): (m: seq<seq<Energy>>)
    ensures Shaped(m, |e1|, |e2|)
  {
    seq(|e1|, i requires 0 <= i < |e1| => EpsilonRow(sqrt, e1[i], e2))
  }

  /** One row of the mixed epsilons: `e` mixed with each of `e2`. */
  function EpsilonRow(sqrt: real -> real, e: real, e2: seq<real>): (row: seq<Energy>)
    ensures |row| == |e2|
  {
    seq(|e2|, j requires 0 <= j < |e2| => EpsilonEntry(sqrt, e, e2[j]))
  }

  /**
   * The geometric mean is symmetric, gives a non-negative epsilon back when
   * mixed with itself, and is NaN exactly when the two epsilons have strictly
   * opposite signs.
   */
  lemma EpsilonMixing(sqrt: real -> real, e1: real, e2: real)
    requires IsSqrt(sqrt)
    ensures EpsilonEntry(sqrt, e1, e2) == EpsilonEntry(sqrt, e2, e1)
    ensures e1 >= 0.0 ==> EpsilonEntry(sqrt, e1, e1) == Finite(e1)
    ensures EpsilonEntry(sqrt, e1, e2) == NaN <==> (e1 < 0.0 < e2 || e2 < 0.0 < e1)
  {
    if e1 >= 0.0 {
      SqrtUnique(sqrt, e1 * e1, e1);
    }
    SignOfProduct(e1, e2);
  }

  lemma SignOfProduct(a: real, b: real)
    ensures a * b < 0.0 <==> (a < 0.0 < b || b < 0.0 < a)
  {
    if a < 0.0 && b < 0.0 {
      assert a * b == (-a) * (-b);
      PositiveProduct(-a, -b);
    } else if a > 0.0 && b > 0.0 {
      PositiveProduct(a, b);
    } else if a < 0.0 < b {
      PositiveProduct(-a, b);
    } else if b < 0.0 < a {
      PositiveProduct(a, -b);
    }
  }

  /** The scalar epsilon broadcast over an `n1 x n2` block. */
  function Uniform(e: Energy, n1: nat, n2: nat): (m: seq<seq<Energy>>)
    ensures Shaped(m, n1, n2)
  {
    seq(n1, i => seq(n2, j => e))
  }

  /** The rows of a two-dimensional array. */
  function Rows<T>(a: array2<T>): (m: seq<seq<T>>)
    reads a
    ensures Shaped(m, a.Length0, a.Length1)
  {
    seq(a.Length0, i requires 0 <= i < a.Length0 reads a =>
      seq(a.Length1, j requires 0 <= j < a.Length1 reads a => a[i, j]))
  }

  /** `_combine_sigma`: a zero matrix filled entry by entry. */
  method CombineSigma(radii1: seq<real>, radii2: seq<real>) returns (mixed: array2<real>)
    ensures fresh(mixed)
    ensures mixed.Length0 == |radii1| && mixed.Length1 == |radii2|
    ensures Rows(mixed) == SigmaMatrix(radii1, radii2)
  {
    mixed := new real[|radii1|, |radii2|]((i, j) => 0.0);
    for i := 0 to |radii1|
      invariant forall i', j :: 0 <= i' < i && 0 <= j < |radii2| ==> mixed[i', j] == Mix(radii1[i'], radii2[j])
    {
      for j := 0 to |radii2|
        invariant forall i', j' :: 0 <= i' < i && 0 <= j' < |radii2| ==> mixed[i', j'] == Mix(radii1[i'], radii2[j'])
        invariant forall j' :: 0 <= j' < j ==> mixed[i, j'] == Mix(radii1[i], radii2[j'])
      {
        mixed[i, j] := Mix(radii1[i], radii2[j]);
      }
    }
    RowsEqual(mixed, SigmaMatrix(radii1, radii2));
  }

  /** `_combine_epsilon`: a zero matrix filled with geometric means. */
  method CombineEpsilon(sqrt: real -> real, e1: seq<real>, e2: seq<real>) returns (mixed: array2<Energy>)
    ensures fresh(mixed)
    ensures mixed.Length0 == |e1| && mixed.Length1 == |e2|
    ensures Rows(mixed) == EpsilonMatrix(sqrt, e1, e2)
  {
    mixed := new Energy[|e1|, |e2|]((i, j) => Finite(0.0));
    for i := 0 to |e1|
      invariant forall i', j :: 0 <= i' < i && 0 <= j < |e2| ==> mixed[i', j] == EpsilonEntry(sqrt, e1[i'], e2[j])
    {
      for j := 0 to |e2|
        invariant forall i', j' :: 0 <= i' < i && 0 <= j' < |e2| ==> mixed[i', j'] == EpsilonEntry(sqrt, e1[i'], e2[j'])
        invariant forall j' :: 0 <= j' < j ==> mixed[i, j'] == EpsilonEntry(sqrt, e1[i], e2[j'])
      {
        mixed[i, j] := EpsilonEntry(sqrt, e1[i], e2[j]);
      }
    }
    RowsEqual(mixed, EpsilonMatrix(sqrt, e1, e2));
  }

  /** An array equals a matrix of the same shape entry by entry. */
  lemma RowsEqual<T>(a: array2<T>, m: seq<seq<T>>)
    requires Shaped(m, a.Length0, a.Length1)
    requires forall i, j :: 0 <= i < a.Length0 && 0 <= j < a.Length1 ==> a[i, j] == m[i][j]
    ensures Rows(a) == m
  {
    var r := Rows(a);
    forall i | 0 <= i < a.Length0
      ensures r[i] == m[i]
    {
    }
  }

  // ---------------------------------------------------------------------------
  // The energy of one pair of components

  /** The terms of row `v` against the rows `q`, summed in order. */
  function RowEnergy(sqrt: real -> real, v: Vec, q: seq<Vec>, sigmas: seq<real>, epsilons: seq<Energy>): Energy
    requires |sigmas| == |q| && |epsilons| == |q|
  {
    if |q| == 0 then Finite(0.0)
    else
      var n := |q| - 1;
      Floats.Add(RowEnergy(sqrt, v, q[..n], sigmas[..n], epsilons[..n]),
        Nonbond(epsilons[n], sigmas[n], Distance(sqrt, v, q[n])))
  }

  /**
   * `np.sum` of the terms of every row of `p` against every row of `q`, in the
   * row-major order of the flattened `cdist` matrix. Energy addition is
   * associative and commutative, so the order does not change the value.
   */
  function BlockEnergy(sqrt: real -> real, p: seq<Vec>, q: seq<Vec>, sigmas: seq<seq<real>>, epsilons: seq<seq<Energy>>): Energy
    requires Shaped(sigmas, |p|, |q|) && Shaped(epsilons, |p|, |q|)
  {
    if |p| == 0 then Finite(0.0)
    else
      var n := |p| - 1;
      Floats.Add(BlockEnergy(sqrt, p[..n], q, sigmas[..n], epsilons[..n]),
        RowEnergy(sqrt, p[n], q, sigmas[n], epsilons[n]))
  }

  // ---------------------------------------------------------------------------
  // The total over pairs of components

  /** The epsilon input of `_compute_nonbonded_potential`: the class's scalar, or the per-atom lists. */
  datatype EpsilonInput = Scalar(epsilon: real) | PerAtom(epsilons: seq<seq<real>>)

  /** `zip(strict=True)` raises when the pair listings have different lengths. */
  datatype ZipError = ZipLengthMismatch

  /** The pair of position matrices `pp` is zipped with the pair of radius (and epsilon) lists `rp`; their sizes agree. */
  predicate PairShaped(input: EpsilonInput, pms: seq<seq<Vec>>, radii: seq<seq<real>>, pp: (nat, nat), rp: (nat, nat))
  {
    && pp.0 < |pms| && pp.1 < |pms| && rp.0 < |radii| && rp.1 < |radii|
    && |radii[rp.0]| == |pms[pp.0]| && |radii[rp.1]| == |pms[pp.1]|
    && (input.PerAtom? ==>
      rp.0 < |input.epsilons| && rp.1 < |input.epsilons|
      && |input.epsilons[rp.0]| == |pms[pp.0]| && |input.epsilons[rp.1]| == |pms[pp.1]|)
  }

  /** The epsilons of one pair: the scalar broadcast, or the mixed per-atom lists. */
  function EpsilonBlock(sqrt: real -> real, input: EpsilonInput, pms: seq<seq<Vec>>, radii: seq<seq<real>>, pp: (nat, nat), rp: (nat, nat)): (m: seq<seq<Energy>>)
    requires PairShaped(input, pms, radii, pp, rp)
    ensures Shaped(m, |pms[pp.0]|, |pms[pp.1]|)
  {
    match input
    case Scalar(e) => Uniform(Finite(e), |pms[pp.0]|, |pms[pp.1]|)
    case PerAtom(es) => EpsilonMatrix(sqrt, es[rp.0], es[rp.1])
  }

  /** The energy of one zipped pair. */
  function PairEnergy(sqrt: real -> real, input: EpsilonInput, pms: seq<seq<Vec>>, radii: seq<seq<real>>, pp: (nat, nat), rp: (nat, nat)): Energy
    requires PairShaped(input, pms, radii, pp, rp)
  {
    BlockEnergy(sqrt, pms[pp.0], pms[pp.1], SigmaMatrix(radii[rp.0], radii[rp.1]), EpsilonBlock(sqrt, input, pms, radii, pp, rp))
  }

  // ---------------------------------------------------------------------------
  // Swapping the two components of a pair

  /** The transpose of an `n1 x n2` matrix. */
  function Transposed<T>(m: seq<seq<T>>, n1: nat, n2: nat): (t: seq<seq<T>>)
    requires Shaped(m, n1, n2)
    ensures Shaped(t, n2, n1)
  {
    seq(n2, j requires 0 <= j < n2 => seq(n1, i requires 0 <= i < n1 => m[i][j]))
  }

  /** Every row of `m` cut to its first `k` entries. */
  function FirstColumns<T>(m: seq<seq<T>>, k: nat): (t: seq<seq<T>>)
    requires forall j :: 0 <= j < |m| ==> k <= |m[j]|
    ensures Shaped(t, |m|, k)
  {
    seq(|m|, j requires 0 <= j < |m| => m[j][..k])
  }

  /** Entry `k` of every row of `m`. */
  function Column<T>(m: seq<seq<T>>, k: nat): (c: seq<T>)
    requires forall j :: 0 <= j < |m| ==> k < |m[j]|
    ensures |c| == |m|
  {
    seq(|m|, j requires 0 <= j < |m| => m[j][k])
  }

  lemma Regroup(x: Energy, y: Energy, z: Energy, w: Energy)
    ensures Floats.Add(Floats.Add(x, y), Floats.Add(z, w)) == Floats.Add(Floats.Add(x, z), Floats.Add(y, w))
  {
    AddAssociates(x, y, Floats.Add(z, w));
    AddAssociates(y, z, w);
    AddCommutes(y, z);
    AddAssociates(z, y, w);
    AddAssociates(x, z, Floats.Add(y, w));
  }

  /** A block with no columns sums to zero. */
  lemma {:induction false} NoColumns(sqrt: real -> real, q: seq<Vec>, sigmas: seq<seq<real>>, epsilons: seq<seq<Energy>>)
    requires Shaped(sigmas, |q|, 0) && Shaped(epsilons, |q|, 0)
    ensures BlockEnergy(sqrt, q, [], sigmas, epsilons) == Finite(0.0)
    decreases |q|
  {
    if |q| > 0 {
      var k := |q| - 1;
      NoColumns(sqrt, q[..k], sigmas[..k], epsilons[..k]);
    }
  }

  /** Cutting the rows and then taking a prefix of them is taking the prefix first. */
  lemma PrefixOfColumns<T>(m: seq<seq<T>>, k: nat, c: nat)
    requires k <= |m| && forall j :: 0 <= j < |m| ==> c < |m[j]|
    ensures FirstColumns(m, c)[..k] == FirstColumns(m[..k], c)
    ensures Column(m, c)[..k] == Column(m[..k], c)
  {
  }

  /**
   * Summing a block row by row equals summing it without its last column and
   * then adding that column, read as a row against the last of `p`.
   */
  lemma {:induction false} PeelColumn(sqrt: real -> real, q: seq<Vec>, p: seq<Vec>, sigmas: seq<seq<real>>, epsilons: seq<seq<Energy>>)
    requires |p| > 0 && Shaped(sigmas, |q|, |p|) && Shaped(epsilons, |q|, |p|)
    ensures var m := |p| - 1;
      BlockEnergy(sqrt, q, p, sigmas, epsilons) ==
        Floats.Add(BlockEnergy(sqrt, q, p[..m], FirstColumns(sigmas, m), FirstColumns(epsilons, m)),
                   RowEnergy(sqrt, p[m], q, Column(sigmas, m), Column(epsilons, m)))
    decreases |q|
  {
    var m := |p| - 1;
    if |q| > 0 {
      var k := |q| - 1;
      var fs, fe, cs, ce := FirstColumns(sigmas, m), FirstColumns(epsilons, m), Column(sigmas, m), Column(epsilons, m);
      PeelColumn(sqrt, q[..k], p, sigmas[..k], epsilons[..k]);
      PrefixOfColumns(sigmas, k, m);
      PrefixOfColumns(epsilons, k, m);
      var x := BlockEnergy(sqrt, q[..k], p[..m], fs[..k], fe[..k]);
      var y := RowEnergy(sqrt, p[m], q[..k], cs[..k], ce[..k]);
      var z := RowEnergy(sqrt, q[k], p[..m], sigmas[k][..m], epsilons[k][..m]);
      var w := Nonbond(epsilons[k][m], sigmas[k][m], Distance(sqrt, q[k], p[m]));
      assert RowEnergy(sqrt, q[k], p, sigmas[k], epsilons[k]) == Floats.Add(z, w);
      assert BlockEnergy(sqrt, q, p[..m], fs, fe) == Floats.Add(x, z);
      DistanceSymmetric(sqrt, q[k], p[m]);
      assert RowEnergy(sqrt, p[m], q, cs, ce) == Floats.Add(y, w);
      Regroup(x, y, z, w);
    }
  }

  /** The transpose of the first `n` rows is the transpose cut to its first `n` columns, and row `n` is its column `n`. */
  lemma TransposedPrefix<T>(m: seq<seq<T>>, n1: nat, n2: nat, n: nat)
    requires Shaped(m, n1, n2) && n < n1
    ensures FirstColumns(Transposed(m, n1, n2), n) == Transposed(m[..n], n, n2)
    ensures Column(Transposed(m, n1, n2), n) == m[n]
  {
    var t := Transposed(m, n1, n2);
    forall j | 0 <= j < n2
      ensures FirstColumns(t, n)[j] == Transposed(m[..n], n, n2)[j]
    {
      assert FirstColumns(t, n)[j] == t[j][..n];
    }
  }

  /**
   * The energy of a block is the energy of its transpose: the rows of `q`
   * against the rows of `p`, with the transposed sigmas and epsilons.
   */
  lemma {:induction false} BlockSymmetric(sqrt: real -> real, p: seq<Vec>, q: seq<Vec>, sigmas: seq<seq<real>>, epsilons: seq<seq<Energy>>)
    requires Shaped(sigmas, |p|, |q|) && Shaped(epsilons, |p|, |q|)
    ensures BlockEnergy(sqrt, p, q, sigmas, epsilons) ==
      BlockEnergy(sqrt, q, p, Transposed(sigmas, |p|, |q|), Transposed(epsilons, |p|, |q|))
    decreases |p|
  {
    var ts, te := Transposed(sigmas, |p|, |q|), Transposed(epsilons, |p|, |q|);
    if |p| == 0 {
      NoColumns(sqrt, q, ts, te);
    } else {
      var n := |p| - 1;
      var x := BlockEnergy(sqrt, p[..n], q, sigmas[..n], epsilons[..n]);
      var y := RowEnergy(sqrt, p[n], q, sigmas[n], epsilons[n]);
      assert BlockEnergy(sqrt, p, q, sigmas, epsilons) == Floats.Add(x, y);
      BlockSymmetric(sqrt, p[..n], q, sigmas[..n], epsilons[..n]);
      TransposedPrefix(sigmas, |p|, |q|, n);
      TransposedPrefix(epsilons, |p|, |q|, n);
      PeelColumn(sqrt, q, p, ts, te);
    }
  }

  /** Swapping the radius lists transposes the mixed radii. */
  lemma SigmaTransposed(radii1: seq<real>, radii2: seq<real>)
    ensures Transposed(SigmaMatrix(radii1, radii2), |radii1|, |radii2|) == SigmaMatrix(radii2, radii1)
  {
    var t := Transposed(SigmaMatrix(radii1, radii2), |radii1|, |radii2|);
    forall j | 0 <= j < |radii2|
      ensures t[j] == SigmaMatrix(radii2, radii1)[j]
    {
      forall i | 0 <= i < |radii1|
        ensures t[j][i] == SigmaMatrix(radii2, radii1)[j][i]
      {
        SigmaSymmetric(radii1, radii2, i, j);
      }
    }
  }

  /** Swapping the epsilon lists transposes the mixed epsilons. */
  lemma EpsilonTransposed(sqrt: real -> real, e1: seq<real>, e2: seq<real>)
    ensures Transposed(EpsilonMatrix(sqrt, e1, e2), |e1|, |e2|) == EpsilonMatrix(sqrt, e2, e1)
  {
    var t := Transposed(EpsilonMatrix(sqrt, e1, e2), |e1|, |e2|);
    forall j | 0 <= j < |e2|
      ensures t[j] == EpsilonMatrix(sqrt, e2, e1)[j]
    {
      forall i | 0 <= i < |e1|
        ensures t[j][i] == EpsilonMatrix(sqrt, e2, e1)[j][i]
      {
        assert e1[i] * e2[j] == e2[j] * e1[i];
      }
    }
  }

  /** The broadcast scalar is its own transpose. */
  lemma UniformTransposed(e: Energy, n1: nat, n2: nat)
    ensures Transposed(Uniform(e, n1, n2), n1, n2) == Uniform(e, n2, n1)
  {
    var t := Transposed(Uniform(e, n1, n2), n1, n2);
    forall j | 0 <= j < n2
      ensures t[j] == Uniform(e, n2, n1)[j]
    {
    }
  }

  /**
   * The pair symmetry of the potential: the pair (A, B) contributes what the
   * pair (B, A) does, since the mixed sigmas and epsilons of the swapped pair
   * are the transposed matrices and the distance is symmetric.
   */
  lemma PairSymmetric(sqrt: real -> real, input: EpsilonInput, pms: seq<seq<Vec>>, radii: seq<seq<real>>, pp: (nat, nat), rp: (nat, nat))
    requires PairShaped(input, pms, radii, pp, rp)
    ensures PairShaped(input, pms, radii, (pp.1, pp.0), (rp.1, rp.0))
    ensures PairEnergy(sqrt, input, pms, radii, pp, rp) == PairEnergy(sqrt, input, pms, radii, (pp.1, pp.0), (rp.1, rp.0))
  {
    var p, q := pms[pp.0], pms[pp.1];
    BlockSymmetric(sqrt, p, q, SigmaMatrix(radii[rp.0], radii[rp.1]), EpsilonBlock(sqrt, input, pms, radii, pp, rp));
    SigmaTransposed(radii[rp.0], radii[rp.1]);
    match input
    case Scalar(e) => UniformTransposed(Finite(e), |p|, |q|);
    case PerAtom(es) => EpsilonTransposed(sqrt, es[rp.0], es[rp.1]);
  }

  predicate ZipShaped(input: EpsilonInput, pms: seq<seq<Vec>>, radii: seq<seq<real>>, pps: seq<(nat, nat)>, rps: seq<(nat, nat)>)
  {
    |pps| == |rps| && forall k :: 0 <= k < |pps| ==> PairShaped(input, pms, radii, pps[k], rps[k])
  }

  /** The sum, from 0, of the energies of the zipped pairs in order. */
  function ZipEnergy(sqrt: real -> real, input: EpsilonInput, pms: seq<seq<Vec>>, radii: seq<seq<real>>, pps: seq<(nat, nat)>, rps: seq<(nat, nat)>): Energy
    requires ZipShaped(input, pms, radii, pps, rps)
  {
    if |pps| == 0 then Finite(0.0)
    else
      var n := |pps| - 1;
      Floats.Add(ZipEnergy(sqrt, input, pms, radii, pps[..n], rps[..n]), PairEnergy(sqrt, input, pms, radii, pps[n], rps[n]))
  }

  lemma ZipStep(sqrt: real -> real, input: EpsilonInput, pms: seq<seq<Vec>>, radii: seq<seq<real>>, pps: seq<(nat, nat)>, rps: seq<(nat, nat)>, k: nat)
    requires ZipShaped(input, pms, radii, pps, rps) && k < |pps|
    ensures ZipShaped(input, pms, radii, pps[..k], rps[..k])
    ensures ZipShaped(input, pms, radii, pps[..k + 1], rps[..k + 1])
    ensures ZipEnergy(sqrt, input, pms, radii, pps[..k + 1], rps[..k + 1]) ==
      Floats.Add(ZipEnergy(sqrt, input, pms, radii, pps[..k], rps[..k]), PairEnergy(sqrt, input, pms, radii, pps[k], rps[k]))
  {
    assert pps[..k + 1][..k] == pps[..k];
    assert rps[..k + 1][..k] == rps[..k];
  }

  /** Every component has as many radii (and epsilons) as position rows. */
  predicate Matching(input: EpsilonInput, pms: seq<seq<Vec>>, radii: seq<seq<real>>)
  {
    && (forall c :: 0 <= c < |pms| && c < |radii| ==> |radii[c]| == |pms[c]|)
    && (input.PerAtom? ==> forall c :: 0 <= c < |pms| && c < |input.epsilons| ==> |input.epsilons[c]| == |pms[c]|)
  }

  /** The strict zip of the pair listings fails. */
  predicate ZipFails(input: EpsilonInput, numPms: nat, numRadii: nat)
  {
    || |Pairs(numPms)| != |Pairs(numRadii)|
    || (input.PerAtom? && |Pairs(|input.epsilons|)| != |Pairs(numPms)|)
  }

  /** The strict zip fails exactly when the counts differ and are not both below two. */
  lemma ZipFailsIff(input: EpsilonInput, numPms: nat, numRadii: nat)
    ensures ZipFails(input, numPms, numRadii) <==>
      || (numPms != numRadii && !(numPms <= 1 && numRadii <= 1))
      || (input.PerAtom? && |input.epsilons| != numPms && !(numPms <= 1 && |input.epsilons| <= 1))
  {
    PairCountsEqual(numPms, numRadii);
    if input.PerAtom? {
      PairCountsEqual(|input.epsilons|, numPms);
    }
  }

  /** With matching sizes and a successful zip, every listed pair is shaped. */
  lemma PairsShaped(input: EpsilonInput, pms: seq<seq<Vec>>, radii: seq<seq<real>>)
    requires Matching(input, pms, radii) && !ZipFails(input, |pms|, |radii|)
    ensures ZipShaped(input, pms, radii, Pairs(|pms|), Pairs(|pms|))
  {
    ZipFailsIff(input, |pms|, |radii|);
    var pairs := Pairs(|pms|);
    forall k | 0 <= k < |pairs|
      ensures PairShaped(input, pms, radii, pairs[k], pairs[k])
    {
      assert pairs[k].0 < pairs[k].1 < |pms|;
    }
  }

  /** The total of the potential: each unordered pair of components once, in `combinations` order. */
  ghost function Total(sqrt: real -> real, input: EpsilonInput, pms: seq<seq<Vec>>, radii: seq<seq<real>>): Energy
    requires Matching(input, pms, radii) && !ZipFails(input, |pms|, |radii|)
  {
    PairsShaped(input, pms, radii);
    ZipEnergy(sqrt, input, pms, radii, Pairs(|pms|), Pairs(|pms|))
  }

  /** The block of one zipped pair: mix the radii (and epsilons) of `rp`, then sum the terms over the rows of `pp`. */
  method SumPair(sqrt: real -> real, input: EpsilonInput, pms: seq<seq<Vec>>, radii: seq<seq<real>>, pp: (nat, nat), rp: (nat, nat))
    returns (block: Energy)
    requires PairShaped(input, pms, radii, pp, rp)
    ensures block == PairEnergy(sqrt, input, pms, radii, pp, rp)
  {
    var sigmas := CombineSigma(radii[rp.0], radii[rp.1]);
    match input {
      case Scalar(e) =>
        block := BlockEnergy(sqrt, pms[pp.0], pms[pp.1], Rows(sigmas), Uniform(Finite(e), |pms[pp.0]|, |pms[pp.1]|));
      case PerAtom(es) =>
        var epsilons := CombineEpsilon(sqrt, es[rp.0], es[rp.1]);
        block := BlockEnergy(sqrt, pms[pp.0], pms[pp.1], Rows(sigmas), Rows(epsilons));
    }
  }

  /**
   * `_compute_nonbonded_potential` of either class: for each pair of
   * components, mix the parameters, sum the terms over the block and add the
   * sum to the running total.
   */
  method ComputeNonbondedPotential(sqrt: real -> real, input: EpsilonInput, pms: seq<seq<Vec>>, radii: seq<seq<real>>)
    returns (r: Result<Energy, ZipError>)
    requires Matching(input, pms, radii)
    ensures r.Failure? <==> ZipFails(input, |pms|, |radii|)
    ensures r.Success? ==> r.value == Total(sqrt, input, pms, radii)
    ensures |pms| <= 1 && r.Success? ==> r.value == Finite(0.0)
  {
    var pairs := Pairs(|pms|);
    if ZipFails(input, |pms|, |radii|) {
      return Failure(ZipLengthMismatch);
    }
    PairsShaped(input, pms, radii);
    var total := Finite(0.0);
    for k := 0 to |pairs|
      invariant ZipShaped(input, pms, radii, pairs[..k], pairs[..k])
      invariant total == ZipEnergy(sqrt, input, pms, radii, pairs[..k], pairs[..k])
    {
      var block := SumPair(sqrt, input, pms, radii, pairs[k], pairs[k]);
      ZipStep(sqrt, input, pms, radii, pairs, pairs, k);
      total := Floats.Add(total, block);
    }
    assert pairs[..|pairs|] == pairs;
    PairsCount(|pms|);
    r := Success(total);
  }

  /** Two components: the total is the energy of that one pair. */
  lemma TwoComponentsTotal(sqrt: real -> real, input: EpsilonInput, pms: seq<seq<Vec>>, radii: seq<seq<real>>)
    requires Matching(input, pms, radii) && !ZipFails(input, |pms|, |radii|)
    requires |pms| == 2
    ensures PairShaped(input, pms, radii, (0, 1), (0, 1))
    ensures Total(sqrt, input, pms, radii) == PairEnergy(sqrt, input, pms, radii, (0, 1), (0, 1))
  {
    PairsShaped(input, pms, radii);
    PairsCount(2);
    PairsExactlyOnce(2);
    var pairs := Pairs(2);
    assert (0, 1) in pairs;
    assert pairs == [(0, 1)];
    assert pairs[..0] == [];
    var e := PairEnergy(sqrt, input, pms, radii, (0, 1), (0, 1));
    assert ZipEnergy(sqrt, input, pms, radii, pairs, pairs) == Floats.Add(ZipEnergy(sqrt, input, pms, radii, [], []), e);
    AddZero(e);
  }

  // ---------------------------------------------------------------------------
  // compute_potential

  /** The two potential classes: `SpdPotential(nonbond_epsilon)` and `VaryingEpsilonPotential()`. */
  datatype Potential = SpdPotential(nonbondEpsilon: real) | VaryingEpsilonPotential

  /** `SpdPotential()`, with its default epsilon of 5. */
  const DefaultPotential := SpdPotential(5.0)

  /** The per-atom parameters the classes read from an atom: `get_radius`, `get_sigma` and `get_epsilon`. */
  datatype AtomParameters = AtomParameters(radius: Atom -> real, sigma: Atom -> real, epsilon: Atom -> real)

  /** One value per atom of each component, in `get_atoms` order. */
  function AtomValues(f: Atom -> real, s: SupraMolecule): (r: seq<seq<real>>)
    ensures |r| == |s.components|
    ensures forall c :: 0 <= c < |r| ==> |r[c]| == |s.components[c].atoms|
  {
    seq(|s.components|, c requires 0 <= c < |s.components| => ValuesOf(f, s.components[c].atoms))
  }

  /** The value of each atom, in order. */
  function ValuesOf(f: Atom -> real, atoms: seq<Atom>): (r: seq<real>)
    ensures |r| == |atoms|
  {
    seq(|atoms|, k requires 0 <= k < |atoms| => f(atoms[k]))
  }

  /** The radii a class pairs with the rows: `get_radius` for `SpdPotential`, `get_sigma` otherwise. */
  function Radii(pot: Potential, params: AtomParameters, s: SupraMolecule): seq<seq<real>>
  {
    match pot
    case SpdPotential(_) => AtomValues(params.radius, s)
    case VaryingEpsilonPotential => AtomValues(params.sigma, s)
  }

  /** The epsilon input of a class: its scalar, or `get_epsilon` of every atom. */
  function Epsilons(pot: Potential, params: AtomParameters, s: SupraMolecule): EpsilonInput
  {
    match pot
    case SpdPotential(e) => Scalar(e)
    case VaryingEpsilonPotential => PerAtom(AtomValues(params.epsilon, s))
  }

  /** Every component of the structure has one row per atom. */
  predicate RowsPerAtom(s: SupraMolecule)
  {
    OneRowPerAtom(s.components)
  }

  /** Lists built from the components themselves always zip: one entry per component in each. */
  lemma ComponentListsZip(pot: Potential, params: AtomParameters, s: SupraMolecule)
    requires RowsPerAtom(s)
    ensures Matching(Epsilons(pot, params, s), ComponentRows(s), Radii(pot, params, s))
    ensures !ZipFails(Epsilons(pot, params, s), |ComponentRows(s)|, |Radii(pot, params, s)|)
  {
  }

  /** The potential of a supramolecule under a class: the total over its component pairs. */
  ghost function SupraPotential(sqrt: real -> real, pot: Potential, params: AtomParameters, s: SupraMolecule): Energy
    requires RowsPerAtom(s)
  {
    ComponentListsZip(pot, params, s);
    Total(sqrt, Epsilons(pot, params, s), ComponentRows(s), Radii(pot, params, s))
  }

  /**
   * `compute_potential` of either class: the rows and per-atom parameters of
   * every component, in component order, handed to the summation, which
   * cannot fail on them.
   */
  method ComputePotential(sqrt: real -> real, pot: Potential, params: AtomParameters, s: SupraMolecule)
    returns (e: Energy)
    requires RowsPerAtom(s)
    ensures e == SupraPotential(sqrt, pot, params, s)
    ensures |s.components| <= 1 ==> e == Finite(0.0)
  {
    ComponentListsZip(pot, params, s);
    var r := ComputeNonbondedPotential(sqrt, Epsilons(pot, params, s), ComponentRows(s), Radii(pot, params, s));
    e := r.value;
  }

  /**
   * With two components the potential is the one block between them: the
   * host rows against the guest rows, with sigmas mixed from the parameters
   * of their atoms in `get_atoms` order.
   */
  lemma TwoComponentPotential(sqrt: real -> real, pot: Potential, params: AtomParameters, s: SupraMolecule)
    requires RowsPerAtom(s) && |s.components| == 2
    ensures SupraPotential(sqrt, pot, params, s) ==
      BlockEnergy(sqrt, s.components[0].positions, s.components[1].positions,
        SigmaMatrix(Radii(pot, params, s)[0], Radii(pot, params, s)[1]),
        EpsilonBlock(sqrt, Epsilons(pot, params, s), ComponentRows(s), Radii(pot, params, s), (0, 1), (0, 1)))
  {
    ComponentListsZip(pot, params, s);
    TwoComponentsTotal(sqrt, Epsilons(pot, params, s), ComponentRows(s), Radii(pot, params, s));
  }

  /**
   * `with_position_matrix` keeps the old components, and the potential reads
   * only the components, so new rows do not change the potential until the
   * components are derived again.
   */
  lemma NewRowsKeepPotential(sqrt: real -> real, pot: Potential, params: AtomParameters, s: SupraMolecule, positions: seq<Vec>)
    requires WellFormed(s.atoms, s.bonds, positions) && RowsPerAtom(s)
    ensures RowsPerAtom(Supramolecules.WithPositionMatrix(s, positions))
    ensures SupraPotential(sqrt, pot, params, Supramolecules.WithPositionMatrix(s, positions)) == SupraPotential(sqrt, pot, params, s)
  {
  }

  /**
   * The potential reads nothing but the components: two structures with the
   * same components, however their atoms and rows are numbered, have the
   * same potential.
   */
  lemma PotentialReadsComponents(sqrt: real -> real, pot: Potential, params: AtomParameters, a: SupraMolecule, b: SupraMolecule)
    requires RowsPerAtom(a) && a.components == b.components
    ensures RowsPerAtom(b)
    ensures SupraPotential(sqrt, pot, params, a) == SupraPotential(sqrt, pot, params, b)
  {
    assert ComponentRows(a) == ComponentRows(b);
    assert AtomValues(params.radius, a) == AtomValues(params.radius, b);
    assert AtomValues(params.sigma, a) == AtomValues(params.sigma, b);
    assert AtomValues(params.epsilon, a) == AtomValues(params.epsilon, b);
  }
}
