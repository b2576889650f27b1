/**
 * Rows of a position matrix (3-vectors of reals) and the little linear algebra the
 * model needs. The square root is a parameter `sqrt` of the members that use it;
 * `IsSqrt` states the only properties assumed of it.
 */
module Geometry {

  datatype Vec = Vec(x: real, y: real, z: real)

  /** A 3x3 matrix given by its rows, as returned by a rotation-matrix builder. */
  datatype Mat3 = Mat3(r0: Vec, r1: Vec, r2: Vec)

  const Zero := Vec(0.0, 0.0, 0.0)
  const Identity := Mat3(Vec(1.0, 0.0, 0.0), Vec(0.0, 1.0, 0.0), Vec(0.0, 0.0, 1.0))

  function Add(a: Vec, b: Vec): Vec { Vec(a.x + b.x, a.y + b.y, a.z + b.z) }

  function Sub(a: Vec, b: Vec): Vec { Vec(a.x - b.x, a.y - b.y, a.z - b.z) }

  function Scale(a: Vec, c: real): Vec { Vec(a.x * c, a.y * c, a.z * c) }

  /** Component-wise division, numpy's `np.divide(v, n)`. */
  function Divide(a: Vec, n: real): Vec
    requires n != 0.0
  {
    Vec(a.x / n, a.y / n, a.z / n)
  }

  function Dot(a: Vec, b: Vec): real { a.x * b.x + a.y * b.y + a.z * b.z }

  function SqNorm(a: Vec): real { Dot(a, a) }

  function SqDist(a: Vec, b: Vec): real { SqNorm(Sub(a, b)) }

  /** `rot_mat @ v` */
  function Apply(m: Mat3, v: Vec): Vec { Vec(Dot(m.r0, v), Dot(m.r1, v), Dot(m.r2, v)) }

  /** The properties of the square root the model relies on. */
  ghost predicate IsSqrt(sqrt: real -> real)
  {
    forall x :: 0.0 <= x ==> 0.0 <= sqrt(x) && sqrt(x) * sqrt(x) == x
  }

  /** `np.linalg.norm(v)` */
  function Norm(sqrt: real -> real, v: Vec): real { sqrt(SqNorm(v)) }

  /** scipy's `euclidean(u, v)`, also each entry of `cdist`. */
  function Distance(sqrt: real -> real, a: Vec, b: Vec): real { sqrt(SqDist(a, b)) }

  /** The position matrix `pm + v`: every row shifted by `v`. */
  function Shift(pm: seq<Vec>, v: Vec): (r: seq<Vec>)
    ensures |r| == |pm|
    ensures forall i :: 0 <= i < |pm| ==> r[i] == Add(pm[i], v)
  {
    seq(|pm|, i requires 0 <= i < |pm| => Add(pm[i], v))
  }

  lemma SqNormNonNegative(a: Vec)
    ensures SqNorm(a) >= 0.0
  {
    assert a.x * a.x >= 0.0 && a.y * a.y >= 0.0 && a.z * a.z >= 0.0;
  }

  /** The square root is determined by its two properties. */
  lemma SqrtUnique(sqrt: real -> real, x: real, y: real)
    requires IsSqrt(sqrt)
    requires 0.0 <= y && y * y == x
    ensures sqrt(x) == y
  {
    var s := sqrt(x);
    assert 0.0 <= s && s * s == x;
    assert (s - y) * (s + y) == 0.0;
    ProductZero(s - y, s + y);
  }

  lemma ProductZero(a: real, b: real)
    requires a * b == 0.0
    ensures a == 0.0 || b == 0.0
  {
    if a != 0.0 {
      assert b == (a * b) / a;
    }
  }

  lemma SquareZero(x: real)
    requires x * x == 0.0
    ensures x == 0.0
  {
    ProductZero(x, x);
  }

  /** `euclidean` is symmetric. */
  lemma DistanceSymmetric(sqrt: real -> real, a: Vec, b: Vec)
    ensures Distance(sqrt, a, b) == Distance(sqrt, b, a)
  {
    assert SqDist(a, b) == SqDist(b, a);
  }

  /** Only the zero vector has squared norm zero. */
  lemma SqNormZero(d: Vec)
    requires SqNorm(d) == 0.0
    ensures d == Zero
  {
    assert d.x * d.x >= 0.0 && d.y * d.y >= 0.0 && d.z * d.z >= 0.0;
    SquareZero(d.x);
    SquareZero(d.y);
    SquareZero(d.z);
  }

  /** The square root of a non-negative number is non-negative, and zero only for zero. */
  lemma SqrtZeroIff(sqrt: real -> real, q: real)
    requires IsSqrt(sqrt)
    requires q >= 0.0
    ensures sqrt(q) >= 0.0
    ensures sqrt(q) == 0.0 <==> q == 0.0
  {
    var s := sqrt(q);
    assert s * s == q;
    if q == 0.0 {
      SquareZero(s);
    }
  }

  /** Only coincident points are at distance zero. */
  lemma DistanceZeroIff(sqrt: real -> real, a: Vec, b: Vec)
    requires IsSqrt(sqrt)
    ensures Distance(sqrt, a, b) >= 0.0
    ensures Distance(sqrt, a, b) == 0.0 <==> a == b
  {
    var d := Sub(a, b);
    SqNormNonNegative(d);
    SqrtZeroIff(sqrt, SqNorm(d));
    SubZero(a, b);
    if SqNorm(d) == 0.0 {
      SqNormZero(d);
    }
  }

  lemma SubZero(a: Vec, b: Vec)
    ensures Sub(a, b) == Zero <==> a == b
  {
  }

  /** Dividing a non-zero vector by its norm gives a unit vector. */
  lemma NormalizedIsUnit(sqrt: real -> real, v: Vec)
    requires IsSqrt(sqrt)
    requires SqNorm(v) > 0.0
    ensures Norm(sqrt, v) > 0.0
    ensures SqNorm(Scale(v, 1.0 / Norm(sqrt, v))) == 1.0
  {
    var n := Norm(sqrt, v);
    assert n * n == SqNorm(v);
    assert n != 0.0;
    var c := 1.0 / n;
    assert SqNorm(Scale(v, c)) == c * c * SqNorm(v);
    assert c * c * (n * n) == 1.0;
  }

  lemma ApplyIdentity(v: Vec)
    ensures Apply(Identity, v) == v
  {
  }
}
