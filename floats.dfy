/**
 * Float64 energies as far as the potentials and the acceptance test need them:
 * exact real values plus IEEE-754's three special values. Rounding and overflow
 * are not modelled; what is modelled is how numpy propagates a division by a
 * zero distance (to an infinity, then to NaN) and how NaN compares.
 */
module Floats {

  datatype Energy = Finite(value: real) | PosInf | NegInf | NaN

  /** `a + b` */
  function Add(a: Energy, b: Energy): Energy
  {
    match (a, b)
    case (NaN, _) => NaN
    case (_, NaN) => NaN
    case (PosInf, NegInf) => NaN
    case (NegInf, PosInf) => NaN
    case (PosInf, _) => PosInf
    case (_, PosInf) => PosInf
    case (NegInf, _) => NegInf
    case (_, NegInf) => NegInf
    case (Finite(x), Finite(y)) => Finite(x + y)
  }

  /** `-a` */
  function Neg(a: Energy): Energy
  {
    match a
    case Finite(x) => Finite(-x)
    case PosInf => NegInf
    case NegInf => PosInf
    case NaN => NaN
  }

  /** `a - b` */
  function Sub(a: Energy, b: Energy): Energy
  {
    Add(a, Neg(b))
  }

  /** `a * b`; zero times an infinity is NaN. */
  function Times(a: Energy, b: Energy): Energy
  {
    match (a, b)
    case (NaN, _) => NaN
    case (_, NaN) => NaN
    case (Finite(x), Finite(y)) => Finite(x * y)
    case (Finite(x), _) => if x == 0.0 then NaN else if x > 0.0 then b else Neg(b)
    case (_, Finite(y)) => if y == 0.0 then NaN else if y > 0.0 then a else Neg(a)
    case (PosInf, _) => b
    case (NegInf, _) => Neg(b)
  }

  /** `x / d` for a float `x` and a non-negative float `d` (a distance). */
  function Div(x: real, d: real): Energy
  {
    if d != 0.0 then Finite(x / d)
    else if x > 0.0 then PosInf
    else if x < 0.0 then NegInf
    else NaN
  }

  /** `a ** n` for an integral exponent; as in IEEE-754, anything to the power 0 is 1. */
  function Pow(a: Energy, n: nat): Energy
  {
    if n == 0 then Finite(1.0) else Times(a, Pow(a, n - 1))
  }

  /** The real power used when the base is finite. */
  function RealPow(x: real, n: nat): real
  {
    if n == 0 then 1.0 else x * RealPow(x, n - 1)
  }

  /** `a < b`; false whenever a NaN is involved. */
  predicate Less(a: Energy, b: Energy)
  {
    match (a, b)
    case (Finite(x), Finite(y)) => x < y
    case (NegInf, Finite(_)) => true
    case (NegInf, PosInf) => true
    case (Finite(_), PosInf) => true
    case _ => false
  }

  /** `a > u` for a finite float `u`; false for NaN. */
  predicate Exceeds(a: Energy, u: real)
  {
    match a
    case Finite(x) => x > u
    case PosInf => true
    case _ => false
  }

  /** numpy's `exp`, given the real exponential `exp` on finite arguments. */
  function Exp(exp: real -> real, a: Energy): Energy
  {
    match a
    case Finite(x) => Finite(exp(x))
    case PosInf => PosInf
    case NegInf => Finite(0.0)
    case NaN => NaN
  }

  /** The properties of the real exponential that the acceptance test relies on. */
  ghost predicate IsExp(exp: real -> real)
  {
    && exp(0.0) == 1.0
    && (forall x :: exp(x) > 0.0)
    && (forall x, y :: x < y ==> exp(x) < exp(y))
  }

  lemma PowOfFinite(x: real, n: nat)
    ensures Pow(Finite(x), n) == Finite(RealPow(x, n))
  {
    if n > 0 {
      PowOfFinite(x, n - 1);
    }
  }

  lemma PowOfNaN(n: nat)
    requires n > 0
    ensures Pow(NaN, n) == NaN
  {
  }

  /** An infinity raised to a positive power stays infinite. */
  lemma {:induction false} PowOfInfinity(a: Energy, n: nat)
    requires a == PosInf || a == NegInf
    requires n > 0
    ensures Pow(a, n) == if n % 2 == 0 then PosInf else a
  {
    if n > 1 {
      PowOfInfinity(a, n - 1);
    }
  }

  lemma AddCommutes(a: Energy, b: Energy)
    ensures Add(a, b) == Add(b, a)
  {
  }

  lemma AddAssociates(a: Energy, b: Energy, c: Energy)
    ensures Add(Add(a, b), c) == Add(a, Add(b, c))
  {
  }

  /** `x ** (a + b) == x ** a * x ** b` */
  lemma {:induction false} RealPowAdd(x: real, a: nat, b: nat)
    ensures RealPow(x, a + b) == RealPow(x, a) * RealPow(x, b)
  {
    if a > 0 {
      RealPowAdd(x, a - 1, b);
      assert RealPow(x, a + b) == x * RealPow(x, a - 1 + b);
      assert x * (RealPow(x, a - 1) * RealPow(x, b)) == (x * RealPow(x, a - 1)) * RealPow(x, b);
    }
  }

  /** Positive powers of a number above one stay above one, of a number in (0, 1) stay in (0, 1). */
  lemma {:induction false} RealPowBounds(x: real, n: nat)
    requires x > 0.0 && n > 0
    ensures RealPow(x, n) > 0.0
    ensures x > 1.0 ==> RealPow(x, n) > 1.0
    ensures x < 1.0 ==> RealPow(x, n) < 1.0
    ensures x == 1.0 ==> RealPow(x, n) == 1.0
  {
    if n > 1 {
      RealPowBounds(x, n - 1);
      var y := RealPow(x, n - 1);
      assert RealPow(x, n) == x * y;
      if x > 1.0 {
        assert x * y > 1.0 * y;
      } else if x < 1.0 {
        assert x * y < 1.0 * y;
      }
    }
  }

  /** Zero is the identity of the addition, on every value. */
  lemma AddZero(a: Energy)
    ensures Add(Finite(0.0), a) == a && Add(a, Finite(0.0)) == a
  {
  }
}
