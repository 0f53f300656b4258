/**
 * A model of an IEEE-754 single-precision value as far as this library
 * observes it: its bit pattern (`f32::to_bits`, used for equality and hashing
 * of gradient stops) and its numeric order (`f32::partial_cmp`).
 *
 * Each distinct constructor value stands for a distinct bit pattern: the sign
 * of zero is kept, and NaNs carry an abstract payload. Rounding to 24 bits of
 * precision is not modelled.
 */
module Float {
  import opened Wrappers

  type NonNegReal = x: real | 0.0 <= x witness 0.0

  datatype F32 =
    | Finite(negative: bool, magnitude: NonNegReal)
    | Infinite(negative: bool)
    | NaN(payload: nat)

  datatype Ordering = Less | Equal | Greater

  const PosZero: F32 := Finite(false, 0.0)
  const NegZero: F32 := Finite(true, 0.0)
  const One: F32 := Finite(false, 1.0)

  /** The numeric value of a finite float. */
  function Value(x: F32): real
    requires x.Finite?
  {
    var m: real := x.magnitude;
    if x.negative then -m else m
  }

  /** The float nearest to `x`; exact here, since rounding is not modelled.
      A zero is always the positive zero, as `0 as f32 / d` is. */
  function FromReal(x: real): (f: F32)
    ensures f.Finite? && Value(f) == x
    ensures x == 0.0 ==> f == PosZero
  {
    if x < 0.0 then Finite(true, -x) else Finite(false, x)
  }

  /** `a.to_bits() == b.to_bits()`: the bit patterns are identical. */
  predicate SameBits(a: F32, b: F32) {
    a == b
  }

  /** IEEE-754 `==`: NaN equals nothing, and the two zeros are equal. */
  predicate FloatEq(a: F32, b: F32) {
    match (a, b)
    case (Finite(_, _), Finite(_, _)) => Value(a) == Value(b)
    case (Infinite(n1), Infinite(n2)) => n1 == n2
    case _ => false
  }

  function CompareReals(x: real, y: real): Ordering {
    if x < y then Less else if x == y then Equal else Greater
  }

  /** `f32::partial_cmp`: `None` exactly when one side is a NaN. */
  function PartialCmp(a: F32, b: F32): (r: Option<Ordering>)
    ensures r.None? <==> a.NaN? || b.NaN?
  {
    match (a, b)
    case (NaN(_), _) => None
    case (_, NaN(_)) => None
    case (Infinite(n1), Infinite(n2)) =>
      Some(if n1 == n2 then Equal else if n1 then Less else Greater)
    case (Infinite(n1), Finite(_, _)) => Some(if n1 then Less else Greater)
    case (Finite(_, _), Infinite(n2)) => Some(if n2 then Greater else Less)
    case (Finite(_, _), Finite(_, _)) => Some(CompareReals(Value(a), Value(b)))
  }

  function Reverse(o: Ordering): Ordering {
    match o
    case Less => Greater
    case Equal => Equal
    case Greater => Less
  }

  /** The two zeros are numerically equal but have different bit patterns. */
  lemma SignedZeros()
    ensures FloatEq(PosZero, NegZero) && !SameBits(PosZero, NegZero)
    ensures PartialCmp(PosZero, NegZero) == Some(Equal)
  {
  }

  /** A NaN has its own bit pattern but is not IEEE-equal to itself. */
  lemma NaNSelf(n: F32)
    requires n.NaN?
    ensures SameBits(n, n) && !FloatEq(n, n) && PartialCmp(n, n).None?
  {
  }

  /** Away from NaN, equal bits imply IEEE equality; the converse fails only at zero. */
  lemma SameBitsRefinesFloatEq(a: F32, b: F32)
    requires !a.NaN? && !b.NaN?
    ensures SameBits(a, b) ==> FloatEq(a, b)
    ensures FloatEq(a, b) && !SameBits(a, b) ==> a.Finite? && b.Finite? && Value(a) == 0.0 == Value(b)
  {
  }

  /** `partial_cmp` reports `Equal` exactly when IEEE `==` holds. */
  lemma PartialCmpEqual(a: F32, b: F32)
    ensures PartialCmp(a, b) == Some(Equal) <==> FloatEq(a, b)
  {
  }

  /** Swapping the operands reverses the ordering. */
  lemma PartialCmpAntisymmetric(a: F32, b: F32)
    requires !a.NaN? && !b.NaN?
    ensures PartialCmp(b, a) == Some(Reverse(PartialCmp(a, b).value))
  {
  }
}
