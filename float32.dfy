/**
 * The part of IEEE-754 single precision that the outline code depends on:
 * NaN, the two infinities and finite values. Finite values are exact reals;
 * rounding of f32 arithmetic is not modelled.
 */
module Float32 {

  datatype F32 = NaN | Infinity(negative: bool) | Finite(value: real)

  /** Largest value of a `u32`. */
  const U32_MAX: nat := 0xFFFF_FFFF

  /**
   * `x > 0.0`; false for NaN, as every ordered comparison with NaN is. The
   * positive widths are exactly those whose doubled ceiling survives the
   * cast to `u32` as a non-zero count.
   */
  predicate IsPositive(x: F32): (p: bool)
    ensures p <==> SaturatingToU32(Ceil(Double(x))) >= 1
  {
    match x
    case NaN => false
    case Infinity(negative) => !negative
    case Finite(v) => v > 0.0
  }

  /** `x * 2.0`. Doubling is exact in binary floating point; an overflow to
      infinity only happens far above `U32_MAX`, where the cast below saturates
      either way. */
  function Double(x: F32): (d: F32)
    ensures d.Finite? <==> x.Finite?
    ensures x.Finite? ==> d.value / 2.0 == x.value
    ensures !x.Finite? ==> d == x
  {
    match x
    case NaN => NaN
    case Infinity(negative) => Infinity(negative)
    case Finite(v) => Finite(2.0 * v)
  }

  /** The least integer not below `r`. */
  function CeilReal(r: real): (c: int)
    ensures r <= c as real < r + 1.0
  {
    -((-r).Floor)
  }

  /** `x.ceil()`: the least integer not below `x`; NaN and the infinities are kept. */
  function Ceil(x: F32): (c: F32)
    ensures c.Finite? <==> x.Finite?
    ensures c.Finite? ==> c.value.Floor as real == c.value && x.value <= c.value < x.value + 1.0
    ensures !x.Finite? ==> c == x
  {
    match x
    case NaN => NaN
    case Infinity(negative) => Infinity(negative)
    case Finite(v) => Finite(CeilReal(v) as real)
  }

  /** `x as u32`: Rust's float-to-integer casts truncate toward zero and
      saturate at the bounds of the target type, and NaN becomes 0. */
  function SaturatingToU32(x: F32): (n: nat)
    ensures n <= U32_MAX
    ensures x.Finite? && 0.0 <= x.value < U32_MAX as real ==> n as real <= x.value < n as real + 1.0
    ensures x.Finite? && x.value >= U32_MAX as real ==> n == U32_MAX
    ensures x == Infinity(false) ==> n == U32_MAX
    ensures x.NaN? || (x.Finite? && x.value < 0.0) || x == Infinity(true) ==> n == 0
  {
    match x
    case NaN => 0
    case Infinity(negative) => if negative then 0 else U32_MAX
    case Finite(v) =>
      if v < 0.0 then 0
      else if v.Floor >= U32_MAX then U32_MAX
      else v.Floor
  }

  /** The cast preserves order on finite values. */
  lemma SaturatingToU32Monotone(x: real, y: real)
    requires x <= y
    ensures SaturatingToU32(Finite(x)) <= SaturatingToU32(Finite(y))
  {
    if 0.0 <= x && x.Floor < U32_MAX {
      assert x.Floor <= y.Floor;
    }
  }

  /** Rounding up preserves order. */
  lemma CeilRealMonotone(x: real, y: real)
    requires x <= y
    ensures CeilReal(x) <= CeilReal(y)
  {
    assert (CeilReal(x) - 1) as real < x;
  }
}
