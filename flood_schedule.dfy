/**
 * How many jump-flood rounds the outline mask node runs, and with which step
 * indices (src/mask_node.rs, the `passes` expression and the round loop).
 *
 * The width of the widest outline in view is doubled, rounded up and cast to
 * `u32` (saturating); with `c` that value, the node runs
 * `(c / 2 + 1).next_power_of_two().trailing_zeros() + 1` rounds when the width
 * is positive and none otherwise. Round `i` (0-based) uses step index
 * `passes - 1 - i`, i.e. the step `2^(passes-1-i)` pixels.
 */
module FloodSchedule {

  import opened Float32

  function Pow2(k: nat): (p: nat)
    ensures p >= 1
  {
    if k == 0 then 1 else 2 * Pow2(k - 1)
  }

  /** The least `k` with `2^k >= n`. */
  function CeilLog2(n: nat): nat
    requires n >= 1
    decreases n
  {
    if n == 1 then 0 else 1 + CeilLog2((n + 1) / 2)
  }

  /**
   * `u32::next_power_of_two` on an argument that does not overflow: the
   * power of two that `CeilLog2` names, i.e. the least one not below `n`.
   */
  function NextPowerOfTwo(n: nat): (r: nat)
    requires n >= 1
    ensures r == Pow2(CeilLog2(n))
    decreases n
  {
    if n == 1 then 1 else 2 * NextPowerOfTwo((n + 1) / 2)
  }

  /**
   * `u32::trailing_zeros` on a non-zero argument: `2^t` divides `x` and the
   * quotient is odd.
   */
  function TrailingZeros(x: nat): (t: nat)
    requires x >= 1
    ensures x % Pow2(t) == 0 && (x / Pow2(t)) % 2 == 1
    decreases x
  {
    if x % 2 == 1 then 0
    else
      var t := TrailingZeros(x / 2);
      DoubledDivisor(x, Pow2(t));
      1 + t
  }

  /** A multiple of `d` divides by `d` exactly. */
  lemma MultipleDivides(d: int, m: int)
    requires d >= 1
    ensures (d * m) / d == m && (d * m) % d == 0
  {
    var q, r := (d * m) / d, (d * m) % d;
    assert d * (m - q) == r;
  }

  /** If `p` divides half of an even `x` with an odd quotient, `2p` divides `x` with the same quotient. */
  lemma DoubledDivisor(x: nat, p: nat)
    requires x % 2 == 0 && p >= 1 && (x / 2) % p == 0 && ((x / 2) / p) % 2 == 1
    ensures x % (2 * p) == 0 && (x / (2 * p)) % 2 == 1
  {
    var m := (x / 2) / p;
    assert x / 2 == p * m;
    assert x == (2 * p) * m;
    MultipleDivides(2 * p, m);
  }

  lemma {:induction false} CeilLog2Bounds(n: nat)
    requires n >= 1
    ensures Pow2(CeilLog2(n)) >= n
    ensures n >= 2 ==> Pow2(CeilLog2(n) - 1) < n
    decreases n
  {
    if n > 1 {
      CeilLog2Bounds((n + 1) / 2);
    }
  }

  lemma {:induction false} CeilLog2Monotone(m: nat, n: nat)
    requires 1 <= m <= n
    ensures CeilLog2(m) <= CeilLog2(n)
    decreases n
  {
    if m > 1 {
      CeilLog2Monotone((m + 1) / 2, (n + 1) / 2);
    }
  }

  lemma {:induction false} CeilLog2OfPow2(k: nat)
    ensures CeilLog2(Pow2(k)) == k
  {
    if k > 0 {
      CeilLog2OfPow2(k - 1);
      assert (Pow2(k) + 1) / 2 == Pow2(k - 1);
    }
  }

  /** `trailing_zeros` of `2^k` is `k`. */
  lemma {:induction false} TrailingZerosOfPow2(k: nat)
    ensures TrailingZeros(Pow2(k)) == k
  {
    if k > 0 {
      TrailingZerosOfPow2(k - 1);
      assert Pow2(k) % 2 == 0 && Pow2(k) / 2 == Pow2(k - 1);
    }
  }

  /**
   * `(width * 2.0).ceil() as u32`: non-zero exactly for positive widths,
   * `ceil(2w)` itself while that fits a `u32`, and `u32::MAX` above.
   */
  function CeilDoubled(width: F32): (c: nat)
    ensures c <= U32_MAX
    ensures c >= 1 <==> IsPositive(width)
    ensures width.Finite? && 0.0 <= width.value && 2.0 * width.value <= U32_MAX as real ==>
      2.0 * width.value <= c as real < 2.0 * width.value + 1.0
    ensures width == Infinity(false) || (width.Finite? && 2.0 * width.value >= U32_MAX as real) ==> c == U32_MAX
  {
    SaturatingToU32(Ceil(Double(width)))
  }

  /** The round count once `c = ceil(2w)` is known and the width is positive. */
  function PassesForCeil(c: nat): nat
    requires c <= U32_MAX
  {
    TrailingZeros(NextPowerOfTwo(c / 2 + 1)) + 1
  }

  /**
   * The round count is `ceil_log2(c/2 + 1) + 1`, between 1 and 32; its largest
   * step `2^(passes-1)` reaches `c/2 + 1`, and no shorter power-of-two
   * schedule does. `next_power_of_two` never exceeds `2^31`, so it cannot
   * overflow a `u32`.
   */
  lemma PassesForCeilIsLog(c: nat)
    requires c <= U32_MAX
    ensures PassesForCeil(c) == CeilLog2(c / 2 + 1) + 1
  {
    TrailingZerosOfPow2(CeilLog2(c / 2 + 1));
  }

  lemma PassesForCeilSpec(c: nat)
    requires c <= U32_MAX
    ensures PassesForCeil(c) == CeilLog2(c / 2 + 1) + 1
    ensures 1 <= PassesForCeil(c) <= 32
    ensures NextPowerOfTwo(c / 2 + 1) <= Pow2(31)
    ensures Pow2(PassesForCeil(c) - 1) >= c / 2 + 1
    ensures PassesForCeil(c) >= 2 ==> Pow2(PassesForCeil(c) - 2) < c / 2 + 1
  {
    var n := c / 2 + 1;
    PassesForCeilIsLog(c);
    Pow2Of31();
    CeilLog2Monotone(n, Pow2(31));
    CeilLog2OfPow2(31);
    CeilLog2Bounds(n);
    Pow2Monotone(CeilLog2(n), 31);
  }

  lemma Pow2Of31()
    ensures Pow2(31) == 0x8000_0000
  {
    assert Pow2(8) == 0x100;
    assert Pow2(16) == 0x1_0000;
    assert Pow2(24) == 0x100_0000;
  }

  lemma {:induction false} Pow2Monotone(i: nat, j: nat)
    requires i <= j
    ensures Pow2(i) <= Pow2(j)
    decreases j
  {
    if i < j {
      Pow2Monotone(i, j - 1);
    }
  }

  /** The number of flood rounds for the widest outline width in view. */
  function FloodPasses(width: F32): (passes: nat)
    ensures passes == 0 <==> !IsPositive(width)
    ensures passes <= 32
  {
    if IsPositive(width) then
      PassesForCeilSpec(CeilDoubled(width));
      PassesForCeil(CeilDoubled(width))
    else
      0
  }

  /** Widths that are not positive (zero, negative, NaN, minus infinity) run no round. */
  lemma NonPositiveWidthRunsNoRound(width: F32)
    requires width.NaN? || width == Infinity(true) || (width.Finite? && width.value <= 0.0)
    ensures FloodPasses(width) == 0
  {
  }

  /**
   * For a positive width whose double fits a `u32`, the largest step exceeds
   * the width, and the schedule is the shortest power-of-two one that reaches
   * `ceil(2w)/2 + 1`.
   */
  lemma LargestStepCoversWidth(width: F32)
    requires width.Finite? && 0.0 < width.value && 2.0 * width.value <= U32_MAX as real
    ensures 1 <= FloodPasses(width) <= 32
    ensures Pow2(FloodPasses(width) - 1) as real > width.value
    ensures FloodPasses(width) >= 2 ==> Pow2(FloodPasses(width) - 2) < CeilDoubled(width) / 2 + 1
  {
    var c := CeilDoubled(width);
    var half := c / 2 + 1;
    assert half as real > width.value by {
      assert 2 * half >= c + 1;
      assert 2.0 * (half as real) >= c as real + 1.0;
    }
    PassesForCeilSpec(c);
    assert FloodPasses(width) == PassesForCeil(c);
  }

  /** A width too large for the cast saturates to the longest schedule. */
  lemma SaturatedWidthRunsAllRounds(width: F32)
    requires width == Infinity(false) || (width.Finite? && 2.0 * width.value >= U32_MAX as real)
    ensures FloodPasses(width) == 32
  {
    var c := CeilDoubled(width);
    assert c == U32_MAX;
    PassesForCeilSpec(c);
    Pow2Of31();
    assert c / 2 + 1 == Pow2(31);
    CeilLog2OfPow2(31);
  }

  lemma CeilDoubledMonotone(narrow: F32, wide: F32)
    requires narrow.Finite? && wide.Finite? && narrow.value <= wide.value
    ensures CeilDoubled(narrow) <= CeilDoubled(wide)
  {
    CeilRealMonotone(2.0 * narrow.value, 2.0 * wide.value);
    SaturatingToU32Monotone(CeilReal(2.0 * narrow.value) as real, CeilReal(2.0 * wide.value) as real);
  }

  lemma PassesForCeilMonotone(cn: nat, cw: nat)
    requires cn <= cw <= U32_MAX
    ensures PassesForCeil(cn) <= PassesForCeil(cw)
  {
    PassesForCeilIsLog(cn);
    PassesForCeilIsLog(cw);
    CeilLog2Monotone(cn / 2 + 1, cw / 2 + 1);
  }

  /** A wider outline never gets fewer rounds. */
  lemma FloodPassesMonotone(narrow: F32, wide: F32)
    requires narrow.Finite? && wide.Finite? && narrow.value <= wide.value
    ensures FloodPasses(narrow) <= FloodPasses(wide)
  {
    if IsPositive(narrow) {
      CeilDoubledMonotone(narrow, wide);
      PassesForCeilMonotone(CeilDoubled(narrow), CeilDoubled(wide));
    }
  }

  /** The step indices the round loop passes: `passes-1, passes-2, ..., 0`. */
  function RoundSizes(passes: nat): seq<nat>
  {
    if passes == 0 then [] else [passes - 1] + RoundSizes(passes - 1)
  }

  /**
   * The rounds use every step index below `passes` exactly once, in strictly
   * decreasing order.
   */
  lemma {:induction false} RoundSizesSchedule(passes: nat)
    ensures |RoundSizes(passes)| == passes
    ensures forall i | 0 <= i < passes :: RoundSizes(passes)[i] == passes - 1 - i
    ensures forall i, j | 0 <= i < j < passes :: RoundSizes(passes)[i] > RoundSizes(passes)[j]
    ensures forall k: nat :: k in RoundSizes(passes) <==> k < passes
  {
    if passes > 0 {
      RoundSizesSchedule(passes - 1);
      assert RoundSizes(passes) == [passes - 1] + RoundSizes(passes - 1);
      forall k: nat
        ensures k in RoundSizes(passes) <==> k < passes
      {
        assert k in RoundSizes(passes) <==> k == passes - 1 || k in RoundSizes(passes - 1);
      }
    }
  }

  /** An outline 10 pixels wide gets five rounds: steps 16, 8, 4, 2 and 1. */
  lemma TenPixelOutline()
    ensures FloodPasses(Finite(10.0)) == 5
    ensures RoundSizes(5) == [4, 3, 2, 1, 0]
  {
    assert CeilDoubled(Finite(10.0)) == 20;
    assert NextPowerOfTwo(11) == 16;
    assert TrailingZeros(16) == 4;
  }
}
