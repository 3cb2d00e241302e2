/**
 * The envelope-rate calculator `calc_rate`: twice the nominal rate plus the
 * key code scaled down by the key-scale setting, saturated at the 6-bit
 * maximum 63.
 */
module Rate {
  /** The largest rate the chip's 6-bit rate field holds. */
  const MAX_RATE := 63

  function Pow2(n: nat): (p: nat)
    ensures p >= 1
  {
    if n == 0 then 1 else 2 * Pow2(n - 1)
  }

  /**
   * Python's `x >> n` on unbounded integers: n halvings, each rounding toward
   * negative infinity, which is floor division by 2^n.
   */
  function ShiftRight(x: int, n: nat): (r: int)
    ensures r * Pow2(n) <= x < (r + 1) * Pow2(n)
    decreases n
  {
    if n == 0 then x
    else
      var q := ShiftRight(x / 2, n - 1);
      HalvingStep(x, n, q);
      q
  }

  /** One more halving: bracketing x / 2 by multiples of 2^(n-1) brackets x by multiples of 2^n. */
  lemma HalvingStep(x: int, n: nat, q: int)
    requires n > 0 && q * Pow2(n - 1) <= x / 2 < (q + 1) * Pow2(n - 1)
    ensures q * Pow2(n) <= x < (q + 1) * Pow2(n)
  {
    var p := Pow2(n - 1);
    var lo, hi := q * p, (q + 1) * p;
    assert q * Pow2(n) == 2 * lo by {
      assert Pow2(n) == 2 * p;
    }
    assert (q + 1) * Pow2(n) == 2 * hi by {
      assert Pow2(n) == 2 * p;
    }
    assert 2 * (x / 2) <= x <= 2 * (x / 2) + 1;
  }

  lemma MulCancelLess(a: int, b: int, p: int)
    requires p > 0 && a * p < b * p
    ensures a < b
  {
    assert (b - a) * p == b * p - a * p;
  }

  /** Floor division is the only quotient that brackets x between consecutive multiples of p. */
  lemma FloorUnique(x: int, p: int, q: int)
    requires p > 0 && q * p <= x < (q + 1) * p
    ensures q == x / p
  {
    var d := x / p;
    assert d * p + x % p == x;
    MulCancelLess(q, d + 1, p);
    MulCancelLess(d, q + 1, p);
  }

  lemma ShiftRightIsFloorDivision(x: int, n: nat)
    ensures ShiftRight(x, n) == x / Pow2(n)
  {
    FloorUnique(x, Pow2(n), ShiftRight(x, n));
  }

  /**
   * `calc_rate(r, kc, ks)`. Python raises on a negative shift count, so the
   * key scale may not exceed 5.
   */
  function CalcRate(r: int, kc: int, ks: int): (rate: int)
    requires ks <= 5
    ensures rate <= MAX_RATE
    ensures 2 * r + kc / Pow2(5 - ks) >= MAX_RATE ==> rate == MAX_RATE
    ensures 2 * r + kc / Pow2(5 - ks) < MAX_RATE ==> rate == 2 * r + kc / Pow2(5 - ks)
  {
    ShiftRightIsFloorDivision(kc, 5 - ks);
    var rate := 2 * r + ShiftRight(kc, 5 - ks);
    if rate >= MAX_RATE then MAX_RATE else rate
  }

  /** For non-negative arguments the rate is a valid 6-bit value. */
  lemma CalcRateRange(r: int, kc: int, ks: int)
    requires 0 <= r && 0 <= kc && 0 <= ks <= 5
    ensures 0 <= CalcRate(r, kc, ks) <= MAX_RATE
  {
    var p := Pow2(5 - ks);
    assert 0 * p <= kc;
    FloorUnique(kc, p, kc / p);
  }

  /** A higher key code never lowers the rate: key scaling only speeds envelopes up. */
  lemma CalcRateMonotoneInKeyCode(r: int, kc1: int, kc2: int, ks: int)
    requires ks <= 5 && kc1 <= kc2
    ensures CalcRate(r, kc1, ks) <= CalcRate(r, kc2, ks)
  {
    var p := Pow2(5 - ks);
    var q1, q2 := kc1 / p, kc2 / p;
    assert q1 * p + kc1 % p == kc1 && q2 * p + kc2 % p == kc2;
    MulCancelLess(q1, q2 + 1, p);
  }

  /** The release rate handed to the calculator, `rr*2+1`: always an odd rate code. */
  function ReleaseArg(rr: int): (arg: int)
    ensures arg % 2 == 1
    ensures (arg - 1) / 2 == rr
  {
    rr * 2 + 1
  }

  /** The worked examples: saturation and a sum left unclamped. */
  lemma CalcRateExamples()
    ensures CalcRate(31, 0x60, 0) == 63
    ensures CalcRate(21, 0x00, 0) == 42
    ensures CalcRate(ReleaseArg(15), 0x60, 0) == 63
  {
    assert Pow2(5) == 32;
  }
}
