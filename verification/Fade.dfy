/** The fade-out curve of Music_Emu: its gain halves every step blocks. */
module Fade {
  import opened Arith

  const UNIT: nat := 0x4000

  /** UNIT / 2^(x / step), interpolated linearly between the powers of two. */
  function IntLog(x: nat, step: nat): (gain: int)
    requires step > 0
  {
    var shift := x / step;
    var fraction := Fraction(x, step);
    FractionRange(x, step);
    DivMono(0, x, step);
    GainAt(shift, fraction)
  }

  function Fraction(x: nat, step: nat): int
    requires step > 0
  {
    (x - x / step * step) * UNIT / step
  }

  lemma FractionRange(x: nat, step: nat)
    requires step > 0
    ensures 0 <= x - x / step * step < step
    ensures 0 <= Fraction(x, step) < 0x4000
  {
    DivBounds(x, step);
    var r := x - x / step * step;
    DivMono(0, r * 0x4000, step);
    DivBounds(r * 0x4000, step);
    MulCancel(r * 0x4000 / step, 0x4000, step);
  }

  lemma {:induction false} HalvingMono(a: nat, m: nat, n: nat)
    requires m < n
    ensures 2 * a / Pow2(n) <= a / Pow2(m)
    decreases n
  {
    var p := Pow2(n - 1);
    assert 2 * a / (2 * p) == a / p by {
      DivBounds(a, p);
      DivIs(2 * a, 2 * p, a / p);
    }
    PowDivMono(a, m, n - 1);
  }

  lemma {:induction false} PowDivMono(a: nat, m: nat, n: nat)
    requires m <= n
    ensures a / Pow2(n) <= a / Pow2(m)
    decreases n
  {
    if m < n {
      PowDivMono(a, m, n - 1);
      DivByLess(a, Pow2(n), Pow2(n - 1));
    }
  }

  /** The gain at shift whole steps and a fraction below one. */
  function GainAt(shift: nat, fraction: nat): int {
    (UNIT - fraction + fraction / 2) / Pow2(shift)
  }

  lemma GainAtMono(shift: nat, f: nat, g: nat)
    requires f <= g <= 0x4000
    ensures 0 <= GainAt(shift, g) <= GainAt(shift, f)
  {
    var p := Pow2(shift);
    DivMono(0, 0x4000 - g + g / 2, p);
    DivMono(0x4000 - g + g / 2, 0x4000 - f + f / 2, p);
  }

  /** A whole step halves the gain, so no fraction matters against it. */
  lemma GainAtNext(m: nat, f: nat, n: nat, g: nat)
    requires m < n && f <= 0x4000 && g <= 0x4000
    ensures GainAt(n, g) <= GainAt(m, f)
  {
    hide Pow2;
    GainAtMono(n, 0, g);
    GainAtMono(m, f, 0x4000);
    HalvingMono(0x2000, m, n);
  }

  lemma GainAtMost(shift: nat)
    ensures GainAt(shift, 0) <= 0x4000
  {
    PowDivMono(0x4000, 0, shift);
  }

  lemma GainFalls(m: nat, f: nat, n: nat, g: nat)
    requires m < n || (m == n && f <= g)
    requires f <= 0x4000 && g <= 0x4000
    ensures 0 <= GainAt(n, g) <= GainAt(m, f) <= 0x4000
  {
    hide Pow2, GainAt;
    GainAtMono(m, 0, f);
    GainAtMost(m);
    GainAtMono(n, g, 0x4000);
    if m == n {
      GainAtMono(m, f, g);
    } else {
      GainAtNext(m, f, n, g);
    }
  }

  /** The gain only falls as time goes on, from unity at the start of the fade. */
  lemma IntLogMono(x: nat, y: nat, step: nat)
    requires step > 0 && x <= y
    ensures 0 <= IntLog(y, step) <= IntLog(x, step) <= 0x4000
  {
    hide Pow2, GainAt, Fraction;
    FractionRange(x, step);
    FractionRange(y, step);
    FractionMono(x, y, step);
    GainFalls(x / step, Fraction(x, step), y / step, Fraction(y, step));
  }

  /** Later is either a later step or further into the same one. */
  lemma FractionMono(x: nat, y: nat, step: nat)
    requires step > 0 && x <= y
    ensures 0 <= x / step <= y / step
    ensures x / step == y / step ==> Fraction(x, step) <= Fraction(y, step)
  {
    DivMono(0, x, step);
    DivMono(x, y, step);
    if x / step == y / step {
      DivMono((x - x / step * step) * 0x4000, (y - y / step * step) * 0x4000, step);
    }
  }

  /** The fade ends eight steps in: the gain is below 1/256 exactly once a further 1/0x4000 of a step
      has passed. */
  lemma FadeEndsExactly(x: nat, step: nat)
    requires step > 0
    ensures IntLog(x, step) < 0x4000 / 256 <==> (x - 8 * step) * 0x4000 >= step
  {
    hide IntLog;
    if x < 8 * step {
      IntLogMono(x, 8 * step, step);
      WholeSteps(step);
    } else if x < 9 * step {
      NinthStep(x, step);
    } else {
      IntLogMono(9 * step, x, step);
      WholeSteps(step);
    }
  }

  lemma WholeSteps(step: nat)
    requires step > 0
    ensures IntLog(8 * step, step) == 64 && IntLog(9 * step, step) == 32
  {
    DivIs(8 * step, step, 8);
    DivIs(9 * step, step, 9);
    DivIs(0, step, 0);
    assert Pow2(8) == 256;
    assert Pow2(9) == 512;
  }

  lemma NinthStep(x: nat, step: nat)
    requires 8 * step <= x < 9 * step
    ensures IntLog(x, step) < 64 <==> (x - 8 * step) * 0x4000 >= step
  {
    DivIs(x, step, 8);
    FractionRange(x, step);
    var r := (x - 8 * step) * 0x4000;
    DivBounds(r, step);
    if r < step {
      DivIs(r, step, 0);
    } else {
      DivMono(step, r, step);
      DivIs(step, step, 1);
    }
    assert Pow2(8) == 256;
    NinthGain(Fraction(x, step));
  }

  lemma NinthGain(fraction: nat)
    requires fraction < 0x4000
    ensures (0x4000 - fraction + fraction / 2) / 256 < 64 <==> fraction >= 1
  {
  }

  /** For steps up to 0x4000 that is the very next block. */
  lemma FadeEnds(x: nat, step: nat)
    requires 0 < step <= 0x4000
    ensures IntLog(x, step) < 0x4000 / 256 <==> x > 8 * step
  {
    hide IntLog;
    FadeEndsExactly(x, step);
  }

  lemma PowNext(n: nat)
    ensures Pow2(n + 1) == 2 * Pow2(n)
  {
  }

  /** The gain is that of the exact fade, rounded down: shift whole steps halve it that often, and in
      between it falls in a straight line, whose position f is counted in 1/0x4000 of a step. */
  lemma IntLogExact(x: nat, step: nat) returns (shift: nat, rest: nat, f: nat)
    requires step > 0
    ensures x == shift * step + rest && rest < step
    ensures f * step <= rest * 0x4000 < (f + 1) * step
    ensures IntLog(x, step) * Pow2(shift + 1) <= 2 * 0x4000 - f < (IntLog(x, step) + 1) * Pow2(shift + 1)
  {
    hide Pow2;
    DivMono(0, x, step);
    FractionRange(x, step);
    shift, f := x / step, Fraction(x, step);
    rest := x - shift * step;
    DivBounds(rest * 0x4000, step);
    assert (f + 1) * step == f * step + step;
    PowNext(shift);
    GainIs(0x4000 - f + f / 2, Pow2(shift), IntLog(x, step), f);
  }

  lemma GainIs(v: nat, p: nat, g: int, f: nat)
    requires p > 0 && g == v / p && v == 0x4000 - f + f / 2
    ensures g * (2 * p) <= 2 * 0x4000 - f < (g + 1) * (2 * p)
  {
    DivBounds(v, p);
    assert g * (2 * p) == 2 * (g * p) && (g + 1) * (2 * p) == 2 * (g * p) + 2 * p;
  }

  /** A 16-bit sample times the gain, shifted down arithmetically. */
  function Faded(x: int, gain: int): int {
    x * gain / UNIT
  }

  lemma FadedFits(x: int, gain: int)
    requires -0x8000 <= x <= 0x7FFF && 0 <= gain <= UNIT
    ensures -0x8000 <= Faded(x, gain) <= 0x7FFF
  {
    MulMono(-0x8000, x, gain);
    MulMono(x, 0x7FFF, gain);
  }

  /** y is x times gain / 0x4000, rounded down. */
  predicate RoundsDown(y: int, x: int, gain: int) {
    y * 0x4000 <= x * gain < (y + 1) * 0x4000
  }

  lemma FadedIs(x: int, gain: int)
    ensures RoundsDown(Faded(x, gain), x, gain)
  {
    DivBounds(x * gain, 0x4000);
  }

  /** Of the same sample x, y is what is left after z was left: between z and 0, and z between x and 0. A
      negative sample may be left at -1. */
  predicate NotLouder(y: int, z: int, x: int) {
    if x >= 0 then 0 <= y <= z <= x else x <= z <= y <= 0
  }

  /** The lower of two gains leaves less of a sample, and unity gain leaves it as it is. */
  lemma LowerGain(x: int, g: int, h: int, y: int, z: int)
    requires 0 <= h <= g <= 0x4000 && RoundsDown(z, x, g) && RoundsDown(y, x, h)
    ensures NotLouder(y, z, x)
    ensures g == 0x4000 ==> z == x
  {
    if x >= 0 {
      MulMono(0, h, x);
      MulMono(h, g, x);
      MulMono(g, 0x4000, x);
      Between(0, y, z, x, x * h, x * g);
    } else {
      MulMono(0, h, -x);
      MulMono(h, g, -x);
      MulMono(g, 0x4000, -x);
      Between(x, z, y, 0, x * g, x * h);
    }
  }

  /** Rounding down by a 14-bit shift keeps the order. */
  lemma Between(lo: int, y: int, z: int, hi: int, p: int, q: int)
    requires lo * 0x4000 <= p <= q <= hi * 0x4000
    requires y * 0x4000 <= p < (y + 1) * 0x4000 && z * 0x4000 <= q < (z + 1) * 0x4000
    ensures lo <= y <= z <= hi
  {
  }
}
