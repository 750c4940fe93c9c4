/** The fixed-point chip resampler of VGMPlay: one output sample per call, drawn from a chip that
    runs at its own rate. A position in the chip stream is counted in ticks of 1/2048 sample. */
module Resampler {
  import opened Arith

  /** One stereo sample. */
  datatype Wave = Wave(left: int, right: int)

  const SILENCE := Wave(0, 0)

  function Plus(v: Wave, w: Wave): Wave {
    Wave(v.left + w.left, v.right + w.right)
  }

  function Scale(w: Wave, k: int): Wave {
    Wave(w.left * k, w.right * k)
  }

  /** Weighted sum -> output contribution: times the volume, divided by the weight, cut to INT32. */
  function Output(sum: Wave, volume: int, weight: int): Wave
    requires weight > 0
  {
    Wave(Int32(TruncDiv(sum.left * volume, weight)), Int32(TruncDiv(sum.right * volume, weight)))
  }

  function Fp2iFloor(x: nat): nat { x / 2048 }

  function Fp2iCeil(x: nat): nat { (x + 2048 - 1) / 2048 }

  // ---------------------------------------------------------------- whole-stream definitions

  /** Start of the n-th output in the chip stream, in ticks. */
  function Pos(n: nat, smpRate: nat, sampleRate: nat): nat
    requires sampleRate > 0
  {
    2048 * n * smpRate / sampleRate
  }

  /** Linear interpolation of the whole chip stream at a tick position; on a sample boundary
      the next sample is not looked at. */
  function Interpolate(chip: nat -> Wave, pos: nat): Wave {
    if pos % 2048 == 0 then Scale(chip(pos / 2048), 2048)
    else Plus(Scale(chip(pos / 2048), 2048 - pos % 2048), Scale(chip(pos / 2048 + 1), pos % 2048))
  }

  /** The integral of the chip stream over the ticks [a, b), each tick holding its sample. */
  ghost function TickSum(chip: nat -> Wave, a: nat, b: nat): Wave
    decreases b - a
  {
    if b <= a then SILENCE else Plus(TickSum(chip, a, b - 1), chip((b - 1) / 2048))
  }

  /** The same integral over a buffer. */
  ghost function SeqTicks(buf: seq<Wave>, a: nat, b: nat): Wave
    requires b <= 2048 * |buf|
    decreases b - a
  {
    if b <= a then SILENCE else Plus(SeqTicks(buf, a, b - 1), buf[(b - 1) / 2048])
  }

  /** Ticks in every downsampling window. */
  function WindowTicks(smpRate: nat, sampleRate: nat): nat
    requires sampleRate > 0
  {
    2048 * smpRate / sampleRate
  }

  /** The n-th output contribution as a direct function of the whole chip stream. */
  ghost function Direct(chip: nat -> Wave, n: nat, smpRate: nat, sampleRate: nat, volume: nat): Wave
    requires 0 < smpRate && 0 < sampleRate
  {
    var pos, ticks := Pos(n, smpRate, sampleRate), WindowTicks(smpRate, sampleRate);
    if smpRate < sampleRate || ticks <= 0 then Output(Interpolate(chip, pos), volume, 2048)
    else Output(TickSum(chip, pos, pos + ticks), volume, ticks)
  }

  // ---------------------------------------------------------------- facts about the definitions

  lemma TickFacts(x: nat) returns (i: nat, f: nat)
    ensures x == 2048 * i + f && f < 2048
    ensures x / 2048 == i && x % 2048 == f
    ensures Fp2iCeil(x) == i + if f == 0 then 0 else 1
    ensures (2048 - x) % 2048 == if f == 0 then 0 else 2048 - f
  {
    i, f := x / 2048, x % 2048;
    assert Fp2iCeil(x) == i + if f == 0 then 0 else 1 by {
      assert x + 2047 == 2048 * (i + if f == 0 then 0 else 1) + if f == 0 then 2047 else f - 1;
    }
    NFriction(x, i, f);
  }

  lemma NFriction(x: nat, i: int, f: nat)
    requires x == 2048 * i + f && f < 2048
    ensures (2048 - x) % 2048 == if f == 0 then 0 else 2048 - f
  {
    DivIs(2048 - x, 2048, if f == 0 then 1 - i else -i);
  }

  /** base outputs and offset chip samples cover exactly the same time. */
  ghost predicate Aligned(base: nat, offset: nat, smpRate: nat, sampleRate: nat) {
    base * smpRate == offset * sampleRate
  }

  lemma AtStart(smpRate: nat, sampleRate: nat)
    requires sampleRate > 0
    ensures Aligned(0, 0, smpRate, sampleRate) && Pos(0, smpRate, sampleRate) == 0 && Fp2iCeil(0) == 0
  {
  }

  /** Rebasing by aligned amounts moves positions by whole samples, without rounding. */
  lemma PosShift(n: nat, base: nat, offset: nat, smpRate: nat, sampleRate: nat)
    requires sampleRate > 0 && Aligned(base, offset, smpRate, sampleRate)
    ensures Pos(n + base, smpRate, sampleRate) == Pos(n, smpRate, sampleRate) + 2048 * offset
  {
    assert 2048 * (n + base) * smpRate == 2048 * n * smpRate + 2048 * offset * sampleRate by {
      assert (n + base) * smpRate == n * smpRate + base * smpRate;
    }
    DivShift(2048 * n * smpRate, 2048 * offset, sampleRate);
  }

  lemma AlignedStep(base: nat, offset: nat, smpRate: nat, sampleRate: nat)
    requires Aligned(base, offset, smpRate, sampleRate)
    ensures Aligned(base + sampleRate, offset + smpRate, smpRate, sampleRate)
  {
    assert (base + sampleRate) * smpRate == base * smpRate + sampleRate * smpRate;
    assert (offset + smpRate) * sampleRate == offset * sampleRate + smpRate * sampleRate;
  }

  /** Windows tile the stream: the next one starts at the end of this one or one tick later. */
  lemma WindowsTile(n: nat, smpRate: nat, sampleRate: nat)
    requires sampleRate > 0
    ensures Pos(n, smpRate, sampleRate) + WindowTicks(smpRate, sampleRate) <= Pos(n + 1, smpRate, sampleRate)
            <= Pos(n, smpRate, sampleRate) + WindowTicks(smpRate, sampleRate) + 1
  {
    var a, d := 2048 * n * smpRate, 2048 * smpRate;
    assert 2048 * (n + 1) * smpRate == a + d;
    FloorOfSum(a, d, sampleRate);
  }

  lemma FloorOfSum(a: nat, d: nat, b: int)
    requires b > 0
    ensures a / b + d / b <= (a + d) / b <= a / b + d / b + 1
  {
    DivBounds(a, b);
    DivBounds(d, b);
    var q := a / b + d / b;
    assert q * b == a / b * b + d / b * b;
    if a + d < q * b + b {
      DivIs(a + d, b, q);
    } else {
      assert (q + 1) * b == q * b + b;
      DivIs(a + d, b, q + 1);
    }
  }

  /** Over one second of output the skipped ticks add up to (2048 * smpRate) mod sampleRate. */
  lemma GapsPerSecond(smpRate: nat, sampleRate: nat)
    requires 0 < sampleRate && 0 < smpRate
    ensures Pos(sampleRate, smpRate, sampleRate) - sampleRate * WindowTicks(smpRate, sampleRate)
            == 2048 * smpRate % sampleRate
  {
    PosRange(sampleRate, smpRate, sampleRate);
  }

  /** Within a second the position stays inside the second's smpRate samples. */
  lemma PosRange(n: nat, smpRate: nat, sampleRate: nat)
    requires n <= sampleRate && 0 < smpRate && 0 < sampleRate
    ensures n == sampleRate ==> Pos(n, smpRate, sampleRate) == 2048 * smpRate
    ensures n < sampleRate ==> Pos(n, smpRate, sampleRate) < 2048 * smpRate
    ensures n < sampleRate <= smpRate ==> Pos(n, smpRate, sampleRate) <= 2048 * smpRate - 2048
  {
    var all := 2048 * smpRate;
    assert 2048 * n * smpRate == n * all;
    if n == sampleRate {
      DivIs(n * all, sampleRate, all);
    } else {
      ShareLess(n, sampleRate, all);
      if sampleRate <= smpRate {
        ShareMuchLess(n, sampleRate, all);
      }
    }
  }

  lemma ShareLess(n: nat, m: nat, all: nat)
    requires n < m && all > 0
    ensures n * all / m < all
  {
    DivBounds(n * all, m);
    MulMono(n + 1, m, all);
    assert (n + 1) * all == n * all + all;
    MulCancel(n * all / m, all, m);
  }

  lemma ShareMuchLess(n: nat, m: nat, all: nat)
    requires n < m && 2048 * m <= all
    ensures n * all / m <= all - 2048
  {
    DivBounds(n * all, m);
    MulMono(n + 1, m, all);
    assert (n + 1) * all == n * all + all;
    assert (all - 2047) * m == all * m - 2047 * m;
    MulCancel(n * all / m, all - 2047, m);
  }

  lemma PosZero(smpRate: nat, sampleRate: nat)
    requires 0 < sampleRate
    ensures Pos(0, smpRate, sampleRate) == 0
    ensures Fp2iCeil(0) == 0 && Fp2iCeil(2048 * smpRate) == smpRate
  {
    assert 2048 * 0 * smpRate == 0;
  }

  /** An upsampler moves at most one sample per output, so it draws at most one sample: next is
      the number of samples passed so far. */
  lemma UpStep(n: nat, next: nat, smpRate: nat, sampleRate: nat)
    requires 0 < smpRate < sampleRate && n <= sampleRate
    requires next == if n == 0 then 0 else Fp2iCeil(Pos(n - 1, smpRate, sampleRate))
    ensures var pos := Pos(n, smpRate, sampleRate);
            && Fp2iFloor(pos) <= Fp2iCeil(pos) && next <= Fp2iCeil(pos) <= next + 1
            && 2048 * next < pos + 2048 && next <= Fp2iFloor(pos) + 1
            && pos <= 2048 * next + 2048
            && (Fp2iFloor(pos) < next ==> n > 0 && Fp2iFloor(Pos(n - 1, smpRate, sampleRate)) == Fp2iFloor(pos))
    ensures next <= smpRate
  {
    PosZero(smpRate, sampleRate);
    if n > 0 {
      var before, pos := Pos(n - 1, smpRate, sampleRate), Pos(n, smpRate, sampleRate);
      assert before <= pos <= before + 2048 by {
        WindowsTile(n - 1, smpRate, sampleRate);
        DivBounds(2048 * smpRate, sampleRate);
        MulCancel(WindowTicks(smpRate, sampleRate), 2048, sampleRate);
        DivMono(0, 2048 * smpRate, sampleRate);
      }
      PosRange(n - 1, smpRate, sampleRate);
      CeilStep(before, pos);
    }
  }

  lemma CeilStep(x: nat, y: nat)
    requires x <= y <= x + 2048
    ensures Fp2iCeil(x) <= Fp2iCeil(y) <= Fp2iCeil(x) + 1
    ensures x <= 2048 * Fp2iCeil(x) < x + 2048
    ensures y / 2048 < Fp2iCeil(x) ==> x / 2048 == y / 2048
  {
    DivMono(x, y, 2048);
  }

  /** The 32-bit position arithmetic of the source does not wrap within a second. */
  lemma PosFits(n: nat, smpRate: nat, sampleRate: nat)
    requires n <= sampleRate && 0 < smpRate < 0x20_0000 && 0 < sampleRate < 0x20_0000
    ensures UInt32(UInt32(2048 * n) * smpRate / sampleRate) == Pos(n, smpRate, sampleRate) <= 2048 * smpRate
  {
    PosRange(n, smpRate, sampleRate);
    Fits(2048 * n);
    Fits(Pos(n, smpRate, sampleRate));
  }

  lemma Fits(x: nat)
    ensures x < TWO32 ==> UInt32(x) == x
  {
  }

  /** The bound on the chip's rate is exact: above it the position at the end of a second wraps. */
  lemma PosFitsExactly(smpRate: nat, sampleRate: nat)
    requires 0 < sampleRate < 0x20_0000
    ensures UInt32(UInt32(2048 * sampleRate) * smpRate / sampleRate) == Pos(sampleRate, smpRate, sampleRate)
            <==> smpRate < 0x20_0000
  {
    var all := 2048 * smpRate;
    assert 2048 * sampleRate * smpRate == all * sampleRate;
    DivIs(all * sampleRate, sampleRate, all);
  }

  /** inBase = 1.0 + pos - next, which the source computes in wrapping UINT32 arithmetic. */
  lemma WrapBase(pos: nat, next: nat)
    requires 2048 * next < pos + 2048 && pos <= 2048 * next + 2048 && next < 0x20_0000
    ensures UInt32(2048 + UInt32(pos - next * 2048)) == 2048 + pos - 2048 * next
  {
  }

  /** A downsampler's window covers at least one sample and at most 250; the next window starts at
      its end or one tick later, and the ceilings stay in the buffer. */
  lemma DownStep(n: nat, smpRate: nat, sampleRate: nat)
    requires 0 < sampleRate < smpRate <= 250 * sampleRate && n < sampleRate
    ensures var pos, ticks, next :=
              Pos(n, smpRate, sampleRate), WindowTicks(smpRate, sampleRate), Pos(n + 1, smpRate, sampleRate);
            && 2048 <= ticks <= 512000 && pos + ticks <= next <= pos + ticks + 1
            && Fp2iCeil(pos) <= Fp2iCeil(next) <= Fp2iCeil(pos) + 252
            && 2048 * Fp2iCeil(pos) < pos + 2048 && pos <= 2048 * Fp2iCeil(pos) <= 2048 * smpRate
            && Fp2iCeil(pos) == pos / 2048 + (if pos % 2048 == 0 then 0 else 1)
            && (if n + 1 < sampleRate then Fp2iCeil(next) < smpRate else Fp2iCeil(next) == smpRate)
  {
    WindowsTile(n, smpRate, sampleRate);
    DivIs(2048 * sampleRate, sampleRate, 2048);
    DivMono(2048 * sampleRate, 2048 * smpRate, sampleRate);
    DivIs(512000 * sampleRate, sampleRate, 512000);
    DivMono(2048 * smpRate, 512000 * sampleRate, sampleRate);
    PosRange(n, smpRate, sampleRate);
    PosRange(n + 1, smpRate, sampleRate);
  }

  lemma TicksFit(inBase: nat, smpRate: nat, sampleRate: nat)
    requires 0 < sampleRate && smpRate <= 250 * sampleRate && inBase <= 4096
    ensures UInt32(inBase + UInt32(2048 * smpRate / sampleRate)) == inBase + WindowTicks(smpRate, sampleRate)
  {
    DivIs(512000 * sampleRate, sampleRate, 512000);
    DivMono(0, 2048 * smpRate, sampleRate);
    DivMono(2048 * smpRate, 512000 * sampleRate, sampleRate);
  }

  /** Moving a position by whole samples. */
  lemma AbsoluteIndex(pos: nat, offset: nat)
    ensures (pos + 2048 * offset) / 2048 == pos / 2048 + offset
    ensures (pos + 2048 * offset) % 2048 == pos % 2048
    ensures Fp2iCeil(pos + 2048 * offset) == Fp2iCeil(pos) + offset
  {
    DivShift(pos, offset, 2048);
    DivShift(pos + 2047, offset, 2048);
  }

  /** Where a window lies in the buffer, and which entry must be carried to the next call. */
  lemma DownIndices(pos: nat, ticks: nat, next: nat, last: nat, inBase: nat)
    requires 2048 <= ticks <= 512000 && pos + ticks <= next <= pos + ticks + 1
    requires last == Fp2iCeil(pos) && inBase == 2048 + pos - 2048 * last
    ensures Fp2iCeil(inBase) <= Fp2iFloor(inBase + ticks)
    ensures Fp2iCeil(inBase + ticks) <= Fp2iCeil(next) + 1 - last && Fp2iCeil(inBase + ticks) <= 252
    ensures inBase / 2048 == if pos % 2048 == 0 then 1 else 0
    ensures Fp2iFloor(inBase + ticks) < 0x100
    ensures next % 2048 != 0 ==>
      && Fp2iFloor(inBase + ticks) + last - 1 == next / 2048
      && 1 <= Fp2iFloor(inBase + ticks) < Fp2iCeil(next) + 1 - last
  {
    BufferIndex(inBase, pos, last);
    BufferIndex(inBase + ticks, pos + ticks, last);
  }

  lemma InterpolateFrom(chip: nat -> Wave, pos: nat, v: Wave, w: Wave)
    requires v == chip(pos / 2048) && w == chip(Fp2iCeil(pos))
    ensures Plus(Scale(v, 2048 - pos % 2048), Scale(w, pos % 2048)) == Interpolate(chip, pos)
  {
  }

  /** Buffer indices against stream indices. */
  lemma BufferIndex(inBase: nat, pos: nat, next: nat)
    requires inBase == 2048 + pos - 2048 * next
    ensures inBase / 2048 == pos / 2048 + 1 - next
    ensures Fp2iCeil(inBase) == Fp2iCeil(pos) + 1 - next
    ensures inBase % 2048 == pos % 2048
  {
    AbsoluteIndex(inBase, next);
    AbsoluteIndex(pos, 1);
  }

  lemma {:induction false} TickSumSplit(chip: nat -> Wave, a: nat, m: nat, b: nat)
    requires a <= m <= b
    ensures TickSum(chip, a, b) == Plus(TickSum(chip, a, m), TickSum(chip, m, b))
    decreases b - m
  {
    if m < b {
      TickSumSplit(chip, a, m, b - 1);
    }
  }

  lemma {:induction false} SeqTicksSplit(buf: seq<Wave>, a: nat, m: nat, b: nat)
    requires b <= 2048 * |buf| && a <= m <= b
    ensures SeqTicks(buf, a, b) == Plus(SeqTicks(buf, a, m), SeqTicks(buf, m, b))
    decreases b - m
  {
    if m < b {
      SeqTicksSplit(buf, a, m, b - 1);
      var last := buf[(b - 1) / 2048];
      assert SeqTicks(buf, a, b) == Plus(SeqTicks(buf, a, b - 1), last);
      assert SeqTicks(buf, m, b) == Plus(SeqTicks(buf, m, b - 1), last);
    }
  }

  /** Within one sample the integral is that sample times the number of ticks. */
  lemma {:induction false} SeqTicksFlat(buf: seq<Wave>, i: nat, a: nat, b: nat)
    requires b <= 2048 * |buf| && 2048 * i <= a <= b <= 2048 * (i + 1) && i < |buf|
    ensures SeqTicks(buf, a, b) == Scale(buf[i], b - a)
    decreases b - a
  {
    if a < b {
      SeqTicksFlat(buf, i, a, b - 1);
      DivIs(b - 1, 2048, i);
      ScaleNext(buf[i], b - 1 - a);
      hide Scale, Plus;
    } else {
      ScaleNone(buf[i]);
    }
  }

  lemma ScaleNext(w: Wave, k: int)
    ensures Plus(Scale(w, k), w) == Scale(w, k + 1)
  {
  }

  lemma ScaleNone(w: Wave)
    ensures Scale(w, 0) == SILENCE
  {
  }

  lemma SeqTicksEmpty(buf: seq<Wave>, a: nat)
    requires a <= 2048 * |buf|
    ensures forall w :: Plus(w, SeqTicks(buf, a, a)) == w
  {
  }

  lemma WholeStep(buf: seq<Wave>, a: nat, i: nat)
    requires i < |buf| && a <= i * 2048
    ensures SeqTicks(buf, a, (i + 1) * 2048) == Plus(SeqTicks(buf, a, i * 2048), Scale(buf[i], 2048))
    ensures forall w :: Plus(w, SeqTicks(buf, a, (i + 1) * 2048))
                        == Plus(Plus(w, SeqTicks(buf, a, i * 2048)), Scale(buf[i], 2048))
  {
    SeqTicksSplit(buf, a, i * 2048, (i + 1) * 2048);
    SeqTicksFlat(buf, i, i * 2048, (i + 1) * 2048);
  }

  /** The window [2048 * i + f, 2048 * j + g) is its two partial end samples and the whole samples in between. */
  lemma WindowParts(buf: seq<Wave>, i: nat, f: nat, j: nat, g: nat)
    requires f < 2048 && g < 2048 && j < |buf| + (if g == 0 then 1 else 0)
    requires if f == 0 then i <= j else i < j
    ensures var first := if f == 0 then i else i + 1;
      var head := if f == 0 then SILENCE else Scale(buf[i], 2048 - f);
      SeqTicks(buf, 2048 * i + f, 2048 * j + g) ==
      Plus(if g == 0 then head else Plus(head, Scale(buf[j], g)), SeqTicks(buf, first * 2048, j * 2048))
  {
    hide SeqTicks;
    var a, b := 2048 * i + f, 2048 * j + g;
    var first := if f == 0 then i else i + 1;
    SeqTicksSplit(buf, a, first * 2048, b);
    SeqTicksSplit(buf, first * 2048, j * 2048, b);
    if f != 0 {
      SeqTicksFlat(buf, i, a, first * 2048);
    }
    if g != 0 {
      SeqTicksFlat(buf, j, j * 2048, b);
    }
  }

  /** A buffer holding chip samples base, base+1, ... integrates like the chip stream itself. */
  lemma {:induction false} SeqTicksIsTickSum(buf: seq<Wave>, chip: nat -> Wave, base: int, a: nat, b: nat)
    requires b <= 2048 * |buf| && a + 2048 * base >= 0
    requires forall i: nat :: a / 2048 <= i < Fp2iCeil(b) ==> base + i >= 0 && buf[i] == chip(base + i)
    ensures b <= a || b + 2048 * base >= 0
    ensures b > a ==> SeqTicks(buf, a, b) == TickSum(chip, a + 2048 * base, b + 2048 * base)
    decreases b - a
  {
    if a < b {
      var i := (b - 1) / 2048;
      assert (b - 1 + 2048 * base) / 2048 == i + base;
      if a < b - 1 {
        SeqTicksIsTickSum(buf, chip, base, a, b - 1);
      }
    }
  }

  // ---------------------------------------------------------------- each channel for itself

  ghost function Left(chip: nat -> Wave): nat -> int {
    (i: nat) => chip(i).left
  }

  ghost function Right(chip: nat -> Wave): nat -> int {
    (i: nat) => chip(i).right
  }

  /** One channel's stream interpolated at tick position pos, times 2048. */
  ghost function Blend(x: nat -> int, pos: nat): int {
    x(pos / 2048) * (2048 - pos % 2048) + x(pos / 2048 + 1) * (pos % 2048)
  }

  /** One channel's stream held for 2048 ticks a sample, summed over the ticks [a, b). */
  ghost function Held(x: nat -> int, a: nat, b: nat): int
    decreases b - a
  {
    if b <= a then 0 else Held(x, a, b - 1) + x((b - 1) / 2048)
  }

  /** out is num / den, cut toward zero and then to 32 bits. */
  ghost predicate Cut(out: int, num: int, den: int) {
    exists q: int :: Truncates(q, num, den) && Wraps(q, out)
  }

  predicate Wraps(q: int, out: int) {
    -0x8000_0000 <= out < 0x8000_0000 && (q - out) % 0x1_0000_0000 == 0
  }

  /** out is output n of a channel whose whole stream is x: its interpolation at the output's position, or
      its mean over the output's window, times the volume. */
  ghost predicate Resampled(out: int, x: nat -> int, n: nat, smpRate: nat, sampleRate: nat, volume: nat)
    requires 0 < smpRate && 0 < sampleRate
  {
    var pos, ticks := 2048 * n * smpRate / sampleRate, 2048 * smpRate / sampleRate;
    if smpRate < sampleRate then Cut(out, Blend(x, pos) * volume, 2048)
    else Cut(out, Held(x, pos, pos + ticks) * volume, ticks)
  }

  lemma OutputCuts(sum: Wave, volume: int, weight: int)
    requires weight > 0
    ensures Cut(Output(sum, volume, weight).left, sum.left * volume, weight)
    ensures Cut(Output(sum, volume, weight).right, sum.right * volume, weight)
  {
    hide TruncDiv, Truncates;
    TruncDivIs(sum.left * volume, weight);
    TruncDivIs(sum.right * volume, weight);
    Int32Wraps(TruncDiv(sum.left * volume, weight));
    Int32Wraps(TruncDiv(sum.right * volume, weight));
  }

  lemma Int32Wraps(q: int)
    ensures Wraps(q, Int32(q))
  {
    var k := q / TWO32;
    DivIs(q - Int32(q), TWO32, if q % TWO32 < 0x8000_0000 then k else k + 1);
  }

  lemma {:induction false} TickSumHeld(chip: nat -> Wave, a: nat, b: nat)
    ensures TickSum(chip, a, b) == Wave(Held(Left(chip), a, b), Held(Right(chip), a, b))
    decreases b - a
  {
    if a < b {
      TickSumHeld(chip, a, b - 1);
    }
  }

  lemma InterpolateBlend(chip: nat -> Wave, pos: nat)
    ensures Interpolate(chip, pos) == Wave(Blend(Left(chip), pos), Blend(Right(chip), pos))
  {
    var v, w, f := chip(pos / 2048), chip(pos / 2048 + 1), pos % 2048;
    if f == 0 {
      assert w.left * 0 == 0 && w.right * 0 == 0;
    }
  }

  /** The stereo output is the two channels resampled, each from its own stream. */
  lemma DirectChannels(chip: nat -> Wave, n: nat, smpRate: nat, sampleRate: nat, volume: nat)
    requires 0 < smpRate && 0 < sampleRate
    requires smpRate < sampleRate || WindowTicks(smpRate, sampleRate) > 0
    ensures var out := Direct(chip, n, smpRate, sampleRate, volume);
            && Resampled(out.left, Left(chip), n, smpRate, sampleRate, volume)
            && Resampled(out.right, Right(chip), n, smpRate, sampleRate, volume)
  {
    hide Output, Cut, Interpolate, TickSum, Held, Blend, Left, Right;
    var pos, ticks := Pos(n, smpRate, sampleRate), WindowTicks(smpRate, sampleRate);
    if smpRate < sampleRate {
      InterpolateBlend(chip, pos);
      OutputCuts(Interpolate(chip, pos), volume, 2048);
    } else {
      TickSumHeld(chip, pos, pos + ticks);
      OutputCuts(TickSum(chip, pos, pos + ticks), volume, ticks);
    }
  }

  ghost predicate Within(x: nat -> int, lo: int, hi: int) {
    forall i: nat :: lo <= x(i) <= hi
  }

  /** All weights are non-negative and add up to the window length. */
  lemma {:induction false} HeldBounds(x: nat -> int, a: nat, b: nat, lo: int, hi: int)
    requires a <= b && Within(x, lo, hi)
    ensures lo * (b - a) <= Held(x, a, b) <= hi * (b - a)
    decreases b - a
  {
    if a < b {
      HeldBounds(x, a, b - 1, lo, hi);
      assert lo * (b - a) == lo * (b - 1 - a) + lo;
      assert hi * (b - a) == hi * (b - 1 - a) + hi;
    }
  }

  lemma ConvexBounds(v: int, w: int, f: nat, lo: int, hi: int)
    requires lo <= v <= hi && lo <= w <= hi && f < 2048
    ensures lo * 2048 <= v * (2048 - f) + w * f <= hi * 2048
  {
    MulMono(lo, v, 2048 - f);
    MulMono(lo, w, f);
    MulMono(v, hi, 2048 - f);
    MulMono(w, hi, f);
    assert lo * (2048 - f) + lo * f == lo * 2048;
    assert hi * (2048 - f) + hi * f == hi * 2048;
  }

  /** A weighted sum within [lo, hi] times its weight comes out within [lo, hi] times the volume;
      so a constant input c comes out as exactly c times the volume. */
  lemma CutBounds(out: int, sum: int, volume: nat, weight: int, lo: int, hi: int)
    requires weight > 0 && lo * weight <= sum <= hi * weight && Cut(out, sum * volume, weight)
    requires -0x8000_0000 <= lo * volume && hi * volume < 0x8000_0000
    ensures lo * volume <= out <= hi * volume
  {
    hide Truncates;
    var q: int :| Truncates(q, sum * volume, weight) && Wraps(q, out);
    ScaledBounds(q, sum, volume, weight, lo, hi);
    DivBounds(q - out, 0x1_0000_0000);
  }

  lemma ScaledBounds(q: int, sum: int, volume: nat, weight: int, lo: int, hi: int)
    requires weight > 0 && lo * weight <= sum <= hi * weight && Truncates(q, sum * volume, weight)
    ensures lo * volume <= q <= hi * volume
  {
    MulMono(lo * weight, sum, volume);
    MulMono(sum, hi * weight, volume);
    SwapFactors(lo, weight, volume);
    SwapFactors(hi, weight, volume);
    TruncatesMono(q, sum * volume, lo * volume, hi * volume, weight);
  }

  lemma TruncatesMono(q: int, num: int, lo: int, hi: int, den: int)
    requires den > 0 && lo * den <= num <= hi * den && Truncates(q, num, den)
    ensures lo <= q <= hi
  {
    assert (q + 1) * den == q * den + den && (q - 1) * den == q * den - den;
    if lo > q {
      MulMono(q + 1, lo, den);
    }
    if q > hi {
      MulMono(hi, q - 1, den);
    }
  }

  lemma SwapFactors(a: int, b: int, c: int)
    ensures a * b * c == a * c * b
  {
  }

  /** Resampling never overshoots: a channel that stays within [lo, hi] comes out within [lo, hi] times
      the volume, up- or downsampled; with lo == hi, a constant comes out exactly. */
  lemma NoOvershoot(out: int, x: nat -> int, n: nat, smpRate: nat, sampleRate: nat, volume: nat, lo: int, hi: int)
    requires 0 < smpRate && 0 < sampleRate
    requires smpRate < sampleRate || WindowTicks(smpRate, sampleRate) > 0
    requires Within(x, lo, hi) && Resampled(out, x, n, smpRate, sampleRate, volume)
    requires -0x8000_0000 <= lo * volume && hi * volume < 0x8000_0000
    ensures lo * volume <= out <= hi * volume
  {
    hide Cut, Held;
    var pos, ticks := Pos(n, smpRate, sampleRate), WindowTicks(smpRate, sampleRate);
    if smpRate < sampleRate {
      ConvexBounds(x(pos / 2048), x(pos / 2048 + 1), pos % 2048, lo, hi);
      CutBounds(out, Blend(x, pos), volume, 2048, lo, hi);
    } else {
      HeldBounds(x, pos, pos + ticks, lo, hi);
      CutBounds(out, Held(x, pos, pos + ticks), volume, ticks, lo, hi);
    }
  }

  // ---------------------------------------------------------------- the resampler's state

  /** What SetupResampler chooses. */
  datatype Mode = Upsampling | Copying | Downsampling

  class ChipAudio {
    const mode: Mode
    const sampleRate: nat          // rate of the output
    const smpRate: nat             // rate of the chip
    const volume: nat
    const chip: nat -> Wave        // everything the chip's stream update will ever produce

    var smpP: nat                  // outputs made since the last rebase
    var smpLast: nat
    var smpNext: nat
    var lSmpl: Wave                // carried samples
    var nSmpl: Wave
    var bufs: array<Wave>          // shared scratch buffer
    var drawn: nat                 // samples the chip has produced so far

    ghost var outputs: nat         // calls so far
    ghost var base: nat            // outputs and chip samples rebased away so far
    ghost var offset: nat

    ghost predicate Clocks()
      reads this
    {
      && 0 < smpRate < 0x20_0000 && 0 < sampleRate < 0x20_0000
      && smpRate <= 250 * sampleRate
      && bufs.Length == 0x100
      && outputs == smpP + base && Aligned(base, offset, smpRate, sampleRate)
    }

    /** Everything the upsampler carries from call to call, in terms of the whole stream. */
    ghost predicate UpValid()
      reads this
    {
      && Clocks() && mode == Upsampling && smpRate < sampleRate
      && smpP <= sampleRate
      && drawn == smpNext + offset + 1
      && nSmpl == chip(smpNext + offset)
      && (if smpP == 0 then smpLast == smpNext == 0
          else
            && smpLast == Fp2iFloor(Pos(smpP - 1, smpRate, sampleRate))
            && smpNext == Fp2iCeil(Pos(smpP - 1, smpRate, sampleRate))
            && lSmpl == chip(smpLast + offset))
    }

    /** Likewise for the downsampler; lSmpl matters only when the next window starts inside a sample. */
    ghost predicate DownValid()
      reads this
    {
      && Clocks() && mode == Downsampling && sampleRate < smpRate
      && smpP < sampleRate
      && var pos := Pos(smpP, smpRate, sampleRate);
      && smpLast == smpNext == Fp2iCeil(pos)
      && drawn == smpNext + offset
      && (pos % 2048 != 0 ==> lSmpl == chip(pos / 2048 + offset))
    }

    constructor SetupResampler(smpRate: nat, sampleRate: nat, volume: nat, chip: nat -> Wave)
      requires 0 < smpRate < 0x20_0000 && 0 < sampleRate < 0x20_0000 && smpRate <= 250 * sampleRate
      ensures this.smpRate == smpRate && this.sampleRate == sampleRate
      ensures this.volume == volume && this.chip == chip
      ensures outputs == 0 && fresh(bufs)
      ensures smpRate < sampleRate ==> UpValid()
      ensures smpRate > sampleRate ==> DownValid()
      ensures smpRate == sampleRate ==> mode == Copying && Clocks() && drawn == 0
    {
      hide Pos, Aligned, Fp2iCeil;
      AtStart(smpRate, sampleRate);
      this.smpRate, this.sampleRate, this.volume, this.chip := smpRate, sampleRate, volume, chip;
      mode := if smpRate < sampleRate then Upsampling else if smpRate == sampleRate then Copying else Downsampling;
      bufs := new Wave[0x100](_ => SILENCE);
      smpP, smpLast, smpNext, drawn := 0, 0, 0, 0;
      lSmpl, nSmpl := SILENCE, SILENCE;
      outputs, base, offset := 0, 0, 0;
      new;
      if mode == Upsampling {
        // the upsampler is always one sample late
        StreamUpdate(0, 1);
        nSmpl := bufs[0];
      }
    }

    /** The chip's StreamUpdate: its next count samples, stored from index at on. */
    method StreamUpdate(at: nat, count: nat)
      requires at + count <= bufs.Length
      modifies this`drawn, bufs
      ensures drawn == old(drawn) + count
      ensures forall i :: at <= i < at + count ==> bufs[i] == chip(old(drawn) + (i - at))
      ensures forall i :: 0 <= i < at ==> bufs[i] == old(bufs[i])
    {
      for i := 0 to count
        invariant drawn == old(drawn) + i
        invariant forall j :: at <= j < at + i ==> bufs[j] == chip(old(drawn) + (j - at))
        invariant forall j :: 0 <= j < at ==> bufs[j] == old(bufs[j])
      {
        bufs[at + i] := chip(drawn);
        drawn := drawn + 1;
      }
    }

    /** Subtracts one second from all counters once the chip has run that far. */
    method Rebase()
      requires Clocks() && (smpLast >= smpRate ==> smpNext >= smpRate && smpP >= sampleRate)
      modifies this`smpP, this`smpLast, this`smpNext, this`base, this`offset
      ensures Clocks()
      ensures var k := if old(smpLast) < smpRate then 0 else 1;
              && smpP == old(smpP) - k * sampleRate && base == old(base) + k * sampleRate
              && smpLast == old(smpLast) - k * smpRate && smpNext == old(smpNext) - k * smpRate
              && offset == old(offset) + k * smpRate
    {
      if smpLast >= smpRate {
        smpLast := smpLast - smpRate;
        smpNext := smpNext - smpRate;
        smpP := smpP - sampleRate;
        AlignedStep(base, offset, smpRate, sampleRate);
        base, offset := base + sampleRate, offset + smpRate;
      }
    }

    /** First half of an upsampling step: the carried samples and the new one go to the buffer, so
        that entry i is chip sample next - 1 + i wherever the position needs it. */
    method UpFetch() returns (inBase: nat)
      requires UpValid()
      modifies this`smpLast, this`smpNext, this`drawn, bufs
      ensures var pos, next := Pos(smpP, smpRate, sampleRate), old(smpNext);
              && smpLast == Fp2iFloor(pos) && smpNext == Fp2iCeil(pos) && next <= smpNext <= next + 1
              && next <= smpLast + 1 && smpLast <= smpNext
              && drawn == smpNext + offset + 1
              && inBase == 2048 + pos - 2048 * next
              && (forall j :: smpLast + 1 - next <= j <= smpNext + 1 - next ==>
                    bufs[j] == chip(j + next + offset - 1))
    {
      hide Pos, UInt32, Fp2iCeil, Fp2iFloor, Aligned;
      ghost var next, pos := smpNext, Pos(smpP, smpRate, sampleRate);
      PosFits(smpP, smpRate, sampleRate);
      UpStep(smpP, smpNext, smpRate, sampleRate);
      var inPosL := UInt32(UInt32(2048 * smpP) * smpRate / sampleRate);
      var inPre, inNow := Fp2iFloor(inPosL), Fp2iCeil(inPosL);
      UpLoad(inNow - smpNext);
      inBase := UInt32(2048 + UInt32(inPosL - smpNext * 2048));
      WrapBase(pos, next);
      smpLast, smpNext := inPre, inNow;
    }

    /** The two carried samples, then at most one new one. */
    method UpLoad(count: nat)
      requires UpValid() && count <= 1
      modifies this`drawn, bufs
      ensures drawn == old(drawn) + count
      ensures bufs[0] == lSmpl && bufs[1] == nSmpl && (count == 1 ==> bufs[2] == chip(old(drawn)))
    {
      hide Pos, Fp2iCeil, Fp2iFloor, Aligned;
      bufs[0] := lSmpl;
      bufs[1] := nSmpl;
      StreamUpdate(2, count);
    }

    /** Upsampling: the n-th output is the interpolation of the whole stream at Pos(n), made from
        samples already generated, whatever rebases happened in between. */
    method Upsample(ret: Wave) returns (r: Wave)
      requires UpValid()
      modifies this, bufs
      ensures UpValid() && outputs == old(outputs) + 1 && bufs == old(bufs)
      ensures var pos := Pos(old(outputs), smpRate, sampleRate);
              && r == Plus(ret, Output(Interpolate(chip, pos), volume, 2048))
              && drawn == Fp2iCeil(pos) + 1
    {
      hide Pos, Output, Interpolate, Plus, Scale, Fp2iCeil, Fp2iFloor, Aligned;
      r := UpMix(ret);
      UpAdvance();
    }

    method UpMix(ret: Wave) returns (r: Wave)
      requires UpValid()
      modifies this`smpLast, this`smpNext, this`drawn, this`lSmpl, this`nSmpl, bufs
      ensures UpMade()
      ensures var pos := Pos(outputs, smpRate, sampleRate);
              && r == Plus(ret, Output(Interpolate(chip, pos), volume, 2048))
              && drawn == Fp2iCeil(pos) + 1
    {
      hide Pos, Output, Interpolate, Plus, Scale, Fp2iCeil, Aligned;
      PosShift(smpP, base, offset, smpRate, sampleRate);
      var inBase := UpFetch();
      ghost var pos := Pos(outputs, smpRate, sampleRate);
      AbsoluteIndex(Pos(smpP, smpRate, sampleRate), offset);
      BufferIndex(inBase, Pos(smpP, smpRate, sampleRate), old(smpNext));

      var inPre, inNow, smpFrc := Fp2iFloor(inBase), Fp2iCeil(inBase), inBase % 2048;
      var temp := Plus(Scale(bufs[inPre], 2048 - smpFrc), Scale(bufs[inNow], smpFrc));
      InterpolateFrom(chip, pos, bufs[inPre], bufs[inNow]);
      r := Plus(ret, Output(temp, volume, 2048));
      lSmpl, nSmpl := bufs[inPre], bufs[inNow];
    }

    /** The output is made and not yet counted. */
    ghost predicate UpMade()
      reads this
    {
      && Clocks() && mode == Upsampling && smpRate < sampleRate && smpP <= sampleRate
      && smpLast == Fp2iFloor(Pos(smpP, smpRate, sampleRate))
      && smpNext == Fp2iCeil(Pos(smpP, smpRate, sampleRate))
      && drawn == smpNext + offset + 1
      && lSmpl == chip(smpLast + offset) && nSmpl == chip(smpNext + offset)
    }

    method UpAdvance()
      requires UpMade()
      modifies this`smpP, this`smpLast, this`smpNext, this`outputs, this`base, this`offset
      ensures UpValid() && outputs == old(outputs) + 1
    {
      hide Pos, Fp2iCeil, Aligned;
      PosRange(smpP, smpRate, sampleRate);
      PosZero(smpRate, sampleRate);
      smpP := smpP + 1;
      outputs := outputs + 1;
      Rebase();
    }

    /** Sums one downsampling window over the buffer: the partial samples at both ends, then the
        whole samples in between. Also returns the total weight and the index of the last sample. */
    method MixWindow(inPos: nat, inPosNext: nat) returns (sum: Wave, smpCnt: int, inPre: nat)
      requires Fp2iCeil(inPos) <= Fp2iFloor(inPosNext) && Fp2iCeil(inPosNext) <= bufs.Length
      ensures sum == SeqTicks(bufs[..], inPos, inPosNext)
      ensures smpCnt == inPosNext - inPos
      ensures inPre == Fp2iFloor(inPosNext)
    {
      hide SeqTicks, Scale, Plus;
      ghost var i, f := TickFacts(inPos);
      ghost var j, g := TickFacts(inPosNext);
      WindowParts(bufs[..], i, f, j, g);
      SeqTicksEmpty(bufs[..], Fp2iCeil(inPos) * 2048);
      var smpFrc := (2048 - inPos) % 2048;
      sum := if smpFrc != 0 then Scale(bufs[Fp2iFloor(inPos)], smpFrc) else SILENCE;
      smpCnt := smpFrc;

      smpFrc := inPosNext % 2048;
      inPre := Fp2iFloor(inPosNext);
      if smpFrc != 0 {
        sum := Plus(sum, Scale(bufs[inPre], smpFrc));
        smpCnt := smpCnt + smpFrc;
      }

      var inNow := Fp2iCeil(inPos);
      smpCnt := smpCnt + (inPre - inNow) * 2048;
      ghost var ends := sum;
      while inNow < inPre
        invariant Fp2iCeil(inPos) <= inNow <= inPre
        invariant sum == Plus(ends, SeqTicks(bufs[..], Fp2iCeil(inPos) * 2048, inNow * 2048))
      {
        WholeStep(bufs[..], Fp2iCeil(inPos) * 2048, inNow);
        sum := Plus(sum, Scale(bufs[inNow], 2048));
        inNow := inNow + 1;
      }
    }

    /** First half of a downsampling step: the carried sample and the new ones go to the buffer. */
    method DownFetch() returns (inBase: nat, inPosNext: nat)
      requires DownValid()
      modifies this`smpNext, this`drawn, bufs
      ensures var pos, ticks := Pos(smpP, smpRate, sampleRate), WindowTicks(smpRate, sampleRate);
              && smpNext == Fp2iCeil(Pos(smpP + 1, smpRate, sampleRate)) && smpLast <= smpNext <= smpLast + 252
              && drawn == smpNext + offset
              && inBase == 2048 + pos - 2048 * smpLast
              && inPosNext == inBase + ticks
              && (forall j: nat :: (j > 0 || pos % 2048 != 0) && j < smpNext + 1 - smpLast ==>
                    bufs[j] == chip(j + smpLast + offset - 1))
    {
      hide Pos, UInt32, Fp2iCeil, Aligned, WindowTicks;
      ghost var pos := Pos(smpP, smpRate, sampleRate);
      PosFits(smpP, smpRate, sampleRate);
      PosFits(smpP + 1, smpRate, sampleRate);
      DownStep(smpP, smpRate, sampleRate);
      var inPosL := UInt32(UInt32(2048 * (smpP + 1)) * smpRate / sampleRate);
      smpNext := Fp2iCeil(inPosL);
      bufs[0] := lSmpl;
      StreamUpdate(1, smpNext - smpLast);
      assert pos % 2048 != 0 ==> bufs[0] == chip(smpLast + offset - 1);

      inPosL := UInt32(UInt32(2048 * smpP) * smpRate / sampleRate);
      inBase := UInt32(2048 + UInt32(inPosL - smpLast * 2048));
      WrapBase(pos, smpLast);
      inPosNext := UInt32(inBase + UInt32(2048 * smpRate / sampleRate));
      TicksFit(inBase, smpRate, sampleRate);
    }

    /** Draws and sums one window, and carries the sample the next window may start in. */
    method DownWindow() returns (sum: Wave, smpCnt: int)
      requires DownValid()
      modifies this`smpNext, this`drawn, this`lSmpl, bufs
      ensures var pos, next := Pos(smpP, smpRate, sampleRate), Pos(smpP + 1, smpRate, sampleRate);
              && smpCnt == WindowTicks(smpRate, sampleRate) > 0
              && sum == TickSum(chip, pos + 2048 * offset, pos + 2048 * offset + smpCnt)
              && smpNext == Fp2iCeil(next) && drawn == smpNext + offset
              && (next % 2048 != 0 ==> lSmpl == chip(next / 2048 + offset))
    {
      hide Pos, Fp2iCeil, Aligned, SeqTicks, TickSum, WindowTicks;
      DownStep(smpP, smpRate, sampleRate);
      var inBase, inPosNext := DownFetch();
      DownIndices(Pos(smpP, smpRate, sampleRate), WindowTicks(smpRate, sampleRate),
                  Pos(smpP + 1, smpRate, sampleRate), smpLast, inBase);
      SeqTicksIsTickSum(bufs[..], chip, smpLast + offset - 1, inBase, inPosNext);
      var inPre: nat;
      sum, smpCnt, inPre := MixWindow(inBase, inPosNext);
      lSmpl := bufs[inPre];
    }

    /** Downsampling: the n-th output is the mean of the whole stream over the window that starts at
        Pos(n), and the chip has then been asked for exactly the samples up to Pos(n + 1). */
    method Downsample(ret: Wave) returns (r: Wave)
      requires DownValid()
      modifies this, bufs
      ensures DownValid() && outputs == old(outputs) + 1 && bufs == old(bufs)
      ensures var pos, ticks := Pos(old(outputs), smpRate, sampleRate), WindowTicks(smpRate, sampleRate);
              && ticks > 0
              && r == Plus(ret, Output(TickSum(chip, pos, pos + ticks), volume, ticks))
              && drawn == Fp2iCeil(Pos(outputs, smpRate, sampleRate))
    {
      hide Pos, Output, Plus, Fp2iCeil, Aligned, TickSum, WindowTicks;
      DownStep(smpP, smpRate, sampleRate);
      PosShift(smpP, base, offset, smpRate, sampleRate);
      PosShift(smpP + 1, base, offset, smpRate, sampleRate);
      PosRange(smpP + 1, smpRate, sampleRate);
      PosZero(smpRate, sampleRate);
      AbsoluteIndex(Pos(smpP + 1, smpRate, sampleRate), offset);
      var temp, smpCnt := DownWindow();
      r := Plus(ret, Output(temp, volume, smpCnt));
      smpP := smpP + 1;
      smpLast := smpNext;
      outputs := outputs + 1;
      Rebase();
    }

    ghost predicate Valid()
      reads this
    {
      UpValid() || DownValid()
    }

    /** FillBuffer's sample loop for one chip: any number of calls, from any reachable state. */
    method FillBuffer(bufferSize: nat) returns (buffer: seq<Wave>)
      requires Valid()
      modifies this, bufs
      ensures Valid() && outputs == old(outputs) + bufferSize && |buffer| == bufferSize
      ensures forall k :: 0 <= k < bufferSize ==>
                buffer[k] == Direct(chip, old(outputs) + k, smpRate, sampleRate, volume)
      ensures forall k :: 0 <= k < bufferSize ==>
                Resampled(buffer[k].left, Left(chip), old(outputs) + k, smpRate, sampleRate, volume)
      ensures forall k :: 0 <= k < bufferSize ==>
                Resampled(buffer[k].right, Right(chip), old(outputs) + k, smpRate, sampleRate, volume)
    {
      hide Resampled;
      HasWindow();
      buffer := [];
      for curSmpl := 0 to bufferSize
        invariant Valid() && outputs == old(outputs) + curSmpl && |buffer| == curSmpl
        invariant bufs == old(bufs)
        invariant forall k :: 0 <= k < curSmpl ==>
                    buffer[k] == Direct(chip, old(outputs) + k, smpRate, sampleRate, volume)
      {
        var tempBuf := SILENCE;
        if mode == Upsampling {
          tempBuf := Upsample(tempBuf);
        } else {
          tempBuf := Downsample(tempBuf);
        }
        buffer := buffer + [tempBuf];
      }
      forall k | 0 <= k < bufferSize
        ensures Resampled(buffer[k].left, Left(chip), old(outputs) + k, smpRate, sampleRate, volume)
        ensures Resampled(buffer[k].right, Right(chip), old(outputs) + k, smpRate, sampleRate, volume)
      {
        DirectChannels(chip, old(outputs) + k, smpRate, sampleRate, volume);
      }
    }

    /** A downsampler's window is never empty. */
    lemma HasWindow()
      requires Valid()
      ensures smpRate < sampleRate || WindowTicks(smpRate, sampleRate) > 0
    {
      if sampleRate < smpRate {
        DownStep(smpP, smpRate, sampleRate);
      }
    }
  }
}
