/** What a channel of the AY-3-8910 plays, said without its event loop: the square wave of a tone alone,
    the bits of the noise register for noise alone, the wave itself for an envelope alone, and where the
    steps of tone and noise together lie. */
module AySound {
  import opened Arith
  import opened Timer
  import opened AyApu
  import Oscillator

  // ---------------------------------------------------------------- the waves themselves

  /** The step that brings the output from one level to another. */
  function Jump(t: int, from: int, to: int): seq<(int, int)> {
    if from == to then [] else [(t, to - from)]
  }

  /** n flips, one every period from first on: down if the phase is 1, up if it is 0, and so in turn. */
  function SquareWave(volume: int, period: nat, first: int, phase: nat, n: nat): seq<(int, int)> {
    seq<(int, int)>(n, (j: nat) => (first + j * period, if (phase + j) % 2 == 1 then -volume else volume))
  }

  /** The noise register after n steps. */
  function NoiseAt(lfsr: nat, n: nat): (r: nat)
    requires 0 < lfsr < 0x2_0000
    ensures 0 < r < 0x2_0000
  {
    if n == 0 then lfsr
    else
      NoiseBit(NoiseAt(lfsr, n - 1));
      NextLfsr(NoiseAt(lfsr, n - 1))
  }

  /** One step of the 17-bit register: everything moves down one place, the lowest bit comes in at the top,
      and bit 13 is crossed with it. */
  lemma NoiseTaps(lfsr: nat)
    requires 0 < lfsr < 0x2_0000
    ensures var next, half, low := NextLfsr(lfsr), lfsr / 2, lfsr % 2;
      && next % 0x2000 == half % 0x2000
      && next / 0x2000 % 2 == (half / 0x2000 + low) % 2
      && next / 0x4000 == half / 0x4000 + 4 * low
  {
    var half := lfsr / 2;
    assert half == half / 0x4000 * 0x4000 + half / 0x2000 % 2 * 0x2000 + half % 0x2000;
  }

  /** No two states of the register lead to the same one, so the noise never gets into a shorter cycle. */
  lemma NoiseNeverMerges(a: nat, b: nat)
    requires 0 < a < 0x2_0000 && 0 < b < 0x2_0000 && NextLfsr(a) == NextLfsr(b)
    ensures a == b
  {
    hide NextLfsr;
    NoiseTaps(a);
    NoiseTaps(b);
    SameHalf(a / 2, a % 2, b / 2, b % 2);
  }

  lemma SameHalf(p: nat, low: nat, q: nat, low1: nat)
    requires p < 0x1_0000 && q < 0x1_0000 && low < 2 && low1 < 2
    requires p % 0x2000 == q % 0x2000 && (p / 0x2000 + low) % 2 == (q / 0x2000 + low1) % 2
    requires p / 0x4000 + 4 * low == q / 0x4000 + 4 * low1
    ensures p == q && low == low1
  {
    var x, y := p / 0x2000, q / 0x2000;
    assert p / 0x4000 == x / 2 && q / 0x4000 == y / 2;
    assert x / 2 < 4 && y / 2 < 4;
    assert x == y;
    assert p == x * 0x2000 + p % 0x2000 && q == y * 0x2000 + q % 0x2000;
  }

  /** The shape of an envelope by the bits of its mode: attack says which way the first ramp goes, alternate
      turns the second one round, and hold stops after the first, at the level the next one would not start from. */
  lemma ShapeByBits(mode: nat, i: nat)
    requires 8 <= mode < 16 && i < 48
    ensures var attack, alternate, hold := mode / 4 % 2 == 1, mode / 2 % 2 == 1, mode % 2 == 1;
      var ramp, y := i / 16, i % 16;
      RampLevel(mode - 8, i) ==
      if hold && ramp > 0 then (if attack != alternate then 15 else 0)
      else if attack != (alternate && ramp == 1) then y else 15 - y
  {
  }

  /** The volumes double every two steps, to within rounding, up to 255. */
  lemma VolumesDouble(i: nat)
    requires i < 14
    ensures AmpTable(15) == 255 && AmpTable(14) == 180 && AmpTable(0) == 0
    ensures i > 0 ==> -1 <= AmpTable(i + 2) - 2 * AmpTable(i) <= 1
    ensures AmpTable(i) < AmpTable(i + 1)
  {
  }

  /** The output follows the register's low bit, which may change every period from first on. */
  function NoiseWave(volume: int, period: nat, first: int, lfsr: nat, n: nat): seq<(int, int)>
    requires 0 < lfsr < 0x2_0000
  {
    if n == 0 then []
    else
      NoiseWave(volume, period, first, lfsr, n - 1)
      + Jump(first + (n - 1) * period, NoiseAt(lfsr, n - 1) % 2 * volume, NoiseAt(lfsr, n) % 2 * volume)
  }

  /** The output follows a level that may change n times, the i-th time at start(i). */
  function LevelWave(last: int, start: nat -> int, level: nat -> int, n: nat): seq<(int, int)> {
    if n == 0 then []
    else LevelWave(last, start, level, n - 1) + Jump(start(n - 1), if n == 1 then last else level(n - 2), level(n - 1))
  }

  // ---------------------------------------------------------------- events of one kind

  lemma {:induction false} ClocksGrow(r: Rates, m: Mix, k: nat)
    requires r.Valid() && m.Valid()
    ensures Events(r, m, k).time >= m.time && Events(r, m, k).ntime >= m.ntime
  {
    hide NextLfsr, Level, Emit;
    if k > 0 {
      ClocksGrow(r, m, k - 1);
    }
  }

  /** While no noise event comes, the tone alone flips the output. */
  lemma {:induction false} ToneAlone(r: Rates, m: Mix, k: nat)
    requires r.Valid() && m.Valid() && m.lfsr % 2 == 1 && r.volume > 0 && Events(r, m, k).ntime == m.ntime
    ensures Events(r, m, k) == m.(time := m.time + k * r.period, phase := (m.phase + k) % 2,
                                  steps := m.steps + SquareWave(r.volume, r.period, m.time, m.phase, k))
  {
    if k > 0 {
      hide Events, ToneEvent, NoiseEvent, SquareWave;
      ClocksGrow(r, m, k - 1);
      LastEvent(r, m, k);
      ToneAlone(r, m, k - 1);
      ToneNext(r, m, k - 1, Events(r, m, k - 1));
    } else {
      SquareNone(r.volume, r.period, m.time, m.phase);
    }
  }

  lemma ToneNext(r: Rates, m: Mix, n: nat, before: Mix)
    requires m.Valid() && m.lfsr % 2 == 1 && r.volume > 0
    requires before == m.(time := m.time + n * r.period, phase := (m.phase + n) % 2,
                          steps := m.steps + SquareWave(r.volume, r.period, m.time, m.phase, n))
    ensures ToneEvent(r, before)
            == m.(time := m.time + (n + 1) * r.period, phase := (m.phase + n + 1) % 2,
                  steps := m.steps + SquareWave(r.volume, r.period, m.time, m.phase, n + 1))
  {
    assert n * r.period + r.period == (n + 1) * r.period;
    SquareNext(r.volume, r.period, m.time, m.phase, n);
    hide SquareWave;
  }

  lemma LastEvent(r: Rates, m: Mix, k: nat)
    requires r.Valid() && m.Valid() && k > 0
    ensures var before, after := Events(r, m, k - 1), Events(r, m, k);
            if before.ntime <= before.time then after == NoiseEvent(r, before) && after.ntime > before.ntime
            else after == ToneEvent(r, before) && after.time > before.time && after.ntime == before.ntime
  {
  }

  lemma SquareNext(volume: int, period: nat, first: int, phase: nat, n: nat)
    ensures SquareWave(volume, period, first, phase, n + 1)
            == SquareWave(volume, period, first, phase, n)
               + [(first + n * period, if (phase + n) % 2 == 1 then -volume else volume)]
  {
  }

  lemma SquareNone(volume: int, period: nat, first: int, phase: nat)
    ensures SquareWave(volume, period, first, phase, 0) == []
  {
  }

  /** While no tone event comes, the noise alone moves it. */
  lemma {:induction false} NoiseAlone(r: Rates, m: Mix, k: nat)
    requires r.Valid() && m.Valid() && m.phase == 1 && r.volume > 0 && Events(r, m, k).time == m.time
    ensures Events(r, m, k) == m.(ntime := m.ntime + k * r.noisePeriod, lfsr := NoiseAt(m.lfsr, k),
                                  steps := m.steps + NoiseWave(r.volume, r.noisePeriod, m.ntime, m.lfsr, k))
  {
    hide NextLfsr;
    if k > 0 {
      ClocksGrow(r, m, k - 1);
      var before := Events(r, m, k - 1);
      LastEvent(r, m, k);
      assert before.time == m.time;
      NoiseAlone(r, m, k - 1);
      hide Events, NoiseEvent;
      NoiseStep(r, before);
      assert (k - 1) * r.noisePeriod + r.noisePeriod == k * r.noisePeriod;
    }
  }

  lemma NoiseStep(r: Rates, m: Mix)
    requires m.Valid() && m.phase == 1 && r.volume > 0
    ensures var next := NextLfsr(m.lfsr);
            NoiseEvent(r, m) == m.(lfsr := next, ntime := m.ntime + r.noisePeriod,
                                   steps := m.steps + Jump(m.ntime, m.lfsr % 2 * r.volume, next % 2 * r.volume))
  {
    hide NextLfsr;
    assert m.steps + [] == m.steps;
  }

  lemma NoEvent(r: Rates, m: Mix, k: nat)
    requires r.Valid() && m.Valid() && Events(r, m, k).time == m.time && Events(r, m, k).ntime == m.ntime
    ensures Events(r, m, k) == m
  {
    if k > 0 {
      LastEvent(r, m, k);
      ClocksGrow(r, m, k - 1);
    }
  }

  // ---------------------------------------------------------------- runs of one channel

  /** Flips due at first, first + period, ... before end. */
  function Due(first: int, end: int, period: nat): (n: nat)
    requires period > 0
  {
    if first >= end then 0
    else
      PeriodsStep(first, end, period);
      Periods(first, end, period)
  }

  lemma DueIs(first: int, end: int, period: nat, k: nat)
    requires period > 0 && first < end <= first + k * period < end + period
    ensures Due(first, end, period) == k
  {
    DivIs(end - first + period - 1, period, k);
  }

  /** The same, up to and including end, if any comes before it: noise alone is run past its end. */
  function DueThrough(first: int, end: int, period: nat): (n: nat)
    requires period > 0
  {
    if first >= end then 0
    else
      DivMono(0, end - first, period);
      (end - first) / period + 1
  }

  lemma DueThroughIs(first: int, end: int, period: nat, k: nat)
    requires period > 0 && first < end < first + k * period <= end + period
    ensures DueThrough(first, end, period) == k
  {
    assert (k - 1) * period == k * period - period;
    DivIs(end - first, period, k - 1);
  }

  lemma NoneMoved(k: nat, period: nat)
    requires period > 0 && k * period == 0
    ensures k == 0
  {
    if k > 0 {
      MulMono(1, k, period);
    }
  }

  /** A run whose volume holds to its end is one segment. */
  lemma OneSegment(tr: Trace, s: Sound, plan: Plan, osc: OscState, noise: Noise)
    requires plan.Valid() && tr.PlaysFrom(s, plan, osc, noise) && plan.end == plan.finalEnd
    ensures |tr.ks| == 1 && tr.sound == s && tr.plan == plan && tr.start.Valid() && tr.start == StartMix(s, plan, osc, noise)
    ensures var r := Rates(plan.volume, plan.period, plan.shape.noisePeriod);
      && r.Valid() && AtLevel(r, tr.start, plan.start).Valid()
      && tr.Result() == Events(r, AtLevel(r, tr.start, plan.start), tr.ks[0])
      && CaughtUp(r, tr.start, tr.Result(), plan.finalEnd)
  {
    hide Events, StartMix, AtLevel, CaughtUp;
    FirstVolume(plan, 0);
    Unfold(plan, tr.start, tr.ks);
    AtLevelKeeps(Rates(plan.volume, plan.period, plan.shape.noisePeriod), tr.start, plan.start);
  }

  lemma Unfold(plan: Plan, m: Mix, ks: seq<nat>)
    requires plan.Valid() && m.Valid() && |ks| == 1
    ensures plan.After(m, ks, 0) == m
    ensures plan.RatesAt(0) == Rates(plan.volume, plan.period, plan.shape.noisePeriod)
    ensures plan.After(m, ks, 1) == Events(plan.RatesAt(0), AtLevel(plan.RatesAt(0), m, plan.start), ks[0])
  {
    hide Events, AtLevel;
  }

  lemma AtLevelKeeps(r: Rates, m: Mix, t: int)
    requires m.Valid()
    ensures AtLevel(r, m, t)
            == m.(steps := m.steps + Jump(t, Oscillator.Total(m.steps), Level(r, m.phase, m.lfsr)))
    ensures AtLevel(r, m, t).Valid()
  {
    hide Oscillator.Total;
    assert m.steps + [] == m.steps;
  }

  /** Tone alone: the output steps to the level of the present phase, and then flips between the volume and
      silence, once a period. */
  lemma ToneHeard(tr: Trace, s: Sound, plan: Plan, osc: OscState, noise: Noise)
    requires plan.Valid() && tr.PlaysFrom(s, plan, osc, noise) && plan.end == plan.finalEnd
    requires !s.toneOff && s.noiseOff && plan.volume > 0
    ensures var v, first := plan.volume, plan.start + osc.delay;
      tr.Result().steps
      == osc.steps + Jump(plan.start, Oscillator.Total(osc.steps), if osc.phase == 1 then v else 0)
         + SquareWave(v, plan.period, first, osc.phase, Due(first, plan.finalEnd, plan.period))
  {
    hide Events, AtLevel, Oscillator.Total, Trace.PlaysFrom, Trace.Result, SquareWave, Jump;
    OneSegment(tr, s, plan, osc, noise);
    var r, m := Rates(plan.volume, plan.period, plan.shape.noisePeriod), tr.start;
    AtLevelKeeps(r, m, plan.start);
    var first, k := m.time, tr.ks[0];
    ToneAlone(r, AtLevel(r, m, plan.start), k);
    if first < plan.finalEnd {
      DueIs(first, plan.finalEnd, plan.period, k);
    } else {
      NoneMoved(k, plan.period);
    }
  }

  /** Noise alone: the output follows the low bit of the noise register, once a noise period. */
  lemma NoiseHeard(tr: Trace, s: Sound, plan: Plan, osc: OscState, noise: Noise)
    requires plan.Valid() && tr.PlaysFrom(s, plan, osc, noise) && plan.end == plan.finalEnd
    requires s.toneOff && !s.noiseOff && plan.volume > 0 && 0 < noise.lfsr < 0x2_0000
    ensures var v, first := plan.volume, plan.start + noise.delay;
      var n := DueThrough(first, plan.finalEnd, plan.shape.noisePeriod);
      && tr.Result().steps
         == osc.steps + Jump(plan.start, Oscillator.Total(osc.steps), noise.lfsr % 2 * v)
            + NoiseWave(v, plan.shape.noisePeriod, first, noise.lfsr, n)
      && tr.NoiseLeft(noise) == Noise(first + n * plan.shape.noisePeriod - plan.finalEnd, NoiseAt(noise.lfsr, n))
  {
    hide Events, AtLevel, Oscillator.Total, Trace.PlaysFrom, Trace.Result, NoiseWave, NoiseAt, Jump, Periods;
    OneSegment(tr, s, plan, osc, noise);
    var r, m := Rates(plan.volume, plan.period, plan.shape.noisePeriod), tr.start;
    AtLevelKeeps(r, m, plan.start);
    PastEnd(plan.start + osc.delay, plan.finalEnd, plan.period);
    var first, k := m.ntime, tr.ks[0];
    NoiseAlone(r, AtLevel(r, m, plan.start), k);
    if first < plan.finalEnd {
      DueThroughIs(first, plan.finalEnd, plan.shape.noisePeriod, k);
    } else {
      NoneMoved(k, plan.shape.noisePeriod);
    }
  }

  /** The clock of a tone that is off has been moved past the end. */
  lemma PastEnd(time: int, end: int, period: nat)
    requires period > 0
    ensures time + Periods(time, end, period) * period >= end
  {
    DivBounds(end - time + period - 1, period);
  }

  // ---------------------------------------------------------------- an envelope alone

  /** The envelope's position after i expirations. */
  function PosAfter(pos: int, i: nat): int {
    if pos + i < 0 then pos + i else (pos + i) % 32 - 32
  }

  lemma {:induction false} PosIs(plan: Plan, i: nat)
    requires -48 <= plan.pos < 0
    ensures plan.Pos(i) == PosAfter(plan.pos, i) < 0
  {
    if i > 0 {
      PosIs(plan, i - 1);
      if plan.pos + i - 1 >= 0 {
        DivShift(plan.pos + i, 0, 32);
      }
    }
  }

  /** Start of the i-th segment, if it comes before the end of the run. */
  function SegmentStart(start: int, first: int, period: nat, i: nat): int {
    if i == 0 then start else first + (i - 1) * period
  }

  lemma {:induction false} EndIs(plan: Plan, i: nat)
    requires plan.Valid() && (i > 0 ==> plan.End(i - 1) < plan.finalEnd)
    ensures plan.End(i) == if plan.end + i * plan.shape.envPeriod < plan.finalEnd || i == 0
                           then plan.end + i * plan.shape.envPeriod else plan.finalEnd
    ensures i > 0 ==> plan.Start(i) == plan.end + (i - 1) * plan.shape.envPeriod
  {
    if i > 0 {
      if i > 1 {
        EndBefore(plan, i - 2);
      }
      EndIs(plan, i - 1);
      assert i * plan.shape.envPeriod == (i - 1) * plan.shape.envPeriod + plan.shape.envPeriod;
    }
  }

  lemma EndBefore(plan: Plan, i: nat)
    requires plan.Valid() && plan.End(i + 1) < plan.finalEnd
    ensures plan.End(i) < plan.finalEnd
  {
  }

  /** The number of segments is that of the envelope's expirations before the end, and one more. */
  lemma SegmentCount(plan: Plan, n: nat)
    requires plan.Valid() && n > 0 && plan.End(n - 1) == plan.finalEnd
    requires forall i: nat :: i + 1 < n ==> plan.End(i) < plan.finalEnd
    ensures n == 1 + Due(plan.end, plan.finalEnd, plan.shape.envPeriod)
  {
    hide Plan.End;
    var p := plan.shape.envPeriod;
    if n == 1 {
      FirstVolume(plan, 0);
    } else {
      assert plan.End(n - 2) < plan.finalEnd;
      EndIs(plan, n - 1);
      if n > 2 {
        assert plan.End(n - 3) < plan.finalEnd;
      }
      EndIs(plan, n - 2);
      assert (n - 1) * p == (n - 2) * p + p;
      MulMono(0, n - 2, p);
      DueIs(plan.end, plan.finalEnd, p, n - 1);
    }
  }

  /** Segment i runs from start(i) to its end at level(i). */
  ghost predicate SegmentAt(plan: Plan, m: Mix, ks: seq<nat>, start: nat -> int, level: nat -> int, i: nat)
    requires plan.Valid() && m.Valid()
  {
    && i < |ks| && plan.End(i) <= plan.finalEnd && start(i) == plan.Start(i) && level(i) == plan.Volume(i)
    && CaughtUp(plan.RatesAt(i), plan.After(m, ks, i), plan.After(m, ks, i + 1), plan.End(i))
  }

  /** With tone and noise off nothing happens within a segment. */
  lemma {:induction false} OnlyLevels(plan: Plan, m: Mix, ks: seq<nat>, start: nat -> int, level: nat -> int, n: nat)
    requires plan.Valid() && m.Valid() && n <= |ks| && m.phase == 1 && m.lfsr == 1
    requires m.time >= plan.finalEnd && m.ntime >= plan.finalEnd
    requires forall i: nat :: i < n ==> SegmentAt(plan, m, ks, start, level, i)
    ensures var last := Oscillator.Total(m.steps);
      && plan.After(m, ks, n) == m.(steps := m.steps + LevelWave(last, start, level, n))
      && Oscillator.Total(plan.After(m, ks, n).steps) == if n == 0 then last else level(n - 1)
  {
    hide Plan.After, Oscillator.Total, Jump, LevelWave, SegmentAt, Plan.Valid, Mix.Valid;
    var last := Oscillator.Total(m.steps);
    if n > 0 {
      OnlyLevels(plan, m, ks, start, level, n - 1);
      OneLevel(plan, plan.After(m, ks, n - 1), ks, m, start, level, n - 1);
      WaveNext(last, start, level, n - 1);
      Regroup(m.steps, LevelWave(last, start, level, n - 1),
              Jump(start(n - 1), if n == 1 then last else level(n - 2), level(n - 1)));
    } else {
      NoLevels(plan, m, ks, last, start, level);
    }
  }

  lemma Regroup(a: seq<(int, int)>, b: seq<(int, int)>, c: seq<(int, int)>)
    ensures a + b + c == a + (b + c)
  {
  }

  lemma NoLevels(plan: Plan, m: Mix, ks: seq<nat>, last: int, start: nat -> int, level: nat -> int)
    requires plan.Valid() && m.Valid()
    ensures plan.After(m, ks, 0) == m && m.steps + LevelWave(last, start, level, 0) == m.steps
  {
  }

  lemma WaveNext(last: int, start: nat -> int, level: nat -> int, i: nat)
    ensures LevelWave(last, start, level, i + 1)
            == LevelWave(last, start, level, i) + Jump(start(i), if i == 0 then last else level(i - 1), level(i))
  {
    hide Jump;
  }

  lemma OneLevel(plan: Plan, before: Mix, ks: seq<nat>, m: Mix, start: nat -> int, level: nat -> int, i: nat)
    requires plan.Valid() && m.Valid() && i < |ks| && before == plan.After(m, ks, i)
    requires before.phase == 1 && before.lfsr == 1 && before.time >= plan.finalEnd && before.ntime >= plan.finalEnd
    requires SegmentAt(plan, m, ks, start, level, i)
    ensures plan.After(m, ks, i + 1)
            == before.(steps := before.steps + Jump(start(i), Oscillator.Total(before.steps), level(i)))
    ensures Oscillator.Total(plan.After(m, ks, i + 1).steps) == level(i)
  {
    hide Events, AtLevel, Plan.End, Plan.Start, Plan.Volume, Oscillator.Total, Jump;
    var r := plan.RatesAt(i);
    AtLevelKeeps(r, before, plan.Start(i));
    AtLevelTotal(r, before, plan.Start(i));
    NoEvent(r, AtLevel(r, before, plan.Start(i)), ks[i]);
  }

  /** An envelope alone: the output goes through the wave, one position for each expiration of the envelope. */
  lemma EnvelopeHeard(tr: Trace, s: Sound, plan: Plan, osc: OscState, noise: Noise)
    requires plan.Valid() && tr.PlaysFrom(s, plan, osc, noise) && s.toneOff && s.noiseOff
    requires plan.volume == plan.shape.wave(plan.pos) / plan.half
    ensures tr.Result().steps
            == osc.steps + LevelWave(Oscillator.Total(osc.steps),
                                     (i: nat) => SegmentStart(plan.start, plan.end, plan.shape.envPeriod, i),
                                     (i: nat) => plan.shape.wave(PosAfter(plan.pos, i)) / plan.half,
                                     1 + Due(plan.end, plan.finalEnd, plan.shape.envPeriod))
  {
    hide Events, AtLevel, Oscillator.Total, LevelWave, Plan.End, Plan.Volume, Plan.After, Plan.Start, Periods, CaughtUp,
         SegmentStart, PosAfter;
    var n, m := |tr.ks|, tr.start;
    SegmentCount(plan, n);
    PastEnd(plan.start + osc.delay, plan.finalEnd, plan.period);
    var start := (i: nat) => SegmentStart(plan.start, plan.end, plan.shape.envPeriod, i);
    var level := (i: nat) => plan.shape.wave(PosAfter(plan.pos, i)) / plan.half;
    forall i: nat | i < n
      ensures SegmentAt(plan, m, tr.ks, start, level, i)
    {
      if i > 0 {
        assert plan.End(i - 1) < plan.finalEnd;
      }
      EndIs(plan, i);
      StartIs(plan, i);
      PosIs(plan, i);
      VolumeIs(plan, i);
    }
    OnlyLevels(plan, m, tr.ks, start, level, n);
  }

  lemma StartIs(plan: Plan, i: nat)
    requires i > 0 ==> plan.Start(i) == plan.end + (i - 1) * plan.shape.envPeriod
    ensures plan.Start(i) == SegmentStart(plan.start, plan.end, plan.shape.envPeriod, i)
  {
  }

  lemma VolumeIs(plan: Plan, i: nat)
    requires plan.Valid() && plan.volume == plan.shape.wave(plan.pos) / plan.half
    ensures plan.Volume(i) == plan.shape.wave(plan.Pos(i)) / plan.half
  {
  }

  /** A level that holds: one step to it and nothing more. */
  lemma LevelHeard(tr: Trace, s: Sound, plan: Plan, osc: OscState, noise: Noise)
    requires plan.Valid() && tr.PlaysFrom(s, plan, osc, noise) && plan.end == plan.finalEnd && s.toneOff && s.noiseOff
    ensures tr.Result().steps == osc.steps + Jump(plan.start, Oscillator.Total(osc.steps), plan.volume)
  {
    hide Events, AtLevel, Oscillator.Total, Trace.PlaysFrom, Trace.Result, Jump, Periods;
    OneSegment(tr, s, plan, osc, noise);
    PastEnd(plan.start + osc.delay, plan.finalEnd, plan.period);
    var r := Rates(plan.volume, plan.period, plan.shape.noisePeriod);
    AtLevelKeeps(r, tr.start, plan.start);
    NoEvent(r, AtLevel(r, tr.start, plan.start), tr.ks[0]);
  }

  // ---------------------------------------------------------------- what holds of every run

  /** t is one of the times first, first + period, ... before end. */
  ghost predicate Ticks(t: int, first: int, period: nat, end: int) {
    t < end && exists j: nat :: IsTick(t, first, period, j)
  }

  predicate IsTick(t: int, first: int, period: nat, j: nat) {
    t == first + j * period
  }

  lemma TicksMore(t: int, first: int, period: nat, end: int, later: int)
    requires Ticks(t, first, period, end) && end <= later
    ensures Ticks(t, first, period, later)
  {
  }

  /** e has come from m by j tone events. */
  predicate Ticked(period: nat, m: Mix, e: Mix, j: nat) {
    e.time == m.time + j * period && e.phase == (m.phase + j) % 2
  }

  /** Steps emitted since m lie at its tone or noise times. */
  ghost predicate OnTime(period: nat, noisePeriod: nat, m: Mix, steps: seq<(int, int)>, time: int, ntime: int) {
    forall i: nat :: |m.steps| <= i < |steps| ==>
      Ticks(steps[i].0, m.time, period, time) || Ticks(steps[i].0, m.ntime, noisePeriod, ntime)
  }

  lemma {:induction false} EventsTick(r: Rates, m: Mix, k: nat) returns (j: nat)
    requires r.Valid() && m.Valid()
    ensures Ticked(r.period, m, Events(r, m, k), j)
  {
    hide NextLfsr, Level, Emit;
    j := 0;
    if k > 0 {
      j := EventsTick(r, m, k - 1);
      LastEvent(r, m, k);
      if Events(r, m, k - 1).ntime > Events(r, m, k - 1).time {
        assert (j + 1) * r.period == j * r.period + r.period;
        j := j + 1;
      }
    }
  }

  lemma {:induction false} NoiseTicks(r: Rates, m: Mix, k: nat) returns (j: nat)
    requires r.Valid() && m.Valid()
    ensures Events(r, m, k).ntime == m.ntime + j * r.noisePeriod
  {
    hide NextLfsr, Level, Emit;
    j := 0;
    if k > 0 {
      j := NoiseTicks(r, m, k - 1);
      LastEvent(r, m, k);
      if Events(r, m, k - 1).ntime <= Events(r, m, k - 1).time {
        assert (j + 1) * r.noisePeriod == j * r.noisePeriod + r.noisePeriod;
        j := j + 1;
      }
    }
  }

  lemma {:induction false} EventsOnTime(r: Rates, m: Mix, k: nat)
    requires r.Valid() && m.Valid()
    ensures var e := Events(r, m, k);
            m.steps <= e.steps && OnTime(r.period, r.noisePeriod, m, e.steps, e.time, e.ntime)
  {
    hide Ticks;
    if k > 0 {
      EventsOnTime(r, m, k - 1);
      var i := NoiseTicks(r, m, k - 1);
      var j := EventsTick(r, m, k - 1);
      OneMore(r, m, Events(r, m, k - 1), i, j);
    }
  }

  lemma OneMore(r: Rates, m: Mix, e: Mix, i: nat, j: nat)
    requires r.Valid() && m.Valid() && e.Valid() && m.steps <= e.steps
    requires e.ntime == m.ntime + i * r.noisePeriod && e.time == m.time + j * r.period
    requires OnTime(r.period, r.noisePeriod, m, e.steps, e.time, e.ntime)
    ensures var f := NextEvent(r, e);
            m.steps <= f.steps && OnTime(r.period, r.noisePeriod, m, f.steps, f.time, f.ntime)
  {
    hide NextLfsr, Level, Ticks;
    var f := NextEvent(r, e);
    forall n: nat | |m.steps| <= n < |f.steps|
      ensures Ticks(f.steps[n].0, m.time, r.period, f.time) || Ticks(f.steps[n].0, m.ntime, r.noisePeriod, f.ntime)
    {
      if n < |e.steps| {
        assert f.steps[n] == e.steps[n];
        if Ticks(f.steps[n].0, m.time, r.period, e.time) {
          TicksMore(f.steps[n].0, m.time, r.period, e.time, f.time);
        } else {
          TicksMore(f.steps[n].0, m.ntime, r.noisePeriod, e.ntime, f.ntime);
        }
      } else if e.ntime <= e.time {
        ATick(m.ntime, r.noisePeriod, i, f.ntime);
      } else {
        ATick(m.time, r.period, j, f.time);
      }
    }
  }

  lemma ATick(first: int, period: nat, j: nat, end: int)
    requires first + j * period < end
    ensures Ticks(first + j * period, first, period, end)
  {
    assert IsTick(first + j * period, first, period, j);
  }

  /** Up by the volume from silence, down by it from the volume: the steps from the given one on. */
  ghost predicate InTurn(volume: int, steps: seq<(int, int)>, from: nat) {
    forall i: nat :: from <= i < |steps| ==> UpOrDown(volume, steps, i)
  }

  ghost predicate UpOrDown(volume: int, steps: seq<(int, int)>, i: nat)
    requires i < |steps|
  {
    var before := Oscillator.Total(steps[..i]);
    before in {0, volume} && steps[i].1 == volume - 2 * before
  }

  /** With tone and noise both on and a volume that holds, every step is up or down by the volume, in turn. */
  lemma {:induction false} EventsInTurn(r: Rates, m: Mix, k: nat)
    requires r.Valid() && m.Valid() && Oscillator.Total(m.steps) == Level(r, m.phase, m.lfsr)
    ensures var e := Events(r, m, k);
            && m.steps <= e.steps && Oscillator.Total(e.steps) == Level(r, e.phase, e.lfsr)
            && InTurn(r.volume, e.steps, |m.steps|)
  {
    if k > 0 {
      EventsInTurn(r, m, k - 1);
      OneTurn(r, Events(r, m, k - 1), |m.steps|);
      hide NextEvent, InTurn;
      assert Events(r, m, k) == NextEvent(r, Events(r, m, k - 1));
    }
  }

  lemma OneTurn(r: Rates, e: Mix, from: nat)
    requires r.Valid() && e.Valid() && from <= |e.steps| && Oscillator.Total(e.steps) == Level(r, e.phase, e.lfsr)
    requires InTurn(r.volume, e.steps, from)
    ensures var f := NextEvent(r, e);
            && e.steps <= f.steps && Oscillator.Total(f.steps) == Level(r, f.phase, f.lfsr)
            && InTurn(r.volume, f.steps, from)
  {
    hide NextLfsr;
    var f := NextEvent(r, e);
    if f.steps != e.steps {
      assert f.steps[..|e.steps|] == e.steps;
    }
    forall i: nat | from <= i < |f.steps|
      ensures UpOrDown(r.volume, f.steps, i)
    {
      if i < |e.steps| {
        assert UpOrDown(r.volume, e.steps, i) && f.steps[i] == e.steps[i] && f.steps[..i] == e.steps[..i];
      } else {
        assert f.steps[..i] == e.steps;
      }
    }
  }

  /** t is when a segment before the n-th starts. */
  ghost predicate StartsSegment(plan: Plan, t: int, n: nat) {
    exists q: nat :: q < n && plan.Start(q) == t
  }

  /** Steps emitted since m lie where a segment starts, or at a tone or noise time of m. */
  ghost predicate Placed(plan: Plan, m: Mix, n: nat, e: Mix)
  {
    forall i: nat :: |m.steps| <= i < |e.steps| ==>
      || StartsSegment(plan, e.steps[i].0, n)
      || Ticks(e.steps[i].0, m.time, plan.period, e.time)
      || Ticks(e.steps[i].0, m.ntime, plan.shape.noisePeriod, e.ntime)
  }

  /** So do the steps of any run of segments, and the tone's phase goes with its clock. */
  lemma {:induction false} SegmentsPlaced(plan: Plan, m: Mix, ks: seq<nat>, n: nat) returns (j: nat, l: nat)
    requires plan.Valid() && m.Valid() && n <= |ks|
    ensures var e := plan.After(m, ks, n);
      && m.steps <= e.steps && Ticked(plan.period, m, e, j) && e.ntime == m.ntime + l * plan.shape.noisePeriod
      && Placed(plan, m, n, e)
  {
    hide Events, AtLevel, Placed, Plan.Start;
    j, l := 0, 0;
    if n > 0 {
      j, l := SegmentsPlaced(plan, m, ks, n - 1);
      var r, before := plan.RatesAt(n - 1), plan.After(m, ks, n - 1);
      var k := ks[n - 1];
      AtLevelKeeps(r, before, plan.Start(n - 1));
      var from := AtLevel(r, before, plan.Start(n - 1));
      var j1 := EventsTick(r, from, k);
      var l1 := NoiseTicks(r, from, k);
      EventsOnTime(r, from, k);
      PlacedNext(plan, m, n - 1, before, from, Events(r, from, k), j, l);
      TickedOn(plan.period, m, before, Events(r, from, k), j, j1);
      assert (l + l1) * plan.shape.noisePeriod == l * plan.shape.noisePeriod + l1 * plan.shape.noisePeriod;
      j, l := j + j1, l + l1;
    } else {
      NonePlaced(plan, m);
    }
  }

  lemma NonePlaced(plan: Plan, m: Mix)
    ensures Placed(plan, m, 0, m)
  {
  }

  lemma TickedOn(period: nat, m: Mix, e: Mix, f: Mix, i: nat, j: nat)
    requires Ticked(period, m, e, i) && Ticked(period, e, f, j)
    ensures Ticked(period, m, f, i + j)
  {
    assert (i + j) * period == i * period + j * period;
    assert ((m.phase + i) % 2 + j) % 2 == (m.phase + (i + j)) % 2;
  }

  lemma LaterTick(t: int, first: int, period: nat, i: nat, end: int)
    requires Ticks(t, first + i * period, period, end)
    ensures Ticks(t, first, period, end)
  {
    var j: nat :| IsTick(t, first + i * period, period, j);
    assert (i + j) * period == i * period + j * period;
    assert IsTick(t, first, period, i + j);
  }

  lemma PlacedNext(plan: Plan, m: Mix, n: nat, e: Mix, from: Mix, f: Mix, j: nat, l: nat)
    requires plan.Valid() && m.steps <= e.steps <= from.steps <= f.steps && Placed(plan, m, n, e)
    requires e.time == m.time + j * plan.period && e.ntime == m.ntime + l * plan.shape.noisePeriod
    requires from.time == e.time && from.ntime == e.ntime && f.time >= e.time && f.ntime >= e.ntime
    requires |from.steps| <= |e.steps| + 1
    requires |from.steps| > |e.steps| ==> from.steps[|e.steps|].0 == plan.Start(n)
    requires OnTime(plan.period, plan.shape.noisePeriod, from, f.steps, f.time, f.ntime)
    ensures Placed(plan, m, n + 1, f)
  {
    hide Ticks, Plan.Start;
    var p, np := plan.period, plan.shape.noisePeriod;
    forall i: nat | |m.steps| <= i < |f.steps|
      ensures StartsSegment(plan, f.steps[i].0, n + 1) || Ticks(f.steps[i].0, m.time, p, f.time)
              || Ticks(f.steps[i].0, m.ntime, np, f.ntime)
    {
      var t := f.steps[i].0;
      if i < |e.steps| {
        assert f.steps[i] == e.steps[i];
        if StartsSegment(plan, t, n) {
          assert StartsSegment(plan, t, n + 1);
        } else if Ticks(t, m.time, p, e.time) {
          TicksMore(t, m.time, p, e.time, f.time);
        } else {
          TicksMore(t, m.ntime, np, e.ntime, f.ntime);
        }
      } else if i < |from.steps| {
        assert f.steps[i] == from.steps[i] && StartsSegment(plan, t, n + 1);
      } else if Ticks(t, e.time, p, f.time) {
        LaterTick(t, m.time, p, j, f.time);
      } else {
        LaterTick(t, m.ntime, np, l, f.ntime);
      }
    }
  }

  ghost predicate Caught(plan: Plan, m: Mix, ks: seq<nat>, i: nat)
    requires plan.Valid() && m.Valid()
  {
    && i < |ks| && plan.End(i) <= plan.finalEnd
    && CaughtUp(plan.RatesAt(i), plan.After(m, ks, i), plan.After(m, ks, i + 1), plan.End(i))
  }

  lemma CaughtIs(plan: Plan, m: Mix, ks: seq<nat>, i: nat)
    requires plan.Valid() && m.Valid() && Caught(plan, m, ks, i)
    ensures var before, after := plan.After(m, ks, i), plan.After(m, ks, i + 1);
      && (after.time < plan.finalEnd + plan.period || after.time == before.time)
      && (before.time >= plan.finalEnd ==> after.time == before.time)
      && after.time >= plan.End(i)
  {
    hide Plan.After, Plan.End;
  }

  lemma AfterNone(plan: Plan, m: Mix, ks: seq<nat>)
    requires plan.Valid() && m.Valid()
    ensures plan.After(m, ks, 0) == m
  {
  }

  /** The tone's clock stays within a period of the end, unless it was past it before. */
  lemma {:induction false} ClockWithin(plan: Plan, m: Mix, ks: seq<nat>, n: nat)
    requires plan.Valid() && m.Valid() && n <= |ks| && m.time < plan.finalEnd + plan.period
    requires forall i: nat :: i < n ==> Caught(plan, m, ks, i)
    ensures plan.After(m, ks, n).time < plan.finalEnd + plan.period
    ensures m.time >= plan.finalEnd ==> plan.After(m, ks, n).time == m.time
  {
    hide Plan.After, Caught, Plan.Valid, Mix.Valid;
    if n > 0 {
      ClockWithin(plan, m, ks, n - 1);
      CaughtIs(plan, m, ks, n - 1);
    } else {
      AfterNone(plan, m, ks);
    }
  }

  lemma NoiseCaughtIs(plan: Plan, m: Mix, ks: seq<nat>, i: nat)
    requires plan.Valid() && m.Valid() && Caught(plan, m, ks, i)
    ensures var before, after := plan.After(m, ks, i), plan.After(m, ks, i + 1);
            && (after.ntime <= plan.finalEnd + plan.shape.noisePeriod || after.ntime == before.ntime)
            && (before.ntime >= plan.finalEnd ==> after.ntime == before.ntime)
  {
    hide Plan.After, Plan.End;
  }

  /** The noise's clock is at most a period past the end, or has not moved. */
  lemma {:induction false} NoiseWithin(plan: Plan, m: Mix, ks: seq<nat>, n: nat)
    requires plan.Valid() && m.Valid() && n <= |ks|
    requires forall i: nat :: i < n ==> Caught(plan, m, ks, i)
    ensures plan.After(m, ks, n).ntime <= plan.finalEnd + plan.shape.noisePeriod || plan.After(m, ks, n).ntime == m.ntime
    ensures m.ntime >= plan.finalEnd ==> plan.After(m, ks, n).ntime == m.ntime
  {
    hide Plan.After, Caught, Plan.Valid, Mix.Valid;
    if n > 0 {
      NoiseWithin(plan, m, ks, n - 1);
      NoiseCaughtIs(plan, m, ks, n - 1);
    } else {
      AfterNone(plan, m, ks);
    }
  }

  lemma {:induction false} EndsBy(plan: Plan, i: nat)
    requires plan.Valid()
    ensures plan.End(i) <= plan.finalEnd
  {
    if i > 0 {
      EndsBy(plan, i - 1);
    }
  }

  /** Whatever is heard of it, the tone goes on: its phase has flipped once for every expiration before the
      end of the run, and its clock is at the next one. */
  lemma ToneGoesOn(tr: Trace, s: Sound, plan: Plan, osc: OscState, noise: Noise)
    requires plan.Valid() && tr.PlaysFrom(s, plan, osc, noise)
    requires 0 <= osc.delay < plan.period && osc.phase < 2
    ensures var first := plan.start + osc.delay;
      var n := Due(first, plan.finalEnd, plan.period);
      && tr.OscLeft(osc).delay == first + n * plan.period - plan.finalEnd
      && tr.OscLeft(osc).phase == (osc.phase + n) % 2
  {
    hide Events, AtLevel, Plan.End, Plan.After, Placed, CaughtUp, Periods;
    var first, p, m := plan.start + osc.delay, plan.period, tr.start;
    forall i: nat | i < |tr.ks|
      ensures Caught(plan, m, tr.ks, i)
    {
      EndsBy(plan, i);
    }
    DueOrPeriods(first, plan.finalEnd, p);
    PastEnd(first, plan.finalEnd, p);
    NotFarPast(first, plan.finalEnd, p);
    ClockWithin(plan, m, tr.ks, |tr.ks|);
    var j, l := SegmentsPlaced(plan, m, tr.ks, |tr.ks|);
    CaughtIs(plan, m, tr.ks, |tr.ks| - 1);
    if !s.toneOff {
      if first < plan.finalEnd {
        DueIs(first, plan.finalEnd, p, j);
      } else {
        NoneMoved(j, p);
      }
    }
  }

  lemma DueOrPeriods(first: int, end: int, period: nat)
    requires period > 0 && first < end + period
    ensures Periods(first, end, period) == Due(first, end, period)
  {
    if first >= end {
      PeriodsNone(first, end, period);
    }
  }

  lemma NotFarPast(first: int, end: int, period: nat)
    requires period > 0
    ensures first + Periods(first, end, period) * period < end + period
  {
    DivBounds(end - first + period - 1, period);
  }

  /** A tick is a whole period before the clock's present time. */
  lemma TickBefore(t: int, first: int, period: nat, j: nat, end: int)
    requires period > 0 && Ticks(t, first, period, first + j * period) && first + j * period < end + period
    ensures Ticks(t, first, period, end)
  {
    var i: nat :| IsTick(t, first, period, i);
    MulCancel(i, j, period);
    MulMono(i, j - 1, period);
    assert (j - 1) * period == j * period - period;
    assert IsTick(t, first, period, i);
  }

  lemma NoTick(t: int, first: int, period: nat)
    ensures !Ticks(t, first, period, first)
  {
    if Ticks(t, first, period, first) {
      var j: nat :| IsTick(t, first, period, j);
      MulMono(0, j, period);
    }
  }

  /** Tone and noise together at a volume that holds: after the step to the present level, up and down in turn. */
  lemma MixedHeard(tr: Trace, s: Sound, plan: Plan, osc: OscState, noise: Noise)
    requires plan.Valid() && tr.PlaysFrom(s, plan, osc, noise) && plan.end == plan.finalEnd
    requires !s.toneOff && !s.noiseOff
    ensures var level := if osc.phase == 1 && noise.lfsr % 2 == 1 then plan.volume else 0;
      var first, steps := osc.steps + Jump(plan.start, Oscillator.Total(osc.steps), level), tr.Result().steps;
      && first <= steps && InTurn(plan.volume, steps, |first|)
      && forall i: nat :: |first| <= i < |steps| ==>
           || Ticks(steps[i].0, plan.start + osc.delay, plan.period, plan.finalEnd)
           || Ticks(steps[i].0, plan.start + noise.delay, plan.shape.noisePeriod, plan.finalEnd + 1)
  {
    hide Events, AtLevel, Oscillator.Total, Trace.PlaysFrom, Trace.Result, Jump, InTurn, Ticks;
    OneSegment(tr, s, plan, osc, noise);
    var r, m := Rates(plan.volume, plan.period, plan.shape.noisePeriod), tr.start;
    AtLevelKeeps(r, m, plan.start);
    AtLevelTotal(r, m, plan.start);
    var from, e := AtLevel(r, m, plan.start), tr.Result();
    EventsInTurn(r, from, tr.ks[0]);
    EventsOnTime(r, from, tr.ks[0]);
    var j := EventsTick(r, from, tr.ks[0]);
    var l := NoiseTicks(r, from, tr.ks[0]);
    forall i: nat | |from.steps| <= i < |e.steps|
      ensures || Ticks(e.steps[i].0, m.time, plan.period, plan.finalEnd)
              || Ticks(e.steps[i].0, m.ntime, plan.shape.noisePeriod, plan.finalEnd + 1)
    {
      TickWithin(e.steps[i].0, m.time, plan.period, j, plan.finalEnd);
      TickWithin(e.steps[i].0, m.ntime, plan.shape.noisePeriod, l, plan.finalEnd + 1);
    }
  }

  /** Ticks of a clock that has been run to the end, or has not moved, come before the end. */
  lemma TickWithin(t: int, first: int, period: nat, j: nat, end: int)
    requires period > 0 && (first + j * period < end + period || j * period == 0)
    ensures Ticks(t, first, period, first + j * period) ==> Ticks(t, first, period, end)
  {
    if Ticks(t, first, period, first + j * period) {
      if j * period == 0 {
        NoTick(t, first, period);
      } else {
        TickBefore(t, first, period, j, end);
      }
    }
  }

  // ---------------------------------------------------------------- a run by its registers

  /** A run of one channel from start to end: the registers and clocks it starts with. */
  datatype Run = Run(regs: seq<nat>, channel: nat, clockRate: nat, waves: seq<nat>, envPos: int, envDelay: nat,
                     period: nat, start: int, end: int, osc: OscState, noise: Noise)
  {
    ghost predicate Valid() {
      && |regs| == 16 && channel < 3 && |waves| == 384 && -48 <= envPos < 0 && period > 0 && start <= end
      && 0 <= osc.delay < period && osc.phase < 2 && 0 < noise.lfsr < 0x2_0000
    }

    /** Register 7: bits 0 to 2 switch the tones off, bits 3 to 5 the noise. */
    predicate ToneOn()
      requires Valid()
    {
      regs[7] / [1, 2, 4][channel] % 2 == 0
    }

    predicate NoiseOn()
      requires Valid()
    {
      regs[7] / [8, 16, 32][channel] % 2 == 0
    }

    /** Tones around 16 kHz and above are not heard as such, but halve the volume. */
    predicate TooHigh()
      requires Valid()
    {
      period <= (clockRate + 16384) / 32768
    }

    predicate ToneHeard()
      requires Valid()
    {
      ToneOn() && !TooHigh()
    }

    function Half(): nat
      requires Valid()
    {
      if ToneOn() && TooHigh() then 2 else 1
    }

    /** Bit 4 of the volume register hands the volume to the envelope. */
    predicate EnvelopeOn()
      requires Valid()
    {
      regs[8 + channel] / 0x10 % 2 == 1
    }

    /** It moves in this run unless it is a shape played once whose ramp is over. */
    predicate EnvelopeMoves()
      requires Valid()
    {
      EnvelopeOn() && (regs[13] % 2 == 0 || envPos < -32)
    }

    /** The envelope's volume at a position, in the row of the wave table that register 13 selects. */
    function Wave(pos: int): nat
      requires Valid()
    {
      var at := (regs[13] - 7) * 48 + pos;
      if 0 <= at < 384 then waves[at] else 0
    }

    function Volume(): nat
      requires Valid()
    {
      (if EnvelopeOn() then Wave(envPos) else AmpTable(regs[8 + channel] % 0x10)) / Half()
    }

    function EnvPeriod(): nat
      requires Valid()
    {
      var word := regs[12] * 0x100 + regs[11];
      0x20 * if word == 0 then 1 else word
    }

    function NoisePeriod(): nat
      requires Valid()
    {
      0x20 * if regs[6] % 0x20 == 0 then 1 else regs[6] % 0x20
    }

    /** When the envelope first expires. */
    function Expires(): int
      requires Valid()
    {
      start + if envDelay == 0 then EnvPeriod() else envDelay
    }

    /** What the channel has emitted by the end of the run. */
    ghost predicate Sounds(steps: seq<(int, int)>)
      requires Valid()
    {
      var last, v := Oscillator.Total(osc.steps), Volume();
      var tone, noisy := start + osc.delay, start + noise.delay;
      if EnvelopeMoves() then
        if !ToneHeard() && !NoiseOn() then
          steps == osc.steps + LevelWave(last, (i: nat) => SegmentStart(start, Expires(), EnvPeriod(), i),
                                         (i: nat) => Wave(PosAfter(envPos, i)) / Half(),
                                         if Expires() >= end then 1 else 1 + Due(Expires(), end, EnvPeriod()))
        else
          osc.steps <= steps && forall i: nat :: |osc.steps| <= i < |steps| ==>
            || steps[i].0 == start || Ticks(steps[i].0, Expires(), EnvPeriod(), end)
            || (ToneHeard() && Ticks(steps[i].0, tone, period, end))
            || (NoiseOn() && Ticks(steps[i].0, noisy, NoisePeriod(), end + 1))
      else if v == 0 || (!ToneHeard() && !NoiseOn()) then
        steps == osc.steps + Jump(start, last, v)
      else if !NoiseOn() then
        steps == osc.steps + Jump(start, last, if osc.phase == 1 then v else 0)
                 + SquareWave(v, period, tone, osc.phase, Due(tone, end, period))
      else if !ToneHeard() then
        steps == osc.steps + Jump(start, last, noise.lfsr % 2 * v)
                 + NoiseWave(v, NoisePeriod(), noisy, noise.lfsr, DueThrough(noisy, end, NoisePeriod()))
      else
        var first := osc.steps + Jump(start, last, if osc.phase == 1 && noise.lfsr % 2 == 1 then v else 0);
        && first <= steps && InTurn(v, steps, |first|)
        && forall i: nat :: |first| <= i < |steps| ==>
             Ticks(steps[i].0, tone, period, end) || Ticks(steps[i].0, noisy, NoisePeriod(), end + 1)
    }
  }

  /** The state a run leaves a channel in: it has sounded as the registers say, and its tone has gone on. */
  ghost predicate Leaves(run: Run, after: OscState) {
    && run.Valid() && run.Sounds(after.steps)
    && var first := run.start + run.osc.delay;
       var n := Due(first, run.end, run.period);
       after.phase == (run.osc.phase + n) % 2 && after.delay == first + n * run.period - run.end
  }

  /** s and plan say for the run what its registers say. */
  ghost predicate Means(run: Run, s: Sound, plan: Plan)
    requires run.Valid()
  {
    && plan.Valid() && plan.start == run.start && plan.finalEnd == run.end && plan.period == run.period
    && plan.pos == run.envPos && plan.half == run.Half() && plan.shape.envPeriod == run.EnvPeriod()
    && plan.shape.noisePeriod == run.NoisePeriod() && plan.volume == run.Volume()
    && (forall pos: int :: plan.shape.wave(pos) == run.Wave(pos))
    && plan.end == (if run.EnvelopeMoves() && run.Expires() < run.end then run.Expires() else run.end)
    && (if !run.EnvelopeMoves() && run.Volume() == 0 then s.toneOff && s.noiseOff
        else s.toneOff == !run.ToneHeard() && s.noiseOff == !run.NoiseOn())
  }

  /** Tone or noise under a moving envelope: every step lies where the envelope expires, or at a tone or
      noise time. */
  lemma AllPlaced(tr: Trace, s: Sound, plan: Plan, osc: OscState, noise: Noise)
    requires plan.Valid() && tr.PlaysFrom(s, plan, osc, noise) && 0 <= osc.delay < plan.period
    ensures var steps := tr.Result().steps;
      && osc.steps <= steps
      && forall i: nat :: |osc.steps| <= i < |steps| ==>
           || steps[i].0 == plan.start || Ticks(steps[i].0, plan.end, plan.shape.envPeriod, plan.finalEnd)
           || (!s.toneOff && Ticks(steps[i].0, plan.start + osc.delay, plan.period, plan.finalEnd))
           || (!s.noiseOff && Ticks(steps[i].0, plan.start + noise.delay, plan.shape.noisePeriod, plan.finalEnd + 1))
  {
    hide Events, AtLevel, Plan.End, Plan.After, Plan.Start, CaughtUp, Periods, Ticks, StartsSegment;
    var m, ks, np := tr.start, tr.ks, plan.shape.noisePeriod;
    forall i: nat | i < |ks|
      ensures Caught(plan, m, ks, i)
    {
      EndsBy(plan, i);
    }
    PastEnd(plan.start + osc.delay, plan.finalEnd, plan.period);
    NotFarPast(plan.start + osc.delay, plan.finalEnd, plan.period);
    ClockWithin(plan, m, ks, |ks|);
    NoiseWithin(plan, m, ks, |ks|);
    var j, l := SegmentsPlaced(plan, m, ks, |ks|);
    var e := tr.Result();
    forall i: nat | |osc.steps| <= i < |e.steps|
      ensures || e.steps[i].0 == plan.start || Ticks(e.steps[i].0, plan.end, plan.shape.envPeriod, plan.finalEnd)
              || (!s.toneOff && Ticks(e.steps[i].0, plan.start + osc.delay, plan.period, plan.finalEnd))
              || (!s.noiseOff && Ticks(e.steps[i].0, plan.start + noise.delay, np, plan.finalEnd + 1))
    {
      var t := e.steps[i].0;
      if StartsSegment(plan, t, |ks|) {
        SegmentTick(plan, t, |ks|);
      } else {
        TickWithin(t, m.time, plan.period, j, plan.finalEnd);
        TickWithin(t, m.ntime, np, l, plan.finalEnd + 1);
        StillClock(tr, s, plan, osc, noise, t);
      }
    }
  }

  /** The clock of a part that is off has no ticks before the end. */
  lemma StillClock(tr: Trace, s: Sound, plan: Plan, osc: OscState, noise: Noise, t: int)
    requires plan.Valid() && tr.PlaysFrom(s, plan, osc, noise)
    requires s.toneOff ==> tr.Result().time == tr.start.time
    requires s.noiseOff ==> tr.Result().ntime == tr.start.ntime
    ensures s.toneOff ==> !Ticks(t, tr.start.time, plan.period, tr.Result().time)
    ensures s.noiseOff ==> !Ticks(t, tr.start.ntime, plan.shape.noisePeriod, tr.Result().ntime)
  {
    hide Plan.After, Ticks;
    NoTick(t, tr.start.time, plan.period);
    NoTick(t, tr.start.ntime, plan.shape.noisePeriod);
  }

  lemma SegmentTick(plan: Plan, t: int, n: nat)
    requires plan.Valid() && StartsSegment(plan, t, n) && forall i: nat :: i + 1 < n ==> plan.End(i) < plan.finalEnd
    ensures t == plan.start || Ticks(t, plan.end, plan.shape.envPeriod, plan.finalEnd)
  {
    hide Plan.End;
    var q: nat :| q < n && plan.Start(q) == t;
    if q > 0 {
      var i: nat := q - 1;
      assert plan.End(i) < plan.finalEnd;
      EndIs(plan, q);
      ATick(plan.end, plan.shape.envPeriod, i, plan.finalEnd);
    }
  }

  lemma ClockedSegments(run: Run, plan: Plan, s: Sound)
    requires run.Valid() && Means(run, s, plan) && run.EnvelopeMoves()
    ensures plan.volume == plan.shape.wave(plan.pos) / plan.half
    ensures Due(plan.end, plan.finalEnd, plan.shape.envPeriod)
            == if run.Expires() >= run.end then 0 else Due(run.Expires(), run.end, run.EnvPeriod())
  {
    hide Run.Half, Run.EnvPeriod, Run.NoisePeriod, Run.ToneHeard, Run.NoiseOn, Periods, Run.Wave;
  }

  /** The envelope alone, in the registers' terms. */
  lemma EnvelopeSounds(run: Run, tr: Trace, s: Sound, plan: Plan)
    requires run.Valid() && Means(run, s, plan) && tr.PlaysFrom(s, plan, run.osc, run.noise)
    requires run.EnvelopeMoves() && !run.ToneHeard() && !run.NoiseOn()
    ensures run.Sounds(tr.Result().steps)
  {
    hide Run.Half, Run.EnvPeriod, Run.NoisePeriod, Run.ToneHeard, Run.NoiseOn, Run.Wave, Run.EnvelopeMoves, Due,
         Trace.PlaysFrom, Trace.Result, Oscillator.Total, LevelWave, Run.Expires;
    ClockedSegments(run, plan, s);
    EnvelopeHeard(tr, s, plan, run.osc, run.noise);
    var n := 1 + Due(plan.end, plan.finalEnd, plan.shape.envPeriod);
    SameWave(Oscillator.Total(run.osc.steps),
             (i: nat) => SegmentStart(plan.start, plan.end, plan.shape.envPeriod, i),
             (i: nat) => SegmentStart(run.start, run.Expires(), run.EnvPeriod(), i),
             (i: nat) => plan.shape.wave(PosAfter(plan.pos, i)) / plan.half,
             (i: nat) => run.Wave(PosAfter(run.envPos, i)) / run.Half(), n);
  }

  lemma {:induction false} SameWave(last: int, start: nat -> int, start1: nat -> int, level: nat -> int,
                                    level1: nat -> int, n: nat)
    requires forall i: nat :: i < n ==> start(i) == start1(i) && level(i) == level1(i)
    ensures LevelWave(last, start, level, n) == LevelWave(last, start1, level1, n)
  {
    hide Jump;
    if n > 0 {
      SameWave(last, start, start1, level, level1, n - 1);
      var i: nat := n - 1;
      assert start(i) == start1(i) && level(i) == level1(i);
      if n > 1 {
        var j: nat := n - 2;
        assert level(j) == level1(j);
      }
    }
  }

  lemma PlacedSounds(run: Run, tr: Trace, s: Sound, plan: Plan)
    requires run.Valid() && Means(run, s, plan) && tr.PlaysFrom(s, plan, run.osc, run.noise)
    requires run.EnvelopeMoves() && (run.ToneHeard() || run.NoiseOn())
    ensures run.Sounds(tr.Result().steps)
  {
    hide Run.Half, Run.EnvPeriod, Run.NoisePeriod, Run.ToneHeard, Run.NoiseOn, Run.Wave, Run.EnvelopeMoves, Due,
         Trace.PlaysFrom, Trace.Result, Oscillator.Total, LevelWave, Run.Expires, Ticks, Run.Volume;
    AllPlaced(tr, s, plan, run.osc, run.noise);
    if run.Expires() >= run.end {
      NoTick(0, plan.end, plan.shape.envPeriod);
      forall t: int
        ensures !Ticks(t, plan.end, plan.shape.envPeriod, plan.finalEnd)
      {
        NoTick(t, plan.end, plan.shape.envPeriod);
      }
    }
  }

  lemma HeldSounds(run: Run, tr: Trace, s: Sound, plan: Plan)
    requires run.Valid() && Means(run, s, plan) && tr.PlaysFrom(s, plan, run.osc, run.noise) && !run.EnvelopeMoves()
    ensures run.Sounds(tr.Result().steps)
  {
    hide Run.Half, Run.EnvPeriod, Run.NoisePeriod, Run.ToneHeard, Run.NoiseOn, Run.Wave, Run.EnvelopeMoves, Due,
         DueThrough, Trace.PlaysFrom, Trace.Result, Oscillator.Total, LevelWave, Run.Expires, Ticks, Run.Volume,
         SquareWave, NoiseWave, InTurn, Jump, NoiseAt, Trace.NoiseLeft;
    if s.toneOff && s.noiseOff {
      LevelHeard(tr, s, plan, run.osc, run.noise);
    } else if s.noiseOff {
      ToneHeard(tr, s, plan, run.osc, run.noise);
    } else if s.toneOff {
      NoiseHeard(tr, s, plan, run.osc, run.noise);
    } else {
      MixedHeard(tr, s, plan, run.osc, run.noise);
    }
  }

  /** Whatever the registers, a run of the channel sounds as they say. */
  lemma RunSounds(run: Run, tr: Trace, s: Sound, plan: Plan)
    requires run.Valid() && Means(run, s, plan) && tr.PlaysFrom(s, plan, run.osc, run.noise)
    ensures run.Sounds(tr.Result().steps)
  {
    hide Run.Sounds, Means, Run.EnvelopeMoves, Run.ToneHeard, Run.NoiseOn, Trace.PlaysFrom;
    if !run.EnvelopeMoves() {
      HeldSounds(run, tr, s, plan);
    } else if run.ToneHeard() || run.NoiseOn() {
      PlacedSounds(run, tr, s, plan);
    } else {
      EnvelopeSounds(run, tr, s, plan);
    }
  }

  lemma RunLeaves(run: Run, tr: Trace, s: Sound, plan: Plan)
    requires run.Valid() && Means(run, s, plan) && tr.PlaysFrom(s, plan, run.osc, run.noise)
    ensures Leaves(run, tr.OscLeft(run.osc))
  {
    hide Run.Sounds, Run.Half, Run.EnvPeriod, Run.NoisePeriod, Run.ToneHeard, Run.NoiseOn, Run.Wave, Run.Volume,
         Run.EnvelopeMoves, Due, Trace.Complete;
    RunSounds(run, tr, s, plan);
    ToneGoesOn(tr, s, plan, run.osc, run.noise);
  }

  /** Noise that no channel lets through stands still. */
  lemma NoiseStands(traces: seq<Trace>, noise: Noise)
    requires |traces| == 3 && forall i: nat :: i < 3 ==> !traces[i].Valid() || traces[i].sound.noiseOff
    ensures NoiseAfter(traces, noise) == noise
  {
    hide Trace.Valid;
    var two, one := traces[..2], traces[..1];
    assert traces == two + [traces[2]] && two == one + [traces[1]] && one == [] + [traces[0]];
    NoiseAfterNone(noise);
    NoiseAfterNext([], traces[0], noise);
    NoiseAfterNext(one, traces[1], noise);
    NoiseAfterNext(two, traces[2], noise);
  }
}
