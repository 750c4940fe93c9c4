/** The AY-3-8910: tone and noise run interleved, each catching up with the other, under an envelope
    that steps through a wave. */
module AyApu {
  import opened Arith
  import opened Timer
  import Oscillator

  // ---------------------------------------------------------------- tone and noise, event by event

  /** One step of the 17-bit noise register. */
  function NextLfsr(lfsr: nat): nat
    requires 0 < lfsr < 0x2_0000
  {
    var half := lfsr / 2;
    if lfsr % 2 == 0 then half
    else half + 0x1_0000 + (if half / 0x2000 % 2 == 1 then -0x2000 else 0x2000)
  }

  /** A channel between two envelope steps: phase is the tone bit, bit 0 of lfsr the noise bit; time
      and ntime are when tone and noise change next. */
  datatype Mix = Mix(phase: nat, lfsr: nat, time: int, ntime: int, steps: seq<(int, int)>)
  {
    predicate Valid() {
      phase < 2 && 0 < lfsr < 0x2_0000
    }
  }

  datatype Rates = Rates(volume: nat, period: nat, noisePeriod: nat)
  {
    predicate Valid() {
      period > 0 && noisePeriod > 0
    }
  }

  /** The channel sounds while the tone bit and the noise bit are both 1. */
  function Level(r: Rates, phase: nat, lfsr: nat): nat {
    if phase == 1 && lfsr % 2 == 1 then r.volume else 0
  }

  function Emit(steps: seq<(int, int)>, t: int, before: int, after: int): seq<(int, int)> {
    if before == after then steps else steps + [(t, after - before)]
  }

  /** Noise only runs while it can be heard. */
  function NoiseEvent(r: Rates, m: Mix): Mix
    requires m.Valid()
  {
    var lfsr := if m.phase == 1 && r.volume > 0 then NextLfsr(m.lfsr) else m.lfsr;
    m.(lfsr := lfsr, ntime := m.ntime + r.noisePeriod,
       steps := Emit(m.steps, m.ntime, Level(r, m.phase, m.lfsr), Level(r, m.phase, lfsr)))
  }

  function ToneEvent(r: Rates, m: Mix): Mix
    requires m.Valid()
  {
    m.(phase := 1 - m.phase, time := m.time + r.period,
       steps := Emit(m.steps, m.time, Level(r, m.phase, m.lfsr), Level(r, 1 - m.phase, m.lfsr)))
  }

  /** The earlier of the two; noise goes first when they coincide. */
  function NextEvent(r: Rates, m: Mix): Mix
    requires m.Valid()
  {
    if m.ntime <= m.time then NoiseEvent(r, m) else ToneEvent(r, m)
  }

  function Events(r: Rates, m: Mix, k: nat): (e: Mix)
    requires m.Valid()
    ensures e.Valid()
  {
    if k == 0 then m else NextEvent(r, Events(r, m, k - 1))
  }

  lemma EventsNone(r: Rates, m: Mix)
    requires m.Valid()
    ensures Events(r, m, 0) == m
  {
  }

  lemma {:induction false} EventsAdd(r: Rates, m: Mix, j: nat, k: nat)
    requires m.Valid()
    ensures Events(r, Events(r, m, j), k) == Events(r, m, j + k)
  {
    hide NextEvent;
    if k > 0 {
      EventsAdd(r, m, j, k - 1);
    }
  }

  /** Unheard noise can be passed over by division. */
  lemma {:induction false} QuietNoise(r: Rates, m: Mix, k: nat)
    requires r.Valid() && m.Valid() && (m.phase == 0 || r.volume == 0)
    requires k > 0 ==> m.ntime + (k - 1) * r.noisePeriod <= m.time
    ensures Events(r, m, k) == m.(ntime := m.ntime + k * r.noisePeriod)
  {
    if k > 0 {
      assert (k - 1) * r.noisePeriod + r.noisePeriod == k * r.noisePeriod;
      if k > 1 {
        assert (k - 2) * r.noisePeriod + r.noisePeriod == (k - 1) * r.noisePeriod;
      }
      QuietNoise(r, m, k - 1);
    }
  }

  /** The emitted steps always add up to the level the two bits call for. */
  lemma {:induction false} EventsTotal(r: Rates, m: Mix, k: nat)
    requires m.Valid()
    ensures Oscillator.Total(Events(r, m, k).steps) - Level(r, Events(r, m, k).phase, Events(r, m, k).lfsr)
            == Oscillator.Total(m.steps) - Level(r, m.phase, m.lfsr)
  {
    hide NextLfsr, Level, Emit, Oscillator.Total;
    if k > 0 {
      EventsTotal(r, m, k - 1);
      var before, after := Events(r, m, k - 1), Events(r, m, k);
      EmitTotal(before.steps, if before.ntime <= before.time then before.ntime else before.time,
                Level(r, before.phase, before.lfsr), Level(r, after.phase, after.lfsr));
    }
  }

  lemma EmitTotal(steps: seq<(int, int)>, t: int, before: int, after: int)
    ensures Oscillator.Total(Emit(steps, t, before, after)) == Oscillator.Total(steps) + after - before
  {
    if before != after {
      assert Emit(steps, t, before, after)[..|steps|] == steps;
    }
  }

  ghost predicate Ordered(m: Mix) {
    && (forall i, j :: 0 <= i < j < |m.steps| ==> m.steps[i].0 <= m.steps[j].0)
    && (forall i :: 0 <= i < |m.steps| ==> m.steps[i].0 <= m.time && m.steps[i].0 <= m.ntime)
  }

  /** However tone and noise are batched, steps are emitted in the order of their times. */
  lemma {:induction false} EventsOrdered(r: Rates, m: Mix, k: nat)
    requires r.Valid() && m.Valid() && Ordered(m)
    ensures Ordered(Events(r, m, k))
  {
    hide NextLfsr, Level;
    if k > 0 {
      EventsOrdered(r, m, k - 1);
    }
  }

  /** The noise bit becomes bit 1, so it changes exactly when the two low bits differ. */
  lemma NoiseBit(lfsr: nat)
    requires 0 < lfsr < 0x2_0000
    ensures 0 < NextLfsr(lfsr) < 0x2_0000
    ensures NextLfsr(lfsr) % 2 != lfsr % 2 <==> (lfsr + 1) / 2 % 2 == 1
  {
    var half := lfsr / 2;
    assert NextLfsr(lfsr) % 2 == half % 2;
  }

  // ---------------------------------------------------------------- the envelope

  /** The next of the 48 positions of an envelope wave; the last 32 repeat. */
  function NextPos(pos: int): int {
    if pos + 1 >= 0 then pos + 1 - 32 else pos + 1
  }

  datatype Envelope = Envelope(pos: int, delay: int)

  /** elapsed clocks of the envelope, one expiration at a time. */
  function EnvelopeRun(e: Envelope, period: nat, elapsed: nat): Envelope
    requires period > 0
    decreases elapsed - e.delay
  {
    if e.delay > elapsed then Envelope(e.pos, e.delay - elapsed)
    else EnvelopeRun(Envelope(NextPos(e.pos), e.delay + period), period, elapsed)
  }

  /** The closed form the source uses. */
  function EnvelopeJump(e: Envelope, period: nat, elapsed: nat): Envelope
    requires period > 0
  {
    var remain := elapsed - e.delay;
    if remain < 0 then Envelope(e.pos, -remain)
    else
      var count := (remain + period) / period;
      Envelope(Wrapped(e.pos + count), count * period - remain)
  }

  /** count expirations further on, and then back into the repeating part. */
  function Wrapped(pos: int): int {
    if pos >= 0 then pos % 32 - 32 else pos
  }

  lemma WrapOnce(pos: int, count: nat)
    requires -48 <= pos < 0
    ensures -48 <= NextPos(pos) < 0 && Wrapped(pos + 1) == NextPos(pos)
    ensures Wrapped(NextPos(pos) + count) == Wrapped(pos + 1 + count)
    ensures -48 <= Wrapped(NextPos(pos) + count) < 0
  {
  }

  /** The closed form takes one expiration at a time as well as all at once. */
  lemma JumpStep(e: Envelope, period: nat, elapsed: nat)
    requires period > 0 && -48 <= e.pos < 0 && e.delay <= elapsed
    ensures EnvelopeJump(e, period, elapsed)
            == EnvelopeJump(Envelope(NextPos(e.pos), e.delay + period), period, elapsed)
  {
    hide NextPos, Wrapped;
    var remain := elapsed - e.delay;
    JumpCount(remain, period);
    WrapOnce(e.pos, if remain < period then 0 else remain / period);
  }

  lemma JumpCount(remain: nat, period: nat)
    requires period > 0
    ensures remain < period ==> (remain + period) / period == 1
    ensures remain >= period ==> remain / period >= 0 && (remain + period) / period == remain / period + 1
    ensures (remain / period + 1) * period == remain / period * period + period
  {
    DivShift(remain, 1, period);
    DivMono(0, remain, period);
    if remain < period {
      DivIs(remain, period, 0);
    }
  }

  lemma {:induction false} EnvelopeClosedForm(e: Envelope, period: nat, elapsed: nat)
    requires period > 0 && -48 <= e.pos < 0
    ensures EnvelopeJump(e, period, elapsed) == EnvelopeRun(e, period, elapsed)
    ensures -48 <= EnvelopeRun(e, period, elapsed).pos < 0 < EnvelopeRun(e, period, elapsed).delay
    decreases elapsed - e.delay
  {
    if e.delay <= elapsed {
      JumpStep(e, period, elapsed);
      WrapOnce(e.pos, 0);
      hide EnvelopeJump;
      EnvelopeClosedForm(Envelope(NextPos(e.pos), e.delay + period), period, elapsed);
    }
  }

  /** Splitting the envelope's time changes nothing. */
  lemma {:induction false} EnvelopeSplit(e: Envelope, period: nat, a: nat, b: nat)
    requires period > 0
    ensures EnvelopeRun(EnvelopeRun(e, period, a), period, b) == EnvelopeRun(e, period, a + b)
    decreases a + b - e.delay
  {
    if e.delay <= a {
      EnvelopeSplit(Envelope(NextPos(e.pos), e.delay + period), period, a, b);
    } else {
      EnvelopeShift(Envelope(e.pos, e.delay - a), period, a, b);
    }
  }

  lemma {:induction false} EnvelopeShift(e: Envelope, period: nat, a: nat, b: nat)
    requires period > 0
    ensures EnvelopeRun(e, period, b) == EnvelopeRun(Envelope(e.pos, e.delay + a), period, a + b)
    decreases b - e.delay
  {
    if e.delay <= b {
      EnvelopeShift(Envelope(NextPos(e.pos), e.delay + period), period, a, b);
    }
  }

  // ---------------------------------------------------------------- the source's loops

  class Channel {
    var phase: nat
    var lfsr: nat
    var time: int
    var ntime: int
    var delta: int                // +volume while sounding, -volume while not
    ghost var steps: seq<(int, int)>

    ghost function State(): Mix
      reads this
    {
      Mix(phase, lfsr, time, ntime, steps)
    }

    /** The loop invariant the source asserts. */
    ghost predicate Valid(r: Rates)
      reads this
    {
      r.Valid() && State().Valid() && delta == 2 * Level(r, phase, lfsr) - r.volume
    }

    /** Runs noise up to and including bound. */
    method RunNoise(r: Rates, bound: int) returns (ghost k: nat)
      requires Valid(r) && bound <= time
      modifies this`lfsr, this`ntime, this`delta, this`steps
      ensures Valid(r) && State() == Events(r, old(State()), k)
      ensures ntime > bound && (old(ntime) > bound ==> State() == old(State())) && ntime >= old(ntime)
      ensures ntime <= bound + r.noisePeriod || ntime == old(ntime)
    {
      if phase == 1 && delta != 0 {
        k := RunHeardNoise(r, bound);
      } else {
        k := 0;
        var remain := bound - ntime;
        if remain >= 0 {
          DivBounds(remain, r.noisePeriod);
          DivMono(0, remain, r.noisePeriod);
          var count := remain / r.noisePeriod;
          assert (count + 1) * r.noisePeriod == count * r.noisePeriod + r.noisePeriod;
          k := count + 1;
          QuietNoise(r, State(), k);
          ntime := ntime + r.noisePeriod + count * r.noisePeriod;
        }
      }
    }

    method RunHeardNoise(r: Rates, bound: int) returns (ghost k: nat)
      requires Valid(r) && bound <= time && phase == 1 && r.volume > 0
      modifies this`lfsr, this`ntime, this`delta, this`steps
      ensures Valid(r) && State() == Events(r, old(State()), k)
      ensures ntime > bound && (old(ntime) > bound ==> State() == old(State())) && ntime >= old(ntime)
      ensures ntime <= bound + r.noisePeriod || ntime == old(ntime)
    {
      hide NextLfsr;
      k := 0;
      ghost var m := State();
      while ntime <= bound
        invariant Valid(r) && ntime >= m.ntime
        invariant State() == Events(r, m, k)
        invariant m.ntime > bound ==> k == 0
        invariant ntime <= bound + r.noisePeriod || ntime == m.ntime
        decreases bound - ntime
      {
        NoiseBit(lfsr);
        var changed := lfsr + 1;
        lfsr := NextLfsr(lfsr);
        if changed / 2 % 2 == 1 {
          delta := -delta;
          steps := steps + [(ntime, delta)];
        }
        ntime := ntime + r.noisePeriod;
        k := k + 1;
      }
    }

    /** Runs the tone up to bound. */
    method RunTone(r: Rates, bound: int) returns (ghost k: nat)
      requires Valid(r) && bound <= ntime
      modifies this`phase, this`time, this`delta, this`steps
      ensures Valid(r) && State() == Events(r, old(State()), k)
      ensures time >= bound && (time < bound + r.period || time == old(time))
      ensures (old(time) >= bound ==> State() == old(State())) && time >= old(time)
    {
      hide NextLfsr;
      if lfsr % 2 == 1 && delta != 0 {
        k := RunHeardTone(r, bound);
      } else {
        k := 0;
        ghost var m := State();
        while time < bound
          invariant Valid(r) && time >= m.time
          invariant State() == Events(r, m, k)
          invariant m.time >= bound ==> k == 0
          invariant time < bound + r.period || time == m.time
          decreases bound - time
        {
          time := time + r.period;
          phase := 1 - phase;
          k := k + 1;
        }
      }
    }

    method RunHeardTone(r: Rates, bound: int) returns (ghost k: nat)
      requires Valid(r) && bound <= ntime && lfsr % 2 == 1 && r.volume > 0
      modifies this`phase, this`time, this`delta, this`steps
      ensures Valid(r) && State() == Events(r, old(State()), k)
      ensures time >= bound && (time < bound + r.period || time == old(time))
      ensures (old(time) >= bound ==> State() == old(State())) && time >= old(time)
    {
      hide NextLfsr;
      k := 0;
      ghost var m := State();
      while time < bound
        invariant r.Valid() && State().Valid() && time >= m.time
        invariant delta == r.volume || delta + r.volume == 0
        invariant State().(phase := if delta > 0 then 1 else 0) == Events(r, m, k)
        invariant m.time >= bound ==> k == 0
        invariant time < bound + r.period || time == m.time
        decreases bound - time
      {
        delta := -delta;
        steps := steps + [(time, delta)];
        time := time + r.period;
        k := k + 1;
      }
      phase := if delta > 0 then 1 else 0;
    }

    /** The catch-up loop: every pass either ends it or moves one of the two clocks. */
    method Interleave(r: Rates, endTime: int) returns (ghost k: nat)
      requires Valid(r)
      modifies this
      ensures Valid(r) && State() == Events(r, old(State()), k)
      ensures endTime <= time && (time < endTime + r.period || time == old(time))
      ensures endTime <= ntime && (ntime <= endTime + r.noisePeriod || ntime == old(ntime))
      ensures old(time) >= endTime ==> time == old(time) && phase == old(phase)
      ensures old(ntime) >= endTime ==> ntime == old(ntime) && lfsr == old(lfsr)
      ensures old(time) >= endTime && old(ntime) < endTime ==> ntime > endTime
    {
      hide Events, NextLfsr, Level;
      k := 0;
      ghost var m := State();
      EventsNone(r, m);
      while time < endTime || ntime < endTime
        invariant Valid(r) && State() == Events(r, m, k)
        invariant time < endTime + r.period || time == m.time
        invariant ntime <= endTime + r.noisePeriod || ntime == m.ntime
        invariant m.time >= endTime ==> time == m.time && phase == m.phase
        invariant m.ntime >= endTime ==> ntime == m.ntime && lfsr == m.lfsr
        invariant m.time >= endTime ==> ntime == m.ntime || ntime > endTime
        decreases (if time < endTime then endTime - time else 0) + (if ntime <= endTime then endTime + 1 - ntime else 0)
      {
        ghost var j := RunNoise(r, if endTime > time then time else endTime);
        EventsAdd(r, m, k, j);
        k := k + j;
        j := RunTone(r, if endTime > ntime then ntime else endTime);
        EventsAdd(r, m, k, j);
        k := k + j;
      }
    }
  }

  const PERIOD_FACTOR: nat := 16
  const INAUDIBLE_FREQ: nat := 16384

  function AmpTable(i: nat): nat
    requires i < 16
  {
    [0, 2, 3, 4, 6, 8, 11, 16, 23, 32, 45, 64, 90, 128, 180, 255][i]
  }

  // ---------------------------------------------------------------- the envelope waves

  /** Start and end of the three ramps of an envelope, 1 for loud. */
  function Ramps(row: nat): (r: seq<nat>)
    requires row < 8
    ensures |r| == 6 && forall i :: 0 <= i < 6 ==> r[i] < 2
  {
    [[1, 0, 1, 0, 1, 0], [1, 0, 0, 0, 0, 0], [1, 0, 0, 1, 1, 0], [1, 0, 1, 1, 1, 1],
     [0, 1, 0, 1, 0, 1], [0, 1, 1, 1, 1, 1], [0, 1, 1, 0, 0, 1], [0, 1, 0, 0, 0, 0]][row]
  }

  /** The volume index i places into the envelope. */
  function RampLevel(row: nat, i: nat): (level: nat)
    requires row < 8 && i < 48
    ensures level < 16
  {
    var amp, end, y := Ramps(row)[i / 16 * 2], Ramps(row)[i / 16 * 2 + 1], i % 16;
    if amp == end then amp * 15 else if amp == 0 then y else 15 - y
  }

  /** All eight waves, one behind the other. */
  ghost predicate IsWaveTable(waves: seq<nat>) {
    && |waves| == 384
    && forall row: nat, i: nat :: row < 8 && i < 48 ==> waves[row * 48 + i] == AmpTable(RampLevel(row, i))
  }

  /** The mode register 13 selects. */
  function EnvelopeMode(value: nat): nat {
    if value / 8 % 2 == 1 then value else if value / 4 % 2 == 1 then 15 else 9
  }

  /** The simple shapes are one ramp, down or up, and then silence. */
  lemma SimpleShapes(value: nat, i: nat)
    requires value / 8 % 2 == 0 && i < 48
    ensures RampLevel(EnvelopeMode(value) - 8, i) ==
            if i >= 16 then 0 else if value / 4 % 2 == 1 then i else 15 - i
  {
    assert Ramps(1) == [1, 0, 0, 0, 0, 0] && Ramps(7) == [0, 1, 0, 0, 0, 0];
  }

  /** Where the source points for mode data: one row past the one it plays, as positions are negative. */
  function WaveEnd(mode: nat): int {
    (mode - 7) * 48
  }

  predicate InTable(value: nat, pos: int) {
    0 <= WaveEnd(EnvelopeMode(value)) + pos < 384
  }

  lemma WaveAt(waves: seq<nat>, row: nat, i: nat)
    requires IsWaveTable(waves) && row < 8 && i < 48
    ensures row * 48 + i < |waves| && waves[row * 48 + i] == AmpTable(RampLevel(row, i))
  {
  }

  /** So each mode plays its own row; the byte written is not masked, and one above 15 with bit 3 set
      plays from beyond the table at every position. */
  lemma WaveInTable(waves: seq<nat>, value: nat)
    requires IsWaveTable(waves)
    ensures (forall pos: int :: -48 <= pos < 0 ==> InTable(value, pos)) <==> value / 8 % 2 == 0 || value < 0x10
    ensures (forall pos: int :: -48 <= pos < 0 ==> !InTable(value, pos)) <==> value / 8 % 2 == 1 && value >= 0x10
    ensures forall pos: int :: -48 <= pos < 0 && InTable(value, pos) ==>
              waves[WaveEnd(EnvelopeMode(value)) + pos] == AmpTable(RampLevel(EnvelopeMode(value) - 8, pos + 48))
  {
    hide AmpTable, RampLevel;
    var mode := EnvelopeMode(value);
    assert InTable(value, -1) <==> mode < 16;
    forall pos: int | -48 <= pos < 0 && InTable(value, pos)
      ensures waves[WaveEnd(mode) + pos] == AmpTable(RampLevel(mode - 8, pos + 48))
    {
      WaveAt(waves, mode - 8, pos + 48);
    }
  }

  /** The least such byte: data - 7 is row 17 of 8. */
  lemma WaveBeyondTable()
    ensures WaveEnd(EnvelopeMode(0x18)) == 17 * 48 && forall pos: int :: -48 <= pos < 0 ==> !InTable(0x18, pos)
  {
  }

  /** The constructor's table. */
  method BuildWaves() returns (waves: seq<nat>)
    ensures IsWaveTable(waves)
  {
    hide AmpTable, Ramps;
    waves := [];
    for row := 0 to 8
      invariant |waves| == row * 48
      invariant forall r: nat, i: nat :: r < row && i < 48 ==> waves[r * 48 + i] == AmpTable(RampLevel(r, i))
    {
      var out := BuildWave(row);
      ghost var before := waves;
      waves := waves + out;
      forall r: nat, i: nat | r < row + 1 && i < 48
        ensures waves[r * 48 + i] == AmpTable(RampLevel(r, i))
      {
        if r < row {
          assert waves[r * 48 + i] == before[r * 48 + i];
        } else {
          assert waves[r * 48 + i] == out[i];
        }
      }
    }
  }

  /** Along a ramp the level moves by the difference of its ends. */
  lemma RampSteps(row: nat, x: nat, y: nat)
    requires row < 8 && x < 3 && y < 16
    ensures y == 0 ==> RampLevel(row, x * 16 + y) == Ramps(row)[2 * x] * 15
    ensures y < 15 ==> RampLevel(row, x * 16 + (y + 1)) + Ramps(row)[2 * x]
                       == RampLevel(row, x * 16 + y) + Ramps(row)[2 * x + 1]
  {
    hide Ramps;
    assert (x * 16 + y) / 16 == x && (x * 16 + y) % 16 == y;
    assert y < 15 ==> (x * 16 + (y + 1)) / 16 == x && (x * 16 + (y + 1)) % 16 == y + 1;
  }

  method BuildWave(row: nat) returns (out: seq<nat>)
    requires row < 8
    ensures |out| == 48 && forall i: nat :: i < 48 ==> out[i] == AmpTable(RampLevel(row, i))
  {
    hide AmpTable, Ramps, RampLevel;
    out := [];
    for x := 0 to 3
      invariant |out| == x * 16
      invariant forall i: nat :: i < x * 16 ==> out[i] == AmpTable(RampLevel(row, i))
    {
      var amp: int, end: int := Ramps(row)[2 * x], Ramps(row)[2 * x + 1];
      var step := end - amp;
      amp := amp * 15;
      RampSteps(row, x, 0);
      for y := 0 to 16
        invariant |out| == x * 16 + y && (y < 16 ==> amp == RampLevel(row, x * 16 + y))
        invariant forall i: nat :: i < x * 16 + y ==> out[i] == AmpTable(RampLevel(row, i))
      {
        RampSteps(row, x, y);
        out := out + [AmpTable(amp)];
        amp := amp + step;
      }
    }
  }

  /** What a run of a channel picks up of its oscillator, and of the noise all channels share, and what
      it leaves behind. */
  datatype OscState = OscState(delay: int, phase: nat, steps: seq<(int, int)>)

  datatype Noise = Noise(delay: int, lfsr: nat)

  /** A pending expiration after a change of the period. */
  function Moved(delay: int, period: int, next: int): int {
    if delay + next >= period then delay + next - period else 0
  }

  class Osc {
    var period: nat
    var delay: nat
    var lastAmp: int
    var phase: nat
    var output: bool
    ghost var steps: seq<(int, int)>

    ghost predicate Valid()
      reads this
    {
      0 <= delay < period && phase < 2 && lastAmp == Oscillator.Total(steps)
    }

    ghost function State(): OscState
      reads this`delay, this`phase, this`steps
    {
      OscState(delay, phase, steps)
    }

    constructor (output: bool)
      ensures Valid() && this.output == output && steps == []
    {
      period, delay, lastAmp, phase := PERIOD_FACTOR, 0, 0, 0;
      this.output := output;
      steps := [];
    }

    /** A period write moves the pending expiration by the change, but not into the past: the time since the
        last one stays, unless it is longer than the new period. */
    method SetPeriod(reg: nat)
      requires Valid()
      modifies this`period, this`delay
      ensures Valid() && period == (if reg == 0 then PERIOD_FACTOR else reg * PERIOD_FACTOR)
      ensures delay == Moved(old(delay), old(period), period)
      ensures if old(period - delay) <= period then period - delay == old(period - delay) else delay == 0
    {
      var next := reg * PERIOD_FACTOR;
      if next == 0 {
        next := PERIOD_FACTOR;
      }
      var moved := delay + next - period;
      delay := if moved < 0 then 0 else moved;
      period := next;
    }
  }

  /** The registers that shape one channel's output during a run. */
  datatype Shape = Shape(
    toneOff: bool,
    noiseOff: bool,
    volumeReg: nat,               // registers 8 to 10
    once: bool,                   // register 13 bit 0: the envelope stops after its ramp
    wave: int -> nat,             // by envelope position
    envPeriod: nat,
    noisePeriod: nat,
    inaudiblePeriod: nat)
  {
    predicate Valid() {
      envPeriod > 0 && noisePeriod > 0
    }

    /** The envelope matters for the run: it is switched on, and repeats or has not finished its ramp. */
    predicate EnvelopeRuns(pos: int) {
      volumeReg / 0x10 % 2 == 1 && (!once || pos < -32)
    }
  }

  /** What a channel plays in a run: whether tone and noise are held at 1, the volume to begin with,
      and until when that volume holds. */
  datatype Sound = Sound(toneOff: bool, noiseOff: bool, half: nat, volume: nat, end: int)

  function SoundOf(shape: Shape, period: nat, lastTime: int, finalEnd: int, env: Envelope): (s: Sound)
    requires shape.Valid() && lastTime <= finalEnd && -48 <= env.pos < 0 < env.delay
    ensures lastTime <= s.end <= finalEnd && 1 <= s.half <= 2
    ensures s.volume > 0 || s.end < finalEnd ==>
              && s.noiseOff == shape.noiseOff
              && s.toneOff == (shape.toneOff || period <= shape.inaudiblePeriod)
    ensures !shape.EnvelopeRuns(env.pos) ==> s.end == finalEnd && (s.volume == 0 ==> s.toneOff && s.noiseOff)
    ensures s.end < finalEnd ==> shape.EnvelopeRuns(env.pos) && s.end == lastTime + env.delay
  {
    var high := period <= shape.inaudiblePeriod && !shape.toneOff;
    var half := if high then 2 else 1;
    var toneOff := shape.toneOff || high;
    if shape.volumeReg / 0x10 % 2 == 1 then
      var volume := shape.wave(env.pos) / half;
      // the envelope is used only if it repeats or is a ramp that has not finished
      if !shape.once || env.pos < -32 then
        var end := lastTime + env.delay;
        Sound(toneOff, shape.noiseOff, half, volume, if end >= finalEnd then finalEnd else end)
      else
        Sound(toneOff || volume == 0, shape.noiseOff || volume == 0, half, volume, finalEnd)
    else
      var volume := AmpTable(shape.volumeReg % 16) / half;
      Sound(toneOff || volume == 0, shape.noiseOff || volume == 0, half, volume, finalEnd)
  }

  /** The channel at the start of a run: a part that is off is held at 1 and its clock is past the end. */
  ghost function StartMix(s: Sound, plan: Plan, osc: OscState, noise: Noise): Mix
    requires plan.Valid()
  {
    var time := plan.start + osc.delay;
    Mix(if s.toneOff then 1 else osc.phase, if s.noiseOff then 1 else noise.lfsr,
        if s.toneOff then time + Periods(time, plan.finalEnd, plan.period) * plan.period else time,
        if s.noiseOff then plan.finalEnd else plan.start + noise.delay, osc.steps)
  }

  /** What a run of one channel did: ks[i] events in the i-th segment of the plan, from start on. */
  datatype Trace = Trace(sound: Sound, plan: Plan, start: Mix, ks: seq<nat>)
  {
    ghost predicate Valid() {
      plan.Valid() && start.Valid() && |ks| > 0
    }

    ghost function Result(): Mix
      requires Valid()
    {
      plan.After(start, ks, |ks|)
    }

    /** The last segment is the one that reaches the end of the run. */
    ghost predicate Complete()
      requires Valid()
    {
      && plan.End(|ks| - 1) == plan.finalEnd && (forall i: nat :: i + 1 < |ks| ==> plan.End(i) < plan.finalEnd)
      && Played(plan, start, ks, Result())
    }

    /** The oscillator as the run leaves it: a tone that is off keeps its phase all the same. */
    ghost function OscLeft(osc: OscState): OscState
      requires Valid()
    {
      OscState(Result().time - plan.finalEnd,
               if sound.toneOff then (osc.phase + Periods(plan.start + osc.delay, plan.finalEnd, plan.period)) % 2
               else Result().phase,
               Result().steps)
    }

    /** The noise as the run leaves it. */
    ghost function NoiseLeft(noise: Noise): Noise
      requires Valid()
    {
      if sound.noiseOff then noise else Noise(Result().ntime - plan.finalEnd, Result().lfsr)
    }

    /** A complete run of the plan that starts from this oscillator and this noise. */
    ghost predicate PlaysFrom(s: Sound, p: Plan, osc: OscState, noise: Noise) {
      && Valid() && Complete() && sound == s && plan == p
      && start == StartMix(s, p, osc, noise)
    }
  }

  /** One channel's share of run_until: its segments are played from the oscillator's state. A part
      that is off is held at 1, and a tone that is off keeps its phase. Afterwards the output is at the
      last volume if the tone and the noise bit are both 1, and at zero otherwise. */
  method RunChannel(osc: Osc, shape: Shape, lastTime: int, finalEnd: int, env: Envelope, noiseDelay: nat,
                    noiseLfsr: nat)
    returns (noiseRan: bool, newDelay: nat, newLfsr: nat, ghost trace: Trace)
    requires osc.Valid() && osc.output && shape.Valid() && lastTime <= finalEnd
    requires -48 <= env.pos < 0 < env.delay && 0 < noiseLfsr < 0x2_0000
    modifies osc`delay, osc`lastAmp, osc`phase, osc`steps
    ensures osc.Valid() && 0 < newLfsr < 0x2_0000
    ensures var s := SoundOf(shape, osc.period, lastTime, finalEnd, env);
            && noiseRan == !s.noiseOff
            && trace.PlaysFrom(s, PlanFor(shape, osc.period, s, lastTime, finalEnd, env.pos), old(osc.State()),
                               Noise(noiseDelay, noiseLfsr))
    ensures osc.State() == trace.OscLeft(old(osc.State()))
    ensures Noise(newDelay, newLfsr) == trace.NoiseLeft(Noise(noiseDelay, noiseLfsr))
    ensures var toneOff := shape.toneOff || osc.period <= shape.inaudiblePeriod;
            osc.lastAmp == if (toneOff || osc.phase == 1) && (shape.noiseOff || newLfsr % 2 == 1)
                           then trace.plan.Volume(|trace.ks| - 1) else 0
  {
    hide AmpTable, NextLfsr, Events, SoundOf, Plan.Volume, Plan.End, Plan.After, Periods, Played, StartMix;
    var s := SoundOf(shape, osc.period, lastTime, finalEnd, env);
    var plan := PlanFor(shape, osc.period, s, lastTime, finalEnd, env.pos);
    ghost var before := osc.State();
    var c := Prepare(osc, s, plan, lastTime, finalEnd, noiseDelay, noiseLfsr);
    ghost var start, ks := c.State(), [];
    var volume;
    volume, osc.lastAmp, ks := RunSegments(c, plan, osc.lastAmp);
    trace := Trace(s, plan, start, ks);
    PlayedTo(plan, start, ks, c.State());

    if !s.toneOff {
      osc.phase := c.phase;
    }
    osc.steps := c.steps;
    osc.delay := c.time - finalEnd;
    noiseRan, newDelay, newLfsr := !s.noiseOff, noiseDelay, noiseLfsr;
    if noiseRan {
      newDelay, newLfsr := c.ntime - finalEnd, c.lfsr;
    }
    FirstVolume(plan, |ks| - 1);
    LastAmp(shape, osc.period, lastTime, finalEnd, env, s, c.phase, c.lfsr, osc.phase, newLfsr, volume);
  }

  /** A silent sound is played as if both parts were off; otherwise the bits are those of the registers. */
  lemma LastAmp(shape: Shape, period: nat, lastTime: int, finalEnd: int, env: Envelope, s: Sound, phase: nat,
                lfsr: nat, oscPhase: nat, newLfsr: nat, volume: nat)
    requires shape.Valid() && lastTime <= finalEnd && -48 <= env.pos < 0 < env.delay
    requires s == SoundOf(shape, period, lastTime, finalEnd, env)
    requires if s.toneOff then phase == 1 else oscPhase == phase
    requires if s.noiseOff then lfsr == 1 else newLfsr == lfsr
    requires s.end == finalEnd ==> volume == s.volume
    ensures var toneOff := shape.toneOff || period <= shape.inaudiblePeriod;
            (if phase == 1 && lfsr % 2 == 1 then volume else 0)
            == if (toneOff || oscPhase == 1) && (shape.noiseOff || newLfsr % 2 == 1) then volume else 0
  {
    hide SoundOf;
  }

  function PlanFor(shape: Shape, period: nat, s: Sound, lastTime: int, finalEnd: int, pos: int): Plan {
    Plan(shape, period, s.half, s.volume, lastTime, s.end, finalEnd, pos)
  }

  lemma FirstVolume(plan: Plan, i: nat)
    requires plan.Valid()
    ensures i == 0 ==> plan.Volume(i) == plan.volume && plan.End(i) == plan.end
    ensures plan.End(0) == plan.end
  {
  }

  /** Sets the clocks up for the run; the one of a part that is off starts past the end. */
  method Prepare(osc: Osc, s: Sound, ghost plan: Plan, lastTime: int, finalEnd: int, noiseDelay: nat, noiseLfsr: nat)
    returns (c: Channel)
    requires osc.Valid() && plan.Valid() && 0 < noiseLfsr < 0x2_0000
    requires plan.start == lastTime && plan.finalEnd == finalEnd && plan.period == osc.period
    modifies osc`phase
    ensures fresh(c) && c.State().Valid() && osc.Valid()
    ensures osc.phase == if s.toneOff then (old(osc.phase) + Periods(lastTime + osc.delay, finalEnd, osc.period)) % 2
                         else old(osc.phase)
    ensures c.State() == StartMix(s, plan, old(osc.State()), Noise(noiseDelay, noiseLfsr))
    ensures c.phase == if s.toneOff then 1 else osc.phase
    ensures if s.toneOff then finalEnd <= c.time < finalEnd + osc.period else c.time == lastTime + osc.delay
    ensures if s.noiseOff then c.lfsr == 1 && c.ntime == finalEnd
            else c.lfsr == noiseLfsr && c.ntime == lastTime + noiseDelay
    ensures c.steps == osc.steps
  {
    hide Oscillator.Total;
    c := new Channel;
    c.time := lastTime + osc.delay;
    if s.toneOff {
      var count := (finalEnd - c.time + osc.period - 1) / osc.period;
      SkipTone(c.time, finalEnd, osc.period);
      c.time := c.time + count * osc.period;
      osc.phase := (osc.phase + count) % 2;
    }
    c.ntime, c.lfsr := finalEnd, 1;
    if !s.noiseOff {
      c.ntime, c.lfsr := lastTime + noiseDelay, noiseLfsr;
    }
    c.phase := if s.toneOff then 1 else osc.phase;
    c.steps := osc.steps;
  }

  /** How a channel's run is cut up by the envelope: one segment for each of its positions. */
  datatype Plan = Plan(shape: Shape, period: nat, half: nat, volume: nat, start: int, end: int, finalEnd: int, pos: int)
  {
    predicate Valid() {
      shape.Valid() && period > 0 && half > 0 && -48 <= pos < 0 && start <= end <= finalEnd
    }

    function Pos(i: nat): int {
      if i == 0 then pos else NextPos(Pos(i - 1))
    }

    function Volume(i: nat): nat
      requires Valid()
    {
      if i == 0 then volume else shape.wave(Pos(i)) / half
    }

    function End(i: nat): int {
      if i == 0 then end
      else if End(i - 1) + shape.envPeriod > finalEnd then finalEnd
      else End(i - 1) + shape.envPeriod
    }

    function Start(i: nat): int {
      if i == 0 then start else End(i - 1)
    }

    function RatesAt(i: nat): (r: Rates)
      requires Valid()
      ensures r.Valid()
    {
      Rates(Volume(i), period, shape.noisePeriod)
    }

    /** The state after i segments of ks[0], ks[1], ... events: each begins by stepping to its level. */
    ghost function After(m: Mix, ks: seq<nat>, i: nat): (e: Mix)
      requires Valid() && m.Valid() && i <= |ks|
      ensures e.Valid()
    {
      if i == 0 then m
      else Events(RatesAt(i - 1), AtLevel(RatesAt(i - 1), After(m, ks, i - 1), Start(i - 1)), ks[i - 1])
    }
  }

  ghost function AtLevel(r: Rates, m: Mix, t: int): Mix {
    m.(steps := Emit(m.steps, t, Oscillator.Total(m.steps), Level(r, m.phase, m.lfsr)))
  }

  /** Both clocks have reached the end, neither by more than a period of its own, and one that was there
      already has not moved. Noise alone is run past its end. */
  ghost predicate CaughtUp(r: Rates, before: Mix, after: Mix, end: int) {
    && end <= after.time && (after.time < end + r.period || after.time == before.time)
    && end <= after.ntime && (after.ntime <= end + r.noisePeriod || after.ntime == before.ntime)
    && (before.time >= end ==> after.time == before.time && after.phase == before.phase)
    && (before.ntime >= end ==> after.ntime == before.ntime && after.lfsr == before.lfsr)
    && (before.time >= end && before.ntime < end ==> after.ntime > end)
  }

  /** e is what ks segments lead to, each of them running to its end. */
  ghost predicate Played(plan: Plan, m: Mix, ks: seq<nat>, e: Mix)
    requires plan.Valid() && m.Valid()
  {
    && e == plan.After(m, ks, |ks|)
    && forall i: nat :: i < |ks| ==>
         CaughtUp(plan.RatesAt(i), plan.After(m, ks, i), plan.After(m, ks, i + 1), plan.End(i))
  }

  lemma {:induction false} AfterPrefix(plan: Plan, m: Mix, ks: seq<nat>, k: nat, i: nat)
    requires plan.Valid() && m.Valid() && i <= |ks|
    ensures plan.After(m, ks + [k], i) == plan.After(m, ks, i)
  {
    hide Events;
    if i > 0 {
      AfterPrefix(plan, m, ks, k, i - 1);
    }
  }

  lemma PlayedTo(plan: Plan, m: Mix, ks: seq<nat>, e: Mix)
    requires plan.Valid() && m.Valid() && Played(plan, m, ks, e)
    ensures e == plan.After(m, ks, |ks|)
  {
  }

  lemma PlayedNone(plan: Plan, m: Mix)
    requires plan.Valid() && m.Valid()
    ensures Played(plan, m, [], m)
  {
  }

  lemma AfterNext(plan: Plan, m: Mix, ks: seq<nat>, k: nat)
    requires plan.Valid() && m.Valid()
    ensures var i := |ks|;
            plan.After(m, ks + [k], i + 1)
            == Events(plan.RatesAt(i), AtLevel(plan.RatesAt(i), plan.After(m, ks, i), plan.Start(i)), k)
  {
    hide Events, AtLevel, Plan.RatesAt, Plan.Start;
    AfterPrefix(plan, m, ks, k, |ks|);
  }

  lemma PlayedNext(plan: Plan, m: Mix, ks: seq<nat>, e: Mix, k: nat)
    requires plan.Valid() && m.Valid() && e.Valid() && Played(plan, m, ks, e)
    requires var r, i := plan.RatesAt(|ks|), |ks|;
             CaughtUp(r, e, Events(r, AtLevel(r, e, plan.Start(i)), k), plan.End(i))
    ensures var r, i := plan.RatesAt(|ks|), |ks|;
            Played(plan, m, ks + [k], Events(r, AtLevel(r, e, plan.Start(i)), k))
  {
    hide Events, AtLevel, CaughtUp, Plan.RatesAt, Plan.Start, Plan.End, Plan.After;
    AfterPrefix(plan, m, ks, k, |ks|);
    AfterNext(plan, m, ks, k);
    forall i: nat | i < |ks| + 1
      ensures CaughtUp(plan.RatesAt(i), plan.After(m, ks + [k], i), plan.After(m, ks + [k], i + 1), plan.End(i))
    {
      if i < |ks| {
        AfterPrefix(plan, m, ks, k, i);
        AfterPrefix(plan, m, ks, k, i + 1);
      }
    }
  }

  lemma AtLevelTotal(r: Rates, m: Mix, t: int)
    requires m.Valid()
    ensures Oscillator.Total(AtLevel(r, m, t).steps) == Level(r, m.phase, m.lfsr) && AtLevel(r, m, t).Valid()
  {
    var steps := AtLevel(r, m, t).steps;
    if steps != m.steps {
      assert steps[..|steps| - 1] == m.steps;
    }
  }

  /** The loop over envelope steps; it makes one pass when the envelope is not used. */
  method RunSegments(c: Channel, plan: Plan, last: int) returns (volume: nat, lastAmp: int, ghost ks: seq<nat>)
    requires plan.Valid() && c.State().Valid() && last == Oscillator.Total(c.steps)
             && c.time < plan.finalEnd + plan.period
    modifies c
    ensures c.State().Valid() && |ks| > 0 && Played(plan, old(c.State()), ks, c.State())
    ensures plan.End(|ks| - 1) == plan.finalEnd && forall i: nat :: i + 1 < |ks| ==> plan.End(i) < plan.finalEnd
    ensures plan.finalEnd <= c.time < plan.finalEnd + plan.period && c.ntime >= plan.finalEnd
    ensures volume == plan.Volume(|ks| - 1)
    ensures lastAmp == Oscillator.Total(c.steps) == if c.phase == 1 && c.lfsr % 2 == 1 then volume else 0
    ensures old(c.time) >= plan.finalEnd ==> c.phase == old(c.phase)
    ensures old(c.ntime) >= plan.finalEnd ==> c.lfsr == old(c.lfsr)
  {
    hide Events, NextLfsr, AtLevel, NextPos, Played, Oscillator.Total;
    var startTime, endTime, envPos := plan.start, plan.end, plan.pos;
    volume := plan.volume;
    ghost var m := c.State();
    ks := [];
    PlayedNone(plan, m);
    lastAmp, ks := RunSegment(c, plan, Rates(volume, plan.period, plan.shape.noisePeriod), last, startTime, endTime,
      m, ks);
    while endTime < plan.finalEnd
      invariant c.State().Valid() && |ks| > 0 && Played(plan, m, ks, c.State())
      invariant endTime == plan.End(|ks| - 1) <= plan.finalEnd && envPos == plan.Pos(|ks| - 1)
                && volume == plan.Volume(|ks| - 1)
      invariant endTime <= c.time < plan.finalEnd + plan.period && endTime <= c.ntime
      invariant lastAmp == Oscillator.Total(c.steps) == Level(plan.RatesAt(|ks| - 1), c.phase, c.lfsr)
      invariant forall j: nat :: j + 1 < |ks| ==> plan.End(j) < plan.finalEnd
      invariant m.time >= plan.finalEnd ==> c.phase == m.phase && c.time == m.time
      invariant m.ntime >= plan.finalEnd ==> c.lfsr == m.lfsr && c.ntime == m.ntime
      decreases plan.finalEnd - endTime
    {
      StepPos(envPos);
      envPos := envPos + 1;
      if envPos >= 0 {
        envPos := envPos - 32;
      }
      volume := plan.shape.wave(envPos) / plan.half;
      startTime := endTime;
      endTime := endTime + plan.shape.envPeriod;
      if endTime > plan.finalEnd {
        endTime := plan.finalEnd;
      }
      lastAmp, ks := RunSegment(c, plan, Rates(volume, plan.period, plan.shape.noisePeriod), lastAmp, startTime,
        endTime, m, ks);
    }
  }

  lemma StepPos(pos: int)
    ensures NextPos(pos) == if pos + 1 >= 0 then pos + 1 - 32 else pos + 1
  {
  }

  /** The body of that loop: brings the output to the present level, then runs to the segment's end. */
  method RunSegment(c: Channel, ghost plan: Plan, r: Rates, last: int, startTime: int, endTime: int, ghost m: Mix,
      ghost ks: seq<nat>)
    returns (lastAmp: int, ghost ks1: seq<nat>)
    requires plan.Valid() && m.Valid() && c.State().Valid() && last == Oscillator.Total(c.steps)
    requires Played(plan, m, ks, c.State())
    requires r == plan.RatesAt(|ks|) && startTime == plan.Start(|ks|) && endTime == plan.End(|ks|)
    modifies c
    ensures c.State().Valid() && |ks1| == |ks| + 1 && Played(plan, m, ks1, c.State())
    ensures endTime <= c.time && endTime <= c.ntime && (c.time < endTime + r.period || c.time == old(c.time))
    ensures lastAmp == Oscillator.Total(c.steps) == Level(r, c.phase, c.lfsr)
    ensures old(c.time) >= endTime ==> c.time == old(c.time) && c.phase == old(c.phase)
    ensures old(c.ntime) >= endTime ==> c.ntime == old(c.ntime) && c.lfsr == old(c.lfsr)
  {
    hide Events, NextLfsr, Played, Plan.RatesAt, Plan.Start, Plan.End;
    ghost var k;
    lastAmp, k := CatchUp(c, r, last, startTime, endTime);
    PlayedNext(plan, m, ks, old(c.State()), k);
    ks1 := ks + [k];
  }

  method CatchUp(c: Channel, r: Rates, last: int, startTime: int, endTime: int) returns (lastAmp: int, ghost k: nat)
    requires r.Valid() && c.State().Valid() && last == Oscillator.Total(c.steps)
    modifies c
    ensures c.State().Valid() && c.State() == Events(r, AtLevel(r, old(c.State()), startTime), k)
    ensures CaughtUp(r, old(c.State()), c.State(), endTime)
    ensures lastAmp == Oscillator.Total(c.steps) == Level(r, c.phase, c.lfsr)
    ensures old(c.time) >= endTime ==> c.time == old(c.time) && c.phase == old(c.phase)
    ensures old(c.ntime) >= endTime ==> c.ntime == old(c.ntime) && c.lfsr == old(c.lfsr)
  {
    hide Events, NextLfsr, AtLevel, Oscillator.Total;
    var amp := StepToLevel(c, r, last, startTime);
    ghost var before := c.State();
    lastAmp, k := amp, 0;
    EventsNone(r, before);
    if c.ntime < endTime || c.time < endTime {
      c.delta := amp * 2 - r.volume;
      k := c.Interleave(r, endTime);
      EventsTotal(r, before, k);
      lastAmp := (c.delta + r.volume) / 2;
    }
  }

  method StepToLevel(c: Channel, r: Rates, last: int, startTime: int) returns (amp: int)
    requires r.Valid() && c.State().Valid() && last == Oscillator.Total(c.steps)
    modifies c`steps
    ensures c.State() == AtLevel(r, old(c.State()), startTime)
    ensures amp == Oscillator.Total(c.steps) == Level(r, c.phase, c.lfsr)
  {
    hide Oscillator.Total;
    AtLevelTotal(r, c.State(), startTime);
    amp := if c.phase == 1 && c.lfsr % 2 == 1 then r.volume else 0;
    if amp != last {
      c.steps := c.steps + [(startTime, amp - last)];
    }
  }

  /** The oscillator after a trace; that of a channel without an output, which has not played, is invalid. */
  ghost function Left(trace: Trace, osc: OscState): OscState {
    if trace.Valid() then trace.OscLeft(osc) else osc
  }

  /** The noise after the traces: the last channel that runs it leaves its state behind. */
  ghost function NoiseAfter(traces: seq<Trace>, noise: Noise): Noise {
    if traces == [] then noise else NoisePast(traces[|traces| - 1], NoiseAfter(traces[..|traces| - 1], noise))
  }

  ghost function NoisePast(trace: Trace, noise: Noise): Noise {
    if trace.Valid() then trace.NoiseLeft(noise) else noise
  }

  lemma NoiseAfterNone(noise: Noise)
    ensures NoiseAfter([], noise) == noise
  {
  }

  lemma NoiseAfterNext(traces: seq<Trace>, trace: Trace, noise: Noise)
    ensures NoiseAfter(traces + [trace], noise) == NoisePast(trace, NoiseAfter(traces, noise))
  {
    assert (traces + [trace])[..|traces|] == traces;
  }

  /** A channel with an output has played its plan from the state the oscillator and the noise were in,
      and is in the state that leaves; one without has done nothing. */
  ghost predicate Heard(osc: Osc, before: OscState, noise: Noise, sound: Sound, plan: Plan, trace: Trace)
    reads osc`output, osc`phase, osc`steps
  {
    && (if osc.output then trace.PlaysFrom(sound, plan, before, noise) else !trace.Valid())
    && osc.phase == Left(trace, before).phase && osc.steps == Left(trace, before).steps
  }

  lemma SkipTone(time: int, end: int, period: nat)
    requires period > 0 && time < end + period
    ensures var count := (end - time + period - 1) / period;
            count == Periods(time, end, period) && end <= time + count * period < end + period
  {
    var left := end - time;
    DivBounds(left + period - 1, period);
    DivMono(0, left + period - 1, period);
    if left <= 0 {
      DivIs(left + period - 1, period, 0);
    }
  }
}
