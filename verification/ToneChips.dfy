/** The NES square wave, the Konami SCC and the Sunsoft FME-7: each has an audible loop that goes
    through its phases one by one and a silent path that jumps over them by division. All three are
    shown to do exactly what Oscillator.Run says. */

module NesSquare {
  import opened Arith
  import opened Timer
  import opened Oscillator

  /** What the registers and the envelope say at the start of a run. */
  datatype Settings = Settings(regs: seq<nat>, lengthCounter: nat, envelope: nat)
  {
    predicate Valid() {
      |regs| == 4 && forall i :: 0 <= i < 4 ==> regs[i] < 0x100
    }

    function Period(): nat
      requires Valid()
    {
      regs[3] % 8 * 0x100 + regs[2]
    }

    function Volume(): nat
      requires Valid()
    {
      if lengthCounter == 0 then 0 else if regs[0] / 0x10 % 2 == 1 then regs[0] % 16 else envelope
    }

    /** How far the sweep unit would move the period. */
    function SweepOffset(): nat
      requires Valid()
    {
      if regs[1] / 8 % 2 == 1 then 0 else Period() / Pow2(regs[1] % 8)
    }

    predicate Silent()
      requires Valid()
    {
      Volume() == 0 || Period() < 8 || Period() + SweepOffset() >= 0x800
    }

    predicate Inverted()
      requires Valid()
    {
      regs[0] / 0x40 == 3
    }

    /** Number of high phases out of eight; duty 3 is duty 1 upside down. */
    function Duty(): (d: nat)
      requires Valid()
      ensures 1 <= d <= 4
    {
      if Inverted() || regs[0] / 0x40 == 1 then 2 else if regs[0] / 0x40 == 0 then 1 else 4
    }

    function Level(p: nat): int
      requires Valid()
    {
      if !Silent() && (p < Duty()) != Inverted() then Volume() else 0
    }

    function AsVoice(): (v: Voice)
      requires Valid()
      ensures v.Valid() && v.size == 8
    {
      Voice(8, (Period() + 1) * 2, (p: nat) => Level(p))
    }
  }

  /** The wave by the registers' bits: bits 6 and 7 of the first choose one, two, four or six high phases of
      eight, the last being the second upside down; a cycle takes 16 clocks for each unit of the period and one
      unit more; and a period that is too short, or would be swept too far, is not heard. */
  lemma SquareShape(s: Settings, p: nat)
    requires s.Valid() && p < 8
    ensures var period := s.regs[2] + s.regs[3] % 8 * 0x100;
      var volume := if s.lengthCounter == 0 then 0 else if s.regs[0] / 0x10 % 2 == 1 then s.regs[0] % 0x10 else s.envelope;
      var swept := period + if s.regs[1] / 8 % 2 == 1 then 0 else period / Pow2(s.regs[1] % 8);
      var high := [[1, 0, 0, 0, 0, 0, 0, 0], [1, 1, 0, 0, 0, 0, 0, 0], [1, 1, 1, 1, 0, 0, 0, 0],
                   [0, 0, 1, 1, 1, 1, 1, 1]][s.regs[0] / 0x40];
      && s.AsVoice().period == 2 * (period + 1)
      && s.AsVoice().level(p) == if 8 <= period && swept < 0x800 then high[p] * volume else 0
  {
    hide Pow2;
    var select := s.regs[0] / 0x40;
    assert 0 <= select < 4;
  }

  class Square {
    var regs: seq<nat>
    var lengthCounter: nat
    var envelope: nat
    var phase: nat
    var delay: nat                // clocks until the next phase change
    var lastAmp: int
    var output: bool
    ghost var steps: seq<(int, int)>

    function Now(): Settings
      reads this`regs, this`lengthCounter, this`envelope
    {
      Settings(regs, lengthCounter, envelope)
    }

    ghost function State(time: int): Osc
      reads this
    {
      Osc(time + delay, phase, lastAmp, steps)
    }

    /** The silent path. */
    method MaintainPhase(time: int, endTime: int, timerPeriod: nat) returns (t: int)
      requires timerPeriod > 0
      modifies this`phase
      ensures if time < endTime
              then t == time + Periods(time, endTime, timerPeriod) * timerPeriod
                   && phase == (old(phase) + Periods(time, endTime, timerPeriod)) % 8
              else t == time && phase == old(phase)
    {
      t := time;
      var remain := endTime - time;
      if remain > 0 {
        PeriodsStep(time, endTime, timerPeriod);
        var count := (remain + timerPeriod - 1) / timerPeriod;
        phase := (phase + count) % 8;
        t := t + count * timerPeriod;
      }
    }

    method SetAmp(time: int, amp: int)
      modifies this`lastAmp, this`steps
      ensures forall t :: State(t) == SetLevel(old(State(t)), time, amp)
    {
      var delta := amp - lastAmp;
      lastAmp := amp;
      if delta != 0 {
        steps := steps + [(time, delta)];
      }
    }

    /** run, with an output: exactly the reference run. */
    method Run(time: int, endTime: int)
      requires Now().Valid() && phase < 8 && output && time <= endTime
      modifies this`phase, this`delay, this`lastAmp, this`steps
      ensures State(endTime) == Oscillator.Run(Now().AsVoice(), old(State(time)), time, endTime)
      ensures phase < 8
    {
      ghost var voice := Now().AsVoice();
      ghost var first := SetLevel(State(time), time, voice.level(phase));
      RunToLevel(voice, first, endTime);
      var timerPeriod := (Now().Period() + 1) * 2;
      var t := time + delay;
      if Now().Silent() {
        SetAmp(time, 0);
        if t < endTime {
          SilentRun(voice, first, endTime);
        }
        t := MaintainPhase(t, endTime, timerPeriod);
      } else {
        var amp := 0;
        if Now().Inverted() {
          amp := Now().Volume();
        }
        if phase < Now().Duty() {
          amp := Now().Volume() - amp;
        }
        SetAmp(time, amp);
        if t < endTime {
          t := AudibleLoop(t, endTime, amp);
        }
      }
      delay := t - endTime;
    }

    method AudibleLoop(start: int, endTime: int, amp: int) returns (time: int)
      requires Now().Valid() && !Now().Silent() && phase < 8
      requires amp == lastAmp == Now().Level(phase)
      modifies this`phase, this`lastAmp, this`steps
      ensures Osc(time, phase, lastAmp, steps)
              == RunTo(Now().AsVoice(), old(Osc(start, phase, lastAmp, steps)), endTime)
    {
      hide Settings.Period, Settings.Volume;
      ghost var voice, first := Now().AsVoice(), Osc(start, phase, lastAmp, steps);
      var volume, duty, timerPeriod := Now().Volume(), Now().Duty(), (Now().Period() + 1) * 2;
      var delta := amp * 2 - volume;
      time := start;
      while time < endTime
        invariant phase < 8 && delta == 2 * Now().Level(phase) - volume
        invariant RunTo(voice, Osc(time, phase, Now().Level(phase), steps), endTime) == RunTo(voice, first, endTime)
        decreases endTime - time
      {
        phase := (phase + 1) % 8;
        if phase == 0 || phase == duty {
          delta := -delta;
          steps := steps + [(time, delta)];
        }
        time := time + timerPeriod;
      }
      lastAmp := (delta + volume) / 2;
    }

    /** run, with the output off: phase and timer go on as if it were on. */
    method RunMuted(time: int, endTime: int)
      requires Now().Valid() && phase < 8 && !output
      modifies this`phase, this`delay
      ensures var t := Oscillator.Run(Now().AsVoice(), old(State(time)), time, endTime);
              State(endTime).phase == t.phase && State(endTime).time == t.time
    {
      ghost var voice := Now().AsVoice().(level := p => 0);
      ghost var first := State(time).(lastAmp := 0);
      LevelsDoNotMatter(Now().AsVoice(), SetLevel(State(time), time, Now().Level(phase)), voice, first, endTime);
      RunToLevel(voice, first, endTime);
      if time + delay < endTime {
        SilentRun(voice, first, endTime);
      }
      var t := MaintainPhase(time + delay, endTime, (Now().Period() + 1) * 2);
      delay := t - endTime;
    }
  }
}

module SccApu {
  import opened Arith
  import opened Timer
  import opened Oscillator

  const INAUDIBLE_FREQ: nat := 16384

  /** What the registers of one oscillator say at the start of a run. */
  datatype Settings = Settings(periodLow: nat, periodHigh: nat, enabled: bool, volumeReg: nat,
                               wave: seq<int>, clockRate: nat)
  {
    predicate Valid() {
      |wave| == 0x20
    }

    function Period(): nat {
      periodHigh % 16 * 0x100 + periodLow + 1
    }

    /** Tones above the audible range are treated as silence. */
    function Volume(): nat {
      if enabled && Period() > (clockRate + INAUDIBLE_FREQ * 32) / (INAUDIBLE_FREQ * 16)
      then volumeReg % 16 * 8
      else 0
    }

    function Level(p: nat): int
      requires Valid()
    {
      wave[p % 0x20] * Volume()
    }

    function AsVoice(): (v: Voice)
      requires Valid()
      ensures v.Valid() && v.size == 0x20
    {
      Voice(0x20, Period(), (p: nat) => Level(p))
    }
  }

  /** The wave by the registers: its 32 entries times eight times the volume, while the oscillator is on and a
      phase takes more than 1 / 2^18 of a second, rounded. */
  lemma SccShape(s: Settings, p: nat)
    requires s.Valid() && p < 0x20
    ensures var period := 1 + s.periodLow + s.periodHigh % 0x10 * 0x100;
      && s.AsVoice().period == period
      && s.AsVoice().level(p)
         == if s.enabled && period > (s.clockRate + 0x8_0000) / 0x4_0000 then s.wave[p] * (s.volumeReg % 0x10 * 8) else 0
  {
  }

  class Osc {
    var phase: nat
    var delay: nat
    var lastAmp: int
    ghost var steps: seq<(int, int)>

    ghost function State(time: int): Oscillator.Osc
      reads this
    {
      Oscillator.Osc(time + delay, phase, lastAmp, steps)
    }

    /** One oscillator's share of run_until: exactly the reference run. */
    method RunUntil(now: Settings, lastTime: int, endTime: int)
      requires now.Valid() && phase < 0x20 && lastTime <= endTime
      modifies this
      ensures State(endTime) == Run(now.AsVoice(), old(State(lastTime)), lastTime, endTime)
      ensures phase < 0x20
    {
      hide Settings.Volume, Settings.Period, Periods;
      ghost var voice := now.AsVoice();
      ghost var first := SetLevel(State(lastTime), lastTime, voice.level(phase));
      RunToLevel(voice, first, endTime);
      var period, volume := now.Period(), now.Volume();
      var amp := now.wave[phase] * volume;
      var delta := amp - lastAmp;
      if delta != 0 {
        lastAmp := amp;
        steps := steps + [(lastTime, delta)];
      }
      var time := lastTime + delay;
      if time < endTime {
        if volume == 0 {
          SilentRun(voice, first, endTime);
          var count := Periods(time, endTime, period);
          phase := (phase + count) % 0x20;
          time := time + count * period;
        } else {
          time := AudibleLoop(now, time, endTime);
        }
      }
      delay := time - endTime;
    }

    /** The loop works on a phase that is one ahead, and multiplies by the volume only when the wave
        changes. */
    method AudibleLoop(now: Settings, start: int, endTime: int) returns (time: int)
      requires now.Valid() && now.Volume() > 0 && phase < 0x20 && start < endTime
      requires lastAmp == now.Level(phase)
      modifies this`phase, this`lastAmp, this`steps
      ensures Oscillator.Osc(time, phase, lastAmp, steps)
              == RunTo(now.AsVoice(), old(Oscillator.Osc(start, phase, lastAmp, steps)), endTime)
    {
      ghost var voice, first := now.AsVoice(), Oscillator.Osc(start, phase, lastAmp, steps);
      var period, volume := now.Period(), now.Volume();
      var lastWave := now.wave[phase];
      var ahead := (phase + 1) % 0x20;
      ghost var behind := phase;
      RunToEnd(voice, endTime);
      hide RunTo, Settings.Volume, Settings.Period, Settings.Level, Settings.AsVoice;
      time := start;
      while time < endTime
        invariant 0 <= behind < 0x20 && ahead == (behind + 1) % 0x20 && lastWave == now.wave[behind]
        invariant RunTo(voice, Oscillator.Osc(time, behind, now.Level(behind), steps), endTime)
                  == RunTo(voice, first, endTime)
        decreases endTime - time
      {
        WaveStep(now, time, behind, steps, endTime);
        RingStep(behind);
        var amp := now.wave[ahead];
        behind, ahead := ahead, (ahead + 1) % 0x20;
        var delta := amp - lastWave;
        if delta != 0 {
          lastWave := amp;
          steps := steps + [(time, delta * volume)];
        }
        time := time + period;
      }
      RingStep(behind);
      phase := (ahead - 1) % 0x20;
      lastAmp := now.wave[phase] * volume;
      LevelAt(now, phase);
    }
  }

  lemma RingStep(p: nat)
    requires p < 0x20
    ensures 0 <= (p + 1) % 0x20 < 0x20 && ((p + 1) % 0x20 - 1) % 0x20 == p
  {
  }

  lemma LevelAt(now: Settings, p: nat)
    requires now.Valid() && p < 0x20
    ensures now.Level(p) == now.wave[p] * now.Volume()
  {
  }

  /** One pass of the loop is one expiration. */
  lemma WaveStep(now: Settings, time: int, phase: nat, steps: seq<(int, int)>, end: int)
    requires now.Valid() && now.Volume() > 0 && phase < 0x20 && time < end
    ensures var ahead := (phase + 1) % 0x20;
      var delta := now.wave[ahead] - now.wave[phase];
      RunTo(now.AsVoice(), Oscillator.Osc(time, phase, now.Level(phase), steps), end)
      == RunTo(now.AsVoice(),
               Oscillator.Osc(time + now.Period(), ahead, now.Level(ahead),
                              if delta != 0 then steps + [(time, delta * now.Volume())] else steps), end)
  {
    hide RunTo, Settings.Volume, Settings.Period, Settings.Level;
    RunToStep(now.AsVoice(), Oscillator.Osc(time, phase, now.Level(phase), steps), end);
    LevelStep(now, (phase + 1) % 0x20, phase);
  }

  lemma LevelStep(now: Settings, p: nat, q: nat)
    requires now.Valid() && now.Volume() > 0 && p < 0x20 && q < 0x20
    ensures (now.wave[p] - now.wave[q]) * now.Volume() == now.Level(p) - now.Level(q)
    ensures now.wave[p] == now.wave[q] <==> now.Level(p) == now.Level(q)
  {
    var volume, a, b := now.Volume(), now.wave[p], now.wave[q];
    hide Settings.Volume;
    assert (a - b) * volume == a * volume - b * volume;
    if a * volume == b * volume {
      MulNear(a, b, volume);
    }
  }
}

module Fme7Apu {
  import opened Timer
  import opened Oscillator

  /** What the registers of one oscillator say at the start of a run; amp is its entry in amp_table. */
  datatype Settings = Settings(periodLow: nat, periodHigh: nat, toneOff: bool, envelope: bool, amp: nat)
  {
    function Coarse(): nat {
      periodHigh % 16 * 0x1000 + periodLow * 16
    }

    function Period(): nat {
      if Coarse() == 0 then 16 else Coarse()
    }

    /** Noise and envelope are not supported, and tones around 22 kHz are dropped. */
    function Volume(): nat {
      if toneOff || envelope || Coarse() < 50 then 0 else amp
    }

    function AsVoice(): (v: Voice)
      ensures v.Valid() && v.size == 2
    {
      Voice(2, Period(), p => if p == 0 then 0 else Volume())
    }
  }

  /** The wave by the registers: low and high in turn, 16 clocks for each unit of the period; a period of 0 lasts
      as long as one of 1 and, like one of up to 3, is silent. */
  lemma Fme7Shape(s: Settings)
    ensures var unit := s.periodLow + s.periodHigh % 0x10 * 0x100;
      && s.AsVoice().period == 16 * (if unit == 0 then 1 else unit)
      && s.AsVoice().level(0) == 0
      && s.AsVoice().level(1) == if s.toneOff || s.envelope || unit <= 3 then 0 else s.amp
  {
    var unit := s.periodLow + s.periodHigh % 0x10 * 0x100;
    assert s.Coarse() == 16 * unit;
    assert 16 * unit < 50 <==> unit <= 3;
    assert s.AsVoice().level(1) == s.Volume();
  }

  class Osc {
    var phase: nat
    var delay: nat
    var lastAmp: int
    ghost var steps: seq<(int, int)>

    ghost function State(time: int): Oscillator.Osc
      reads this
    {
      Oscillator.Osc(time + delay, phase, lastAmp, steps)
    }

    /** One oscillator's share of run_until: exactly the reference run. */
    method RunUntil(now: Settings, lastTime: int, endTime: int)
      requires phase < 2 && lastTime <= endTime
      modifies this
      ensures State(endTime) == Run(now.AsVoice(), old(State(lastTime)), lastTime, endTime)
      ensures phase < 2
    {
      ghost var voice := now.AsVoice();
      ghost var first := SetLevel(State(lastTime), lastTime, voice.level(phase));
      RunToLevel(voice, first, endTime);
      var period, volume := now.Period(), now.Volume();
      var amp := if phase == 0 then 0 else volume;
      var delta := amp - lastAmp;
      if delta != 0 {
        lastAmp := amp;
        steps := steps + [(lastTime, delta)];
      }
      var time := lastTime + delay;
      if time < endTime {
        if volume > 0 {
          time := AudibleLoop(now, time, endTime);
        } else {
          SilentRun(voice, first, endTime);
          var count := (endTime - time + period - 1) / period;
          phase := (phase + count % 2) % 2;
          time := time + count * period;
        }
      }
      delay := time - endTime;
    }

    /** Every expiry flips the level. */
    method AudibleLoop(now: Settings, start: int, endTime: int) returns (time: int)
      requires now.Volume() > 0 && phase < 2
      requires lastAmp == (if phase == 0 then 0 else now.Volume())
      modifies this`phase, this`lastAmp, this`steps
      ensures Oscillator.Osc(time, phase, lastAmp, steps)
              == RunTo(now.AsVoice(), old(Oscillator.Osc(start, phase, lastAmp, steps)), endTime)
    {
      ghost var voice, first := now.AsVoice(), Oscillator.Osc(start, phase, lastAmp, steps);
      var period, volume := now.Period(), now.Volume();
      var delta := lastAmp * 2 - volume;
      time := start;
      while time < endTime
        invariant delta == volume || delta + volume == 0
        invariant var high := delta > 0;
          RunTo(voice, Oscillator.Osc(time, if high then 1 else 0, if high then volume else 0, steps), endTime)
          == RunTo(voice, first, endTime)
        decreases endTime - time
      {
        delta := -delta;
        steps := steps + [(time, delta)];
        time := time + period;
      }
      lastAmp := (delta + volume) / 2;
      phase := if delta > 0 then 1 else 0;
    }
  }
}
