/** The AY-3-8910 as the emulators drive it: sixteen registers, three channels and one envelope. */
module AyChip {
  import opened Arith
  import opened Timer
  import opened AyApu
  import opened AySound

  class Apu {
    var regs: seq<nat>
    const oscs: seq<Osc>
    const clockRate: nat
    const waves: seq<nat>
    var noiseDelay: nat
    var noiseLfsr: nat
    var envDelay: nat                // 0 until the next run after the envelope was restarted
    var envPos: int
    var envWave: int                 // end of the present wave's row
    var lastTime: int

    /** What every sequence of writes and runs keeps. */
    ghost predicate Valid()
      reads this, oscs
    {
      && |regs| == 16 && |oscs| == 3 && (forall i, j :: 0 <= i < j < 3 ==> oscs[i] != oscs[j])
      && (forall i :: 0 <= i < 3 ==> oscs[i].Valid())
      && 0 < noiseLfsr < 0x2_0000 && -48 <= envPos < 0
      && IsWaveTable(waves) && envWave == WaveEnd(regs[13])
    }

    constructor (clockRate: nat)
      ensures Valid() && lastTime == 0 && (forall i :: 0 <= i < 3 ==> fresh(oscs[i]))
    {
      var a := new Osc(true);
      var b := new Osc(true);
      var c := new Osc(true);
      var table := BuildWaves();
      oscs := [a, b, c];
      this.clockRate, waves := clockRate, table;
      regs := seq(16, i => if i == 7 then 0xFF else if i == 13 then 9 else 0);
      noiseDelay, noiseLfsr, lastTime := 0, 1, 0;
      envDelay, envPos, envWave := 0, -48, WaveEnd(9);
    }

    function EnvPeriod(): (p: nat)
      requires |regs| == 16
      ensures p > 0
      reads this`regs
    {
      var period := (regs[12] * 0x100 + regs[11]) * (PERIOD_FACTOR * 2);
      if period == 0 then PERIOD_FACTOR * 2 else period
    }

    function NoisePeriod(): (p: nat)
      requires |regs| == 16
      ensures p > 0
      reads this`regs
    {
      var period := regs[6] % 0x20 * (PERIOD_FACTOR * 2);
      if period == 0 then PERIOD_FACTOR * 2 else period
    }

    function ShapeOf(index: nat): (shape: Shape)
      requires |regs| == 16 && index < 3
      ensures shape.Valid()
      ensures forall pos: int :: 0 <= envWave + pos < |waves| ==> shape.wave(pos) == waves[envWave + pos]
      reads this`regs, this`envWave
    {
      var w, end := waves, envWave;
      Shape(Flag(regs[7], index), Flag(regs[7], index + 3), regs[8 + index], regs[13] % 2 == 1,
            pos => if 0 <= end + pos < |w| then w[end + pos] else 0, EnvPeriod(), NoisePeriod(),
            (clockRate + INAUDIBLE_FREQ) / (INAUDIBLE_FREQ * 2))
    }

    /** What channel index plays until finalEnd, and in which segments. */
    function SoundFor(index: nat, period: nat, delay: nat, finalEnd: int): Sound
      requires |regs| == 16 && index < 3 && lastTime <= finalEnd && -48 <= envPos < 0 < delay
      reads this`regs, this`envWave, this`lastTime, this`envPos
    {
      SoundOf(ShapeOf(index), period, lastTime, finalEnd, Envelope(envPos, delay))
    }

    function PlanOf(index: nat, period: nat, delay: nat, finalEnd: int): Plan
      requires |regs| == 16 && index < 3 && lastTime <= finalEnd && -48 <= envPos < 0 < delay
      reads this`regs, this`envWave, this`lastTime, this`envPos
    {
      PlanFor(ShapeOf(index), period, SoundFor(index, period, delay, finalEnd), lastTime, finalEnd, envPos)
    }

    function NoiseState(): Noise
      reads this`noiseDelay, this`noiseLfsr
    {
      Noise(noiseDelay, noiseLfsr)
    }

    /** The envelope's time left, once a restarted envelope has got its period. */
    function RunDelay(): (delay: nat)
      requires |regs| == 16
      ensures delay > 0
      reads this`regs, this`envDelay
    {
      if envDelay == 0 then EnvPeriod() else envDelay
    }

    /** The run of one channel from now to finalEnd, in the registers' terms. */
    ghost function RunOf(index: nat, finalEnd: int): Run
      requires |oscs| == 3 && index < 3
      reads this, oscs
    {
      Run(regs, index, clockRate, waves, envPos, envDelay, oscs[index].period, lastTime, finalEnd, oscs[index].State(),
          NoiseState())
    }

    /** What a channel plays is what its registers say. */
    ghost predicate IsMeant(index: nat, finalEnd: int)
      requires Valid() && index < 3 && lastTime <= finalEnd
      reads this, oscs
    {
      var run, period := RunOf(index, finalEnd), oscs[index].period;
      && run.Valid()
      && Means(run, SoundFor(index, period, RunDelay(), finalEnd), PlanOf(index, period, RunDelay(), finalEnd))
    }

    lemma RegistersMean(index: nat, finalEnd: int)
      requires Valid() && index < 3 && lastTime <= finalEnd
      ensures IsMeant(index, finalEnd)
    {
      hide AmpTable, IsWaveTable;
      WavesLength(waves);
      FlagIs(regs[7], index);
    }

    /** What has been heard since the old state: every channel with an output has played its plan to the
        end from where it was, the others nothing; and the noise is where the last one left it. */
    twostate predicate Sounded(finalEnd: int, traces: seq<Trace>)
      requires old(Valid()) && old(lastTime) <= finalEnd
      reads this`noiseDelay, this`noiseLfsr, oscs
    {
      && |traces| == 3 && NoiseState() == NoiseAfter(traces, old(NoiseState()))
      && forall i :: 0 <= i < 3 ==>
           Heard(oscs[i], old(oscs[i].State()), old(NoiseState()),
                 old(SoundFor(i, oscs[i].period, RunDelay(), finalEnd)),
                 old(PlanOf(i, oscs[i].period, RunDelay(), finalEnd)), traces[i])
    }

    /** run_until: every channel plays what the registers say, and its tone goes on whether it is heard or
        not; noise that no channel lets through stands still. */
    method RunUntil(finalEnd: int) returns (ghost traces: seq<Trace>)
      requires Valid() && lastTime <= finalEnd
      modifies this`noiseDelay, this`noiseLfsr, this`envDelay, this`envPos, this`lastTime, oscs
      ensures Valid() && lastTime == finalEnd && envDelay > 0
      ensures Sounded(finalEnd, traces)
      ensures forall i :: 0 <= i < 3 ==> oscs[i].delay == Left(traces[i], old(oscs[i].State())).delay
      ensures forall i :: 0 <= i < 3 ==> oscs[i].period == old(oscs[i].period) && oscs[i].output == old(oscs[i].output)
      ensures var first := Envelope(old(envPos), old(RunDelay()));
              Envelope(envPos, envDelay) == EnvelopeRun(first, old(EnvPeriod()), finalEnd - old(lastTime))
      ensures forall i: nat :: i < 3 && oscs[i].output ==> Leaves(old(RunOf(i, finalEnd)), oscs[i].State())
      ensures regs[7] / 8 % 8 == 7 ==> NoiseState() == old(NoiseState())
    {
      hide Leaves, Left, Heard, Means, SoundFor, PlanOf, NoiseAfter, EnvelopeRun, EnvPeriod, RunDelay,
           IsWaveTable, Osc.State, Osc.Valid, Trace.Valid, Run.Valid, Run.NoiseOn;
      forall i: nat | i < 3
        ensures IsMeant(i, finalEnd)
      {
        RegistersMean(i, finalEnd);
      }
      traces := RunAll(finalEnd);
      forall i: nat | i < 3
        ensures old(RunOf(i, finalEnd)).Valid()
        ensures oscs[i].output ==> Leaves(old(RunOf(i, finalEnd)), oscs[i].State())
        ensures !old(RunOf(i, finalEnd)).NoiseOn() ==> !traces[i].Valid() || traces[i].sound.noiseOff
      {
        assert old(IsMeant(i, finalEnd));
        AsMeant(old(RunOf(i, finalEnd)), oscs[i], old(oscs[i].State()), old(NoiseState()),
                old(SoundFor(i, oscs[i].period, RunDelay(), finalEnd)),
                old(PlanOf(i, oscs[i].period, RunDelay(), finalEnd)), traces[i]);
      }
      if regs[7] / 8 % 8 == 7 {
        forall i: nat | i < 3
          ensures !old(RunOf(i, finalEnd)).NoiseOn()
        {
          SwitchedOff(old(RunOf(i, finalEnd)));
        }
        NoiseStands(traces, old(NoiseState()));
      }
    }

    /** The channels one after the other, then the envelope in closed form. */
    method RunAll(finalEnd: int) returns (ghost traces: seq<Trace>)
      requires Valid() && lastTime <= finalEnd
      modifies this`noiseDelay, this`noiseLfsr, this`envDelay, this`envPos, this`lastTime, oscs
      ensures Valid() && lastTime == finalEnd && envDelay > 0
      ensures Sounded(finalEnd, traces)
      ensures forall i :: 0 <= i < 3 ==> oscs[i].delay == Left(traces[i], old(oscs[i].State())).delay
      ensures forall i :: 0 <= i < 3 ==> oscs[i].period == old(oscs[i].period) && oscs[i].output == old(oscs[i].output)
      ensures var first := Envelope(old(envPos), old(RunDelay()));
              Envelope(envPos, envDelay) == EnvelopeRun(first, old(EnvPeriod()), finalEnd - old(lastTime))
    {
      hide EnvelopeRun, EnvelopeJump, EnvPeriod, SoundFor, PlanOf, Heard, Left, NoiseAfter, IsWaveTable, Osc.State,
           Osc.Valid;
      if envDelay == 0 {
        envDelay := EnvPeriod();
      }
      traces := RunChannels(finalEnd, noiseDelay, noiseLfsr);
      KeepEnvelope(finalEnd - lastTime);
      lastTime := finalEnd;
    }

    /** A channel with an output is left as its registers say. */
    lemma AsMeant(run: Run, osc: Osc, before: OscState, noise: Noise, s: Sound, plan: Plan, trace: Trace)
      requires run.Valid() && Means(run, s, plan) && Heard(osc, before, noise, s, plan, trace)
      requires before == run.osc && noise == run.noise && osc.delay == Left(trace, before).delay
      ensures osc.output ==> Leaves(run, osc.State())
      ensures !run.NoiseOn() ==> !trace.Valid() || trace.sound.noiseOff
    {
      hide Leaves, Trace.Complete, Trace.OscLeft, Run.Half, Run.EnvPeriod, Run.NoisePeriod, Run.ToneHeard,
           Run.Wave, Run.Volume, Run.EnvelopeMoves, Run.Expires, Trace.Valid;
      if osc.output {
        RunLeaves(run, trace, s, plan);
      }
    }

    lemma SwitchedOff(run: Run)
      requires run.Valid() && run.regs[7] / 8 % 8 == 7
      ensures !run.NoiseOn()
    {
      ThreeBits(run.regs[7]);
    }

    /** Every channel starts from the same noise; the last one that hears it leaves its state behind. */
    method RunChannels(finalEnd: int, oldDelay: nat, oldLfsr: nat) returns (ghost traces: seq<Trace>)
      requires Valid() && lastTime <= finalEnd && envDelay > 0 && oldDelay == noiseDelay && oldLfsr == noiseLfsr
      modifies this`noiseDelay, this`noiseLfsr, oscs
      ensures Valid() && |traces| == 3
      ensures forall i :: 0 <= i < 3 ==> oscs[i].period == old(oscs[i].period) && oscs[i].output == old(oscs[i].output)
      ensures forall i :: 0 <= i < 3 ==>
                Heard(oscs[i], old(oscs[i].State()), Noise(oldDelay, oldLfsr),
                      SoundFor(i, old(oscs[i].period), envDelay, finalEnd),
                      PlanOf(i, old(oscs[i].period), envDelay, finalEnd), traces[i])
      ensures forall i :: 0 <= i < 3 ==> oscs[i].delay == Left(traces[i], old(oscs[i].State())).delay
      ensures NoiseState() == NoiseAfter(traces, Noise(oldDelay, oldLfsr))
    {
      hide EnvPeriod, SoundFor, PlanOf, Heard, Left, NoiseAfter, NoisePast, IsWaveTable, Osc.State, Osc.Valid;
      traces := [];
      NoiseAfterNone(Noise(oldDelay, oldLfsr));
      for index := 0 to 3
        invariant Valid() && |traces| == index
        invariant forall i :: 0 <= i < 3 ==>
                    oscs[i].period == old(oscs[i].period) && oscs[i].output == old(oscs[i].output)
        invariant forall i :: index <= i < 3 ==> oscs[i].State() == old(oscs[i].State())
        invariant forall i :: 0 <= i < index ==>
                    Heard(oscs[i], old(oscs[i].State()), Noise(oldDelay, oldLfsr),
                          SoundFor(i, old(oscs[i].period), envDelay, finalEnd),
                          PlanOf(i, old(oscs[i].period), envDelay, finalEnd), traces[i])
        invariant forall i :: 0 <= i < index ==> oscs[i].delay == Left(traces[i], old(oscs[i].State())).delay
        invariant NoiseState() == NoiseAfter(traces, Noise(oldDelay, oldLfsr))
      {
        ghost var trace := RunOsc(index, oscs[index], finalEnd, oldDelay, oldLfsr);
        NoiseAfterNext(traces, trace, Noise(oldDelay, oldLfsr));
        traces := traces + [trace];
      }
    }

    method RunOsc(index: nat, osc: Osc, finalEnd: int, oldDelay: nat, oldLfsr: nat) returns (ghost trace: Trace)
      requires Valid() && index < 3 && osc == oscs[index] && lastTime <= finalEnd && envDelay > 0
      requires 0 < oldLfsr < 0x2_0000
      modifies this`noiseDelay, this`noiseLfsr, osc`delay, osc`lastAmp, osc`phase, osc`steps
      ensures Valid()
      ensures Heard(osc, old(osc.State()), Noise(oldDelay, oldLfsr), SoundFor(index, osc.period, envDelay, finalEnd),
                    PlanOf(index, osc.period, envDelay, finalEnd), trace)
      ensures osc.delay == Left(trace, old(osc.State())).delay
      ensures NoiseState() == NoisePast(trace, old(NoiseState()))
    {
      hide EnvelopeRun, EnvPeriod, NoisePeriod, ShapeOf, SoundOf, Periods, Played, Plan.Volume, Plan.After, NextLfsr,
           IsWaveTable, StartMix, PlanFor, Trace.OscLeft, Trace.Complete;
      trace := Trace(Sound(true, true, 1, 0, finalEnd), PlanOf(index, osc.period, envDelay, finalEnd),
                     Mix(0, 1, 0, 0, []), []);
      if osc.output {
        var noiseRan, delay, lfsr;
        noiseRan, delay, lfsr, trace :=
          RunChannel(osc, ShapeOf(index), lastTime, finalEnd, Envelope(envPos, envDelay), oldDelay, oldLfsr);
        if noiseRan {
          noiseDelay, noiseLfsr := delay, lfsr;
        }
      }
    }

    /** "maintain envelope phase": the same as expiration by expiration. */
    method KeepEnvelope(elapsed: nat)
      requires Valid() && envDelay > 0
      modifies this`envDelay, this`envPos
      ensures Envelope(envPos, envDelay) == EnvelopeRun(old(Envelope(envPos, envDelay)), EnvPeriod(), elapsed)
      ensures Valid() && envDelay > 0
    {
      hide EnvelopeRun;
      var envPeriod := EnvPeriod();
      EnvelopeClosedForm(Envelope(envPos, envDelay), envPeriod, elapsed);
      var remain := elapsed - envDelay;
      if remain >= 0 {
        var count := (remain + envPeriod) / envPeriod;
        envPos := envPos + count;
        if envPos >= 0 {
          envPos := envPos % 32 - 32;
        }
        remain := remain - count * envPeriod;
      }
      envDelay := 0 - remain;
    }

    /** write_data_: a period write touches its own oscillator only, an envelope write restarts the
        envelope; the eight simple envelope shapes are forms of two of the others. */
    method WriteData(addr: nat, value: nat)
      requires Valid() && addr < 16
      modifies this`regs, this`envDelay, this`envPos, this`envWave, oscs
      ensures Valid()
      ensures addr != 13 ==> regs == old(regs)[addr := value]
      ensures addr == 13 ==>
                && regs == old(regs)[13 := EnvelopeMode(value)] && envPos == -48 && envDelay == 0
                && envWave == WaveEnd(EnvelopeMode(value))
      ensures addr != 13 ==> envPos == old(envPos) && envDelay == old(envDelay) && envWave == old(envWave)
      ensures forall i :: 0 <= i < 3 ==>
                oscs[i].steps == old(oscs[i].steps) && oscs[i].phase == old(oscs[i].phase)
                && oscs[i].output == old(oscs[i].output)
      ensures forall i :: 0 <= i < 3 && i != addr / 2 ==>
                oscs[i].period == old(oscs[i].period) && oscs[i].delay == old(oscs[i].delay)
      ensures addr < 6 ==>
        var osc := oscs[addr / 2];
        var word := regs[addr / 2 * 2 + 1] % 0x10 * 0x100 + regs[addr / 2 * 2];
        && osc.period == 0x10 * (if word == 0 then 1 else word)
        && osc.delay == Moved(old(osc.delay), old(osc.period), osc.period)
    {
      var data := value;
      if addr == 13 {
        if data / 8 % 2 == 0 {
          data := if data / 4 % 2 == 1 then 15 else 9;
        }
        envWave := WaveEnd(data);
        envPos, envDelay := -48, 0;
      }
      regs := regs[addr := data];
      var i := addr / 2;
      if i < 3 {
        oscs[i].SetPeriod(regs[i * 2 + 1] % 0x10 * 0x100 + regs[i * 2]);
      }
    }

    /** Every channel with an output has sounded up to time as its registers said then, and has kept the
        tone; its timer is another matter. */
    twostate predicate LeftAsMeant(time: int, traces: seq<Trace>)
      requires old(Valid()) && old(lastTime) <= time && |traces| == 3
      reads oscs
    {
      forall i: nat :: i < 3 && oscs[i].output ==>
        Leaves(old(RunOf(i, time)),
               OscState(Left(traces[i], old(oscs[i].State())).delay, oscs[i].phase, oscs[i].steps))
    }

    /** write: everything up to time sounds as before, then the register has its new value. */
    method Write(time: int, addr: nat, data: nat) returns (ghost traces: seq<Trace>)
      requires Valid() && lastTime <= time && addr < 16
      modifies this, oscs
      ensures Valid() && lastTime == time && Sounded(time, traces)
      ensures regs == old(regs)[addr := if addr == 13 then EnvelopeMode(data) else data]
      ensures forall i :: 0 <= i < 3 && i != addr / 2 ==>
                oscs[i].period == old(oscs[i].period) && oscs[i].delay == Left(traces[i], old(oscs[i].State())).delay
      ensures addr < 6 ==>
        var i := addr / 2;
        var word := regs[i * 2 + 1] % 0x10 * 0x100 + regs[i * 2];
        && oscs[i].period == 0x10 * (if word == 0 then 1 else word)
        && oscs[i].delay == Moved(Left(traces[i], old(oscs[i].State())).delay, old(oscs[i].period), oscs[i].period)
      ensures LeftAsMeant(time, traces)
      ensures if addr == 13 then Envelope(envPos, envDelay) == Envelope(-48, 0)
              else Envelope(envPos, envDelay)
                   == EnvelopeRun(Envelope(old(envPos), old(RunDelay())), old(EnvPeriod()), time - old(lastTime))
    {
      hide EnvelopeRun, EnvPeriod, SoundFor, PlanOf, IsWaveTable, Left, NoiseAfter, Trace.PlaysFrom, Leaves, RunOf;
      traces := RunUntil(time);
      WriteData(addr, data);
    }

    method EndFrame(time: int) returns (ghost traces: seq<Trace>)
      requires Valid()
      modifies this, oscs
      ensures Valid() && regs == old(regs)
      ensures if time > old(lastTime) then lastTime == 0 && Sounded(time, traces)
              else lastTime == old(lastTime) - time && envPos == old(envPos) && envDelay == old(envDelay)
                   && NoiseState() == old(NoiseState())
                   && forall i :: 0 <= i < 3 ==> oscs[i].State() == old(oscs[i].State())
      ensures time > old(lastTime) ==>
        && (forall i :: 0 <= i < 3 ==> oscs[i].delay == Left(traces[i], old(oscs[i].State())).delay)
        && Envelope(envPos, envDelay)
           == EnvelopeRun(Envelope(old(envPos), old(RunDelay())), old(EnvPeriod()), time - old(lastTime))
      ensures time > old(lastTime) ==>
                forall i: nat :: i < 3 && oscs[i].output ==> Leaves(old(RunOf(i, time)), oscs[i].State())
      ensures forall i :: 0 <= i < 3 ==> oscs[i].period == old(oscs[i].period) && oscs[i].output == old(oscs[i].output)
    {
      hide EnvelopeRun, EnvPeriod, SoundFor, PlanOf, Heard, Left, NoiseAfter, IsWaveTable, Leaves, RunOf;
      traces := [];
      if time > lastTime {
        traces := RunUntil(time);
      }
      lastTime := lastTime - time;
    }
  }

  lemma WavesLength(waves: seq<nat>)
    requires IsWaveTable(waves)
    ensures |waves| == 384
  {
  }

  lemma ThreeBits(x: nat)
    requires x / 8 % 8 == 7
    ensures x / 8 % 2 == 1 && x / 16 % 2 == 1 && x / 32 % 2 == 1
  {
    var q, r := x / 64, x % 8;
    assert x == 64 * q + 56 + r;
    assert x / 16 == 4 * q + 3 && x / 32 == 2 * q + 1;
  }

  lemma FlagIs(reg: nat, index: nat)
    requires index < 3
    ensures Flag(reg, index) == (reg / [1, 2, 4][index] % 2 == 1)
    ensures Flag(reg, index + 3) == (reg / [8, 16, 32][index] % 2 == 1)
  {
    assert Pow2(0) == 1 && Pow2(1) == 2 && Pow2(2) == 4 && Pow2(3) == 8 && Pow2(4) == 16 && Pow2(5) == 32;
  }

  /** Bit n of a register. */
  function Flag(reg: nat, n: nat): bool {
    reg / Pow2(n) % 2 == 1
  }
}
