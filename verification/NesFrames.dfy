/** The frame sequencer of the NES APU: it cuts time at frame boundaries, clocks the slow units there,
    and announces its own interrupt ahead of time. */
module NesFrames {

  const NO_IRQ: int := 0x4000_0000

  datatype Settings = Settings(period: nat, pal: bool, fiveStep: bool, irqOff: bool)
  {
    predicate Valid() {
      period >= 4
    }

    /** Frame 0 raises the interrupt only in the four-step mode. */
    predicate Interrupts() {
      !fiveStep && !irqOff
    }

    /** Clocks from the action of a frame to the next one's. */
    function Delay(frame: nat): int {
      if frame == 1 then (if pal then period else period - 2)
      else if frame == 2 then (if pal then period - 2 else period)
      else if frame == 3 && fiveStep then period + period - (if pal then 2 else 6)
      else period
    }

    /** Clocks from the action of a frame to the next action of frame 0. */
    function UntilZero(frame: nat): int {
      if frame == 0 then 0
      else if frame == 1 then Delay(1) + Delay(2) + Delay(3)
      else if frame == 2 then Delay(2) + Delay(3)
      else Delay(3)
    }
  }

  /** time is that of the next action, log what has been clocked: when, and by which frame. */
  datatype Frames = Frames(time: int, frame: nat, irqFlag: bool, nextIrq: int, log: seq<(int, nat)>)

  function Action(c: Settings, s: Frames): Frames {
    var raise := s.frame == 0 && c.Interrupts();
    Frames(s.time + c.Delay(s.frame), if s.frame >= 3 then 0 else s.frame + 1, s.irqFlag || raise,
           if raise then s.time + c.period * 4 + 2 else s.nextIrq, s.log + [(s.time, s.frame)])
  }

  /** Every action before end. */
  function RunTo(c: Settings, s: Frames, end: int): Frames
    requires c.Valid()
    decreases end - s.time
  {
    if s.time >= end then s else RunTo(c, Action(c, s), end)
  }

  /** Running in pieces clocks the same units at the same times. */
  lemma {:induction false} RunSplit(c: Settings, s: Frames, mid: int, end: int)
    requires c.Valid() && mid <= end
    ensures RunTo(c, RunTo(c, s, mid), end) == RunTo(c, s, end)
    decreases mid - s.time
  {
    if s.time < mid {
      RunSplit(c, Action(c, s), mid, end);
    }
  }

  /** A full cycle of four frames: the sequencer's rate. */
  lemma Cycle(c: Settings, s: Frames)
    requires c.Valid() && s.frame < 4
    ensures var t := Action(c, Action(c, Action(c, Action(c, s))));
            && t.frame == s.frame
            && t.time == s.time + if !c.fiveStep then 4 * c.period - 2
                                  else if c.pal then 5 * c.period - 4 else 5 * c.period - 8
  {
  }

  /** The four actions of a sequence: when each of them comes, and in which order they are taken. */
  lemma Schedule(c: Settings, s: Frames)
    requires c.Valid() && s.frame == 0
    ensures var p, t := c.period, s.time;
      var one, two, three := t + p, t + 2 * p - (if c.pal then 0 else 2), t + 3 * p - 2;
      var last := Action(c, Action(c, Action(c, Action(c, s))));
      && last.log == s.log + [(t, 0), (one, 1), (two, 2), (three, 3)]
      && last.time == three + (if !c.fiveStep then p else 2 * p - (if c.pal then 2 else 6))
      && last.frame == 0
      && last.irqFlag == (s.irqFlag || !(c.fiveStep || c.irqOff))
  {
  }

  /** When the flag is raised: exactly when the run passes the next action of frame 0. */
  lemma {:induction false} IrqWhen(c: Settings, s: Frames, end: int)
    requires c.Valid() && s.frame < 4 && !s.irqFlag
    ensures RunTo(c, s, end).irqFlag <==> c.Interrupts() && end > s.time + c.UntilZero(s.frame)
    decreases end - s.time
  {
    if s.time < end {
      var t := Action(c, s);
      if t.irqFlag {
        FlagStays(c, t, end);
      } else {
        IrqWhen(c, t, end);
      }
    }
  }

  lemma {:induction false} FlagStays(c: Settings, s: Frames, end: int)
    requires c.Valid() && s.irqFlag
    ensures RunTo(c, s, end).irqFlag
    decreases end - s.time
  {
    if s.time < end {
      FlagStays(c, Action(c, s), end);
    }
  }

  /** The announced time lies this far after the action that raises the flag. */
  ghost predicate Announced(c: Settings, s: Frames, late: int) {
    s.nextIrq == s.time + c.UntilZero(s.frame) + late
  }

  /** The announcement is kept up by every run: 3 clocks late after the mode was written, 4 after the
      first interrupt. */
  lemma {:induction false} AnnouncementKept(c: Settings, s: Frames, end: int, late: int)
    requires c.Valid() && c.Interrupts() && s.frame < 4 && Announced(c, s, late)
    ensures var t := RunTo(c, s, end);
            t.frame < 4 && Announced(c, t, if end > s.time + c.UntilZero(s.frame) then 4 else late)
    decreases end - s.time
  {
    if s.time < end {
      AnnouncementKept(c, Action(c, s), end, if s.frame == 0 then 4 else late);
    }
  }

  /** So the announced time is never early, and the flag is up late - 1 clocks before it: running to t
      raises it if and only if t >= nextIrq - late + 1. */
  lemma AnnouncementLate(c: Settings, s: Frames, end: int, late: int)
    requires c.Valid() && c.Interrupts() && s.frame < 4 && !s.irqFlag && Announced(c, s, late)
    ensures RunTo(c, s, end).irqFlag <==> end >= s.nextIrq - late + 1
  {
    IrqWhen(c, s, end);
  }

  /** The stretches the oscillators were run over join up from a to b. */
  ghost predicate Tile(runs: seq<(int, int)>, a: int, b: int) {
    if runs == [] then a == b
    else
      var last := runs[|runs| - 1];
      last.0 <= last.1 == b && Tile(runs[..|runs| - 1], a, last.0)
  }

  lemma NoRuns(a: int)
    ensures Tile([], a, a)
  {
  }

  lemma RunToStep(c: Settings, s: Frames, end: int)
    requires c.Valid()
    ensures RunTo(c, s, end) == if s.time >= end then s else RunTo(c, Action(c, s), end)
    ensures s.frame < 4 ==> s.time < Action(c, s).time
  {
  }

  class Apu {
    var c: Settings
    var lastTime: int
    var frameDelay: int
    var frame: nat
    var irqFlag: bool
    var nextIrq: int
    ghost var log: seq<(int, nat)>
    ghost var runs: seq<(int, int)>

    ghost predicate Valid()
      reads this
    {
      c.Valid() && frame < 4 && frameDelay >= 0
    }

    ghost function State(): Frames
      reads this
    {
      Frames(lastTime + frameDelay, frame, irqFlag, nextIrq, log)
    }

    /** run_until_ without the channels' own work: they are run over every stretch between actions. */
    method RunUntil(end: int)
      requires Valid() && lastTime <= end
      modifies this`lastTime, this`frameDelay, this`frame, this`irqFlag, this`nextIrq, this`log, this`runs
      ensures Valid() && lastTime == end && State() == RunTo(c, old(State()), end)
      ensures exists news: seq<(int, int)> :: runs == old(runs) + news && Tile(news, old(lastTime), end)
    {
      hide RunTo, Action, Tile;
      ghost var news: seq<(int, int)> := [];
      NoRuns(lastTime);
      if end == lastTime {
        RunToStep(c, State(), end);
        assert runs == old(runs) + news && Tile(news, lastTime, end);
        return;
      }
      var more := true;
      while more
        invariant Valid() && lastTime <= end && RunTo(c, State(), end) == RunTo(c, old(State()), end)
        invariant runs == old(runs) + news && Tile(news, old(lastTime), lastTime)
        invariant !more ==> lastTime == end && State().time >= end
        decreases more, end - State().time
      {
        RunToStep(c, State(), end);
        var time := lastTime + frameDelay;
        if time > end {
          time := end;
        }
        frameDelay := frameDelay - (time - lastTime);
        news, runs := Longer(news, runs, old(runs), old(lastTime), lastTime, time), runs + [(lastTime, time)];
        lastTime := time;
        if time == end {
          more := false;
        } else {
          TakeAction();
        }
      }
      RunToStep(c, State(), end);
    }

    ghost function Longer(news: seq<(int, int)>, runs: seq<(int, int)>, before: seq<(int, int)>, a: int, b: int, t: int)
      : (longer: seq<(int, int)>)
      requires runs == before + news && Tile(news, a, b) && b <= t
      ensures runs + [(b, t)] == before + longer && Tile(longer, a, t)
    {
      assert (news + [(b, t)])[..|news|] == news;
      news + [(b, t)]
    }

    /** The frame's actions; the units it clocks are recorded in the log. */
    method TakeAction()
      requires Valid() && frameDelay == 0
      modifies this`frameDelay, this`frame, this`irqFlag, this`nextIrq, this`log
      ensures Valid() && State() == Action(c, old(State()))
    {
      log := log + [(lastTime, frame)];
      frameDelay := c.period;
      var now := frame;
      frame := frame + 1;
      if now == 0 {
        if !c.fiveStep && !c.irqOff {
          nextIrq := lastTime + c.period * 4 + 2;
          irqFlag := true;
        }
      }
      if now == 0 || now == 2 {
        if c.pal && frame == 3 {
          frameDelay := frameDelay - 2;
        }
      } else if now == 1 {
        if !c.pal {
          frameDelay := frameDelay - 2;
        }
      } else {
        frame := 0;
        if c.fiveStep {
          frameDelay := frameDelay + c.period - if c.pal then 2 else 6;
        }
      }
    }

    /** A write to 0x4017, which restarts the sequence and announces the next interrupt. */
    method WriteMode(time: int, fiveStep: bool, irqOff: bool)
      requires Valid() && lastTime <= time
      modifies this
      ensures Valid() && lastTime == time && c == old(c).(fiveStep := fiveStep, irqOff := irqOff)
      ensures log == RunTo(old(c), old(State()), time).log
      ensures irqFlag == (!irqOff && RunTo(old(c), old(State()), time).irqFlag)
      ensures if fiveStep then frame == 0 && time <= State().time <= time + 1
              else frame == 1 && time + c.period <= State().time <= time + c.period + 1
      ensures if c.Interrupts() then Announced(c, State(), 3) else nextIrq == NO_IRQ
    {
      RunUntil(time);
      c := c.(fiveStep := fiveStep, irqOff := irqOff);
      var irqEnabled := !irqOff;
      irqFlag := irqFlag && irqEnabled;
      nextIrq := NO_IRQ;
      frameDelay := frameDelay % 2;
      frame := 0;
      if !fiveStep {
        frame := 1;
        frameDelay := frameDelay + c.period;
        if irqEnabled {
          nextIrq := time + frameDelay + c.period * 3 + 1;
        }
      }
    }

    /** The sequencer's part of end_frame: times become relative to the new frame. */
    method EndFrame(end: int)
      requires Valid() && (nextIrq != NO_IRQ ==> nextIrq - end != NO_IRQ)
      modifies this
      ensures Valid() && lastTime == (if end > old(lastTime) then 0 else old(lastTime) - end) && c == old(c)
      ensures var t := RunTo(c, old(State()), if end > old(lastTime) then end else old(lastTime));
              State() == t.(time := t.time - end, nextIrq := if t.nextIrq == NO_IRQ then NO_IRQ else t.nextIrq - end)
    {
      if end > lastTime {
        RunUntil(end);
      }
      lastTime := lastTime - end;
      if nextIrq != NO_IRQ {
        nextIrq := nextIrq - end;
      }
    }
  }
}
