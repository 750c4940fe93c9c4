/** The reference the tone generators are measured against: a cyclic waveform advanced one timer
    period at a time, each change of level being emitted as an amplitude step. */
module Oscillator {
  import opened Arith
  import opened Timer

  /** A waveform of size phases, one per period clocks. */
  datatype Voice = Voice(size: nat, period: nat, level: nat -> int)
  {
    predicate Valid() {
      size > 0 && period > 0
    }
  }

  /** time is that of the next phase change. */
  datatype Osc = Osc(time: int, phase: nat, lastAmp: int, steps: seq<(int, int)>)

  /** Brings the output to the given level at time t. */
  function SetLevel(s: Osc, t: int, level: int): Osc {
    if level == s.lastAmp then s
    else s.(lastAmp := level, steps := s.steps + [(t, level - s.lastAmp)])
  }

  function Advance(v: Voice, s: Osc): Osc
    requires v.Valid()
  {
    var phase := (s.phase + 1) % v.size;
    SetLevel(s, s.time, v.level(phase)).(phase := phase, time := s.time + v.period)
  }

  function RunTo(v: Voice, s: Osc, end: int): Osc
    requires v.Valid()
    decreases end - s.time
  {
    if s.time >= end then s else RunTo(v, Advance(v, s), end)
  }

  /** A run from start to end: the level due to the voice's present settings, then phase by phase. */
  function Run(v: Voice, s: Osc, start: int, end: int): Osc
    requires v.Valid()
  {
    RunTo(v, SetLevel(s, start, v.level(s.phase)), end)
  }

  lemma RunToStep(v: Voice, s: Osc, end: int)
    requires v.Valid() && s.time < end
    ensures RunTo(v, s, end) == RunTo(v, Advance(v, s), end)
  {
  }

  lemma RunToEnd(v: Voice, end: int)
    requires v.Valid()
    ensures forall s: Osc :: s.time >= end ==> RunTo(v, s, end) == s
  {
  }

  lemma {:induction false} RunToLevel(v: Voice, s: Osc, end: int)
    requires v.Valid() && s.lastAmp == v.level(s.phase) && s.phase < v.size
    ensures var t := RunTo(v, s, end); t.lastAmp == v.level(t.phase) && t.phase < v.size && t.time >= end
    ensures s.steps <= RunTo(v, s, end).steps
    decreases end - s.time
  {
    if s.time < end {
      RunToLevel(v, Advance(v, s), end);
    }
  }

  lemma {:induction false} RunToSplit(v: Voice, s: Osc, mid: int, end: int)
    requires v.Valid() && mid <= end
    ensures RunTo(v, RunTo(v, s, mid), end) == RunTo(v, s, end)
    decreases mid - s.time
  {
    if s.time < mid {
      RunToSplit(v, Advance(v, s), mid, end);
    }
  }

  /** Splitting a run at any time, with no register write in between, changes neither the final state
      nor any emitted step. */
  lemma RunSplit(v: Voice, s: Osc, start: int, mid: int, end: int)
    requires v.Valid() && s.phase < v.size && mid <= end
    ensures Run(v, Run(v, s, start, mid), mid, end) == Run(v, s, start, end)
  {
    var first := SetLevel(s, start, v.level(s.phase));
    RunToLevel(v, first, mid);
    RunToSplit(v, first, mid, end);
  }

  function Total(steps: seq<(int, int)>): int {
    if steps == [] then 0 else Total(steps[..|steps| - 1]) + steps[|steps| - 1].1
  }

  /** The emitted steps always add up to the level last set: nothing drifts. */
  lemma {:induction false} StepsAddUp(v: Voice, s: Osc, end: int)
    requires v.Valid() && Total(s.steps) == s.lastAmp
    ensures Total(RunTo(v, s, end).steps) == RunTo(v, s, end).lastAmp
    decreases end - s.time
  {
    if s.time < end {
      var t := Advance(v, s);
      if t.steps != s.steps {
        assert t.steps[..|t.steps| - 1] == s.steps;
      }
      StepsAddUp(v, t, end);
    }
  }

  // ---------------------------------------------------------------- the output as a function of time

  /** The output at time t: all steps up to then. */
  function OutputAt(steps: seq<(int, int)>, t: int): int {
    if steps == [] then 0
    else
      var n := |steps| - 1;
      OutputAt(steps[..n], t) + if steps[n].0 <= t then steps[n].1 else 0
  }

  /** Phase changes at first, first + period, ... up to and including time t. */
  function Changes(first: int, period: nat, t: int): int
    requires period > 0
  {
    if t < first then 0 else (t - first) / period + 1
  }

  lemma OutputNext(steps: seq<(int, int)>, at: int, step: int, t: int)
    ensures OutputAt(steps + [(at, step)], t) == OutputAt(steps, t) + if at <= t then step else 0
  {
    assert (steps + [(at, step)])[..|steps|] == steps;
  }

  lemma {:induction false} OutputBy(steps: seq<(int, int)>, t: int)
    requires forall i :: 0 <= i < |steps| ==> steps[i].0 <= t
    ensures OutputAt(steps, t) == Total(steps)
  {
    if steps != [] {
      OutputBy(steps[..|steps| - 1], t);
    }
  }

  lemma OneChange(first: int, period: nat, t: int)
    requires period > 0 && first <= t
    ensures Changes(first, period, t) == 1 + Changes(first + period, period, t) && Changes(first + period, period, t) >= 0
  {
    DivMono(0, t - first, period);
    if t < first + period {
      DivIs(t - first, period, 0);
    } else {
      DivShift(t - first, -1, period);
      DivMono(0, t - first - period, period);
    }
  }

  lemma AdvanceOutput(v: Voice, s: Osc, t: int)
    requires v.Valid() && s.lastAmp == v.level(s.phase)
    ensures var next := Advance(v, s);
      && next.time == s.time + v.period && next.phase == (s.phase + 1) % v.size < v.size
      && next.lastAmp == v.level(next.phase)
      && OutputAt(next.steps, t) == OutputAt(s.steps, t) + if s.time <= t then next.lastAmp - s.lastAmp else 0
  {
    OutputNext(s.steps, s.time, v.level((s.phase + 1) % v.size) - s.lastAmp, t);
  }

  /** From a state at its level, the output at any time of the run is the level of the phase the voice has
      then reached. */
  lemma {:induction false} FollowsWave(v: Voice, s: Osc, end: int, t: int)
    requires v.Valid() && s.phase < v.size && s.lastAmp == v.level(s.phase)
    requires OutputAt(s.steps, t) == s.lastAmp && t < end
    ensures Changes(s.time, v.period, t) >= 0
    ensures OutputAt(RunTo(v, s, end).steps, t) == v.level((s.phase + Changes(s.time, v.period, t)) % v.size)
    decreases end - s.time
  {
    hide Advance, OutputAt;
    if s.time <= t {
      AdvanceOutput(v, s, t);
      OneChange(s.time, v.period, t);
      hide Changes;
      var next := Advance(v, s);
      RunToStep(v, s, end);
      FollowsWave(v, next, end, t);
      ModStep(s.phase, Changes(next.time, v.period, t), v.size);
    } else {
      StepsLater(v, s, end, t);
      PhaseIs(s.phase, v.size);
    }
  }

  lemma PhaseIs(phase: nat, size: nat)
    requires phase < size
    ensures (phase + 0) % size == phase
  {
    DivIs(phase, size, 0);
  }

  lemma {:induction false} StepsLater(v: Voice, s: Osc, end: int, t: int)
    requires v.Valid() && t < s.time
    ensures OutputAt(RunTo(v, s, end).steps, t) == OutputAt(s.steps, t)
    decreases end - s.time
  {
    if s.time < end {
      var next := Advance(v, s);
      if next.lastAmp != s.lastAmp {
        OutputNext(s.steps, s.time, next.lastAmp - s.lastAmp, t);
      }
      StepsLater(v, next, end, t);
    }
  }

  /** What a run sounds like, without its loop: at every time of it the output is the wave at the phase reached,
      one phase further for every period gone by. */
  lemma RunIsWave(v: Voice, s: Osc, start: int, end: int, t: int)
    requires v.Valid() && s.phase < v.size && start <= t < end && Total(s.steps) == s.lastAmp
    requires forall i :: 0 <= i < |s.steps| ==> s.steps[i].0 <= start
    ensures Changes(s.time, v.period, t) >= 0
    ensures OutputAt(Run(v, s, start, end).steps, t) == v.level((s.phase + Changes(s.time, v.period, t)) % v.size)
  {
    hide Changes, RunTo;
    var first := SetLevel(s, start, v.level(s.phase));
    OutputBy(s.steps, t);
    OutputNext(s.steps, start, v.level(s.phase) - s.lastAmp, t);
    FollowsWave(v, first, end, t);
  }

  lemma ModStep(phase: nat, n: nat, size: nat)
    requires size > 0
    ensures ((phase + 1) % size + n) % size == (phase + 1 + n) % size
  {
    var x := phase + 1;
    DivBounds(x, size);
    assert x + n == (x % size + n) + x / size * size;
    DivShift(x % size + n, x / size, size);
    assert (x + n) % size == x + n - (x + n) / size * size;
    assert (x % size + n) % size == x % size + n - (x % size + n) / size * size;
    assert ((x % size + n) / size + x / size) * size == (x % size + n) / size * size + x / size * size;
  }

  /** A voice at one level throughout can jump over all its phase changes by division. */
  lemma {:induction false} SilentRun(v: Voice, s: Osc, end: int)
    requires v.Valid() && s.phase < v.size && s.time < end
    requires forall p: nat :: p < v.size ==> v.level(p) == s.lastAmp
    ensures var count := Periods(s.time, end, v.period);
            count >= 0
            && RunTo(v, s, end) == s.(time := s.time + count * v.period, phase := (s.phase + count) % v.size)
    decreases end - s.time
  {
    var t := Advance(v, s);
    PeriodsStep(s.time, end, v.period);
    var rest := Periods(t.time, end, v.period);
    assert (1 + rest) * v.period == v.period + rest * v.period;
    ModStep(s.phase, rest, v.size);
    if t.time < end {
      SilentRun(v, t, end);
    } else {
      PeriodsNone(t.time, end, v.period);
    }
  }

  /** Phase and timer do not depend on the levels. */
  lemma {:induction false} LevelsDoNotMatter(v: Voice, s: Osc, w: Voice, t: Osc, end: int)
    requires v.Valid() && w.Valid() && v.size == w.size && v.period == w.period
    requires s.time == t.time && s.phase == t.phase
    ensures RunTo(v, s, end).time == RunTo(w, t, end).time && RunTo(v, s, end).phase == RunTo(w, t, end).phase
    decreases end - s.time
  {
    if s.time < end {
      LevelsDoNotMatter(v, Advance(v, s), w, Advance(w, t), end);
    }
  }
}
