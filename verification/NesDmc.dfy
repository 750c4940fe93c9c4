/** The NES delta-modulation channel: it fetches its own sample bytes from memory while it runs, and
    predicts those fetches and its interrupt without running. */
module NesDmc {
  import opened Arith
  import opened Timer
  import Oscillator

  const NO_IRQ: int := 0x4000_0000

  /** Everything that stays fixed while the channel runs. */
  datatype Config = Config(
    period: nat,              // CPU clocks per output bit
    loop: bool,               // regs [0] & loop_flag
    irqEnabled: bool,
    startReg: nat,            // regs [2]: sample address
    lengthReg: nat,           // regs [3]: sample length
    output: bool,             // whether sound is wanted
    prgReader: nat -> int)    // CPU memory
  {
    predicate Valid() {
      period > 0 && (irqEnabled ==> !loop) && startReg < 0x100 && lengthReg < 0x100
    }

    function ReloadAddress(): nat { 0x4000 + startReg * 0x40 }

    function ReloadLength(): nat { lengthReg * 0x10 + 1 }
  }

  /** The channel's state; time is that of the next output bit. */
  datatype Dmc = Dmc(
    time: int,
    lengthCounter: nat,       // bytes left to fetch
    address: nat,
    buf: int,
    bufFull: bool,
    bits: int,
    bitsRemain: nat,
    silence: bool,
    dac: int,
    enabled: bool,            // osc_enables bit 4
    irqFlag: bool,
    nextIrq: int,
    fetches: seq<nat>,          // addresses fetched so far
    steps: seq<(int, int)>)   // amplitude steps emitted so far: time and size
  {
    predicate Valid() {
      1 <= bitsRemain <= 8 && (lengthCounter > 0 ==> bufFull) && address < 0x8000
    }
  }

  // ---------------------------------------------------------------- one output bit at a time

  function Fetch(c: Config, s: Dmc): Dmc {
    if s.bufFull || s.lengthCounter == 0 then s
    else
      var t := s.(buf := c.prgReader(0x8000 + s.address), bufFull := true,
                  fetches := s.fetches + [0x8000 + s.address], address := (s.address + 1) % 0x8000,
                  lengthCounter := s.lengthCounter - 1);
      if t.lengthCounter > 0 then t
      else if c.loop then t.(address := c.ReloadAddress(), lengthCounter := c.ReloadLength())
      else t.(enabled := false, irqFlag := c.irqEnabled, nextIrq := NO_IRQ)
  }

  /** Shifts one bit of the current byte into the DAC. */
  function ShiftOut(s: Dmc): Dmc {
    if s.silence then s
    else
      var step := s.bits % 2 * 4 - 2;
      if 0 <= s.dac + step <= 0x7F
      then s.(bits := s.bits / 2, dac := s.dac + step, steps := s.steps + [(s.time, step)])
      else s.(bits := s.bits / 2)
  }

  /** Starts the next byte once eight bits are out. */
  function NextByte(c: Config, s: Dmc): Dmc {
    if !s.bufFull then s.(bitsRemain := 8, silence := true)
    else Fetch(c, s.(bitsRemain := 8, silence := !c.output, bits := s.buf, bufFull := false))
  }

  function BitClock(c: Config, s: Dmc): Dmc
    requires s.bitsRemain > 0
  {
    var t := ShiftOut(s);
    var u := t.(time := t.time + c.period, bitsRemain := t.bitsRemain - 1);
    if u.bitsRemain == 0 then NextByte(c, u) else u
  }

  /** Every bit clock before end, one after the other. */
  function RunTo(c: Config, s: Dmc, end: int): Dmc
    requires c.Valid() && s.Valid()
    decreases end - s.time
  {
    if s.time >= end then s else RunTo(c, BitClock(c, s), end)
  }

  /** What run does first: without an output the channel falls silent, otherwise it emits the step
      from the last amplitude heard to the present one. */
  function Started(c: Config, s: Dmc, start: int, lastAmp: int): Dmc {
    if !c.output then s.(silence := true)
    else if s.dac != lastAmp then s.(steps := s.steps + [(start, s.dac - lastAmp)])
    else s
  }

  /** What start leaves behind. */
  function Restarted(c: Config, s: Dmc): Dmc {
    var t := Fetch(c, s.(address := c.ReloadAddress(), lengthCounter := c.ReloadLength()));
    t.(nextIrq := PredictedIrq(c, t))
  }

  // ---------------------------------------------------------------- the predictions

  function NextReadTime(c: Config, s: Dmc): int {
    s.time + (s.bitsRemain - 1) * c.period
  }

  function CountReads(c: Config, s: Dmc, end: int): int
    requires c.period > 0
  {
    var avail := end - NextReadTime(c, s);
    if s.lengthCounter == 0 || avail <= 0 then 0
    else
      var count := (avail - 1) / (c.period * 8) + 1;
      if !c.loop && count > s.lengthCounter then s.lengthCounter else count
  }

  /** The time count_reads stores through last_read. */
  function LastRead(c: Config, s: Dmc, end: int): int
    requires c.period > 0
  {
    var count := CountReads(c, s, end);
    if count == 0 then end else NextReadTime(c, s) + (count - 1) * (c.period * 8) + 1
  }

  function IrqTime(c: Config, s: Dmc): int {
    s.time + ((s.lengthCounter - 1) * 8 + s.bitsRemain - 1) * c.period + 1
  }

  /** The value recalc_irq stores. */
  function PredictedIrq(c: Config, s: Dmc): int {
    if c.irqEnabled && s.lengthCounter > 0 then IrqTime(c, s) else NO_IRQ
  }

  // ---------------------------------------------------------------- properties

  lemma RunValid(c: Config, s: Dmc, end: int)
    requires c.Valid() && s.Valid()
    ensures RunTo(c, s, end).Valid() && RunTo(c, s, end).time >= end
    ensures s.fetches <= RunTo(c, s, end).fetches
    decreases end - s.time
  {
    hide BitClock;
    if s.time < end {
      BitClockValid(c, s);
      RunValid(c, BitClock(c, s), end);
    }
  }

  lemma FetchValid(c: Config, s: Dmc)
    requires c.Valid() && 1 <= s.bitsRemain <= 8 && s.address < 0x8000
    ensures Fetch(c, s).Valid()
  {
  }

  lemma BitClockValid(c: Config, s: Dmc)
    requires c.Valid() && s.Valid()
    ensures BitClock(c, s).Valid() && BitClock(c, s).time == s.time + c.period
    ensures s.fetches <= BitClock(c, s).fetches
  {
  }

  /** Which of the bytes fetched is being shifted out; -1 before the first. */
  function Playing(s: Dmc): int {
    |s.fetches| - (if s.bufFull then 1 else 0) - 1
  }

  /** The byte that waits is the last one fetched, and the bits left to shift out are what remains of the
      one before it. */
  ghost predicate Holds(c: Config, s: Dmc) {
    && Playing(s) >= -1
    && (s.bufFull ==> s.buf == c.prgReader(s.fetches[|s.fetches| - 1]))
    && (!s.silence ==> Playing(s) >= 0 && 1 <= s.bitsRemain <= 8
                       && s.bits == c.prgReader(s.fetches[Playing(s)]) / Pow2(8 - s.bitsRemain))
  }

  lemma PowZero()
    ensures Pow2(0) == 1
  {
  }

  lemma FetchHolds(c: Config, s: Dmc)
    requires Holds(c, s)
    ensures Holds(c, Fetch(c, s)) && Playing(Fetch(c, s)) == Playing(s)
  {
    hide Pow2;
  }

  lemma BitClockHolds(c: Config, s: Dmc)
    requires c.Valid() && s.Valid() && Holds(c, s)
    ensures Holds(c, BitClock(c, s))
  {
    hide Pow2, Fetch;
    var t := ShiftOut(s);
    var u := t.(time := t.time + c.period, bitsRemain := t.bitsRemain - 1);
    if !s.silence {
      ShiftNext(c.prgReader(s.fetches[Playing(s)]), 8 - s.bitsRemain);
    }
    if u.bitsRemain == 0 && u.bufFull {
      PowZero();
      FetchHolds(c, u.(bitsRemain := 8, silence := !c.output, bits := u.buf, bufFull := false));
    }
  }

  lemma {:induction false} RunHolds(c: Config, s: Dmc, end: int)
    requires c.Valid() && s.Valid() && Holds(c, s)
    ensures Holds(c, RunTo(c, s, end))
    decreases end - s.time
  {
    if s.time < end {
      BitClockValid(c, s);
      BitClockHolds(c, s);
      hide BitClock;
      RunHolds(c, BitClock(c, s), end);
    }
  }

  lemma TotalNext(steps: seq<(int, int)>, t: int, step: int)
    ensures Oscillator.Total(steps + [(t, step)]) == Oscillator.Total(steps) + step
  {
    assert (steps + [(t, step)])[..|steps|] == steps;
  }

  lemma BitTotal(c: Config, s: Dmc)
    requires c.Valid() && s.Valid()
    ensures Oscillator.Total(BitClock(c, s).steps) - BitClock(c, s).dac == Oscillator.Total(s.steps) - s.dac
  {
    hide Oscillator.Total;
    TotalNext(s.steps, s.time, s.bits % 2 * 4 - 2);
  }

  /** The steps emitted follow the DAC. */
  lemma {:induction false} RunTotal(c: Config, s: Dmc, end: int)
    requires c.Valid() && s.Valid()
    ensures Oscillator.Total(RunTo(c, s, end).steps) - RunTo(c, s, end).dac == Oscillator.Total(s.steps) - s.dac
    decreases end - s.time
  {
    hide BitClock, Oscillator.Total;
    if s.time < end {
      BitClockValid(c, s);
      BitTotal(c, s);
      RunTotal(c, BitClock(c, s), end);
    }
  }

  /** Stopping anywhere on the way changes nothing: same final state, fetches and amplitude steps. */
  lemma {:induction false} RunSplit(c: Config, s: Dmc, mid: int, end: int)
    requires c.Valid() && s.Valid() && mid <= end
    ensures RunTo(c, s, mid).Valid()
    ensures RunTo(c, RunTo(c, s, mid), end) == RunTo(c, s, end)
    decreases mid - s.time
  {
    if s.time < mid {
      RunSplit(c, BitClock(c, s), mid, end);
    }
  }

  /** What one bit does to the counters. */
  lemma BitCounters(c: Config, s: Dmc)
    requires c.Valid() && s.Valid()
    ensures var t := BitClock(c, s);
            && t.time == s.time + c.period
            && (s.bitsRemain > 1 ==>
                  t.bitsRemain == s.bitsRemain - 1 && t.lengthCounter == s.lengthCounter && t.fetches == s.fetches)
            && (s.bitsRemain == 1 ==> t.bitsRemain == 8)
            && (s.bitsRemain == 1 && s.lengthCounter == 0 ==> t.lengthCounter == 0 && t.fetches == s.fetches)
            && (s.bitsRemain == 1 && s.lengthCounter > 0 ==>
                  && |t.fetches| == |s.fetches| + 1
                  && t.lengthCounter == if s.lengthCounter > 1 then s.lengthCounter - 1
                                        else if c.loop then c.ReloadLength() else 0)
  {
  }

  lemma SpanNext(avail: int, span: int)
    requires span > 0 && avail > 0
    ensures avail <= span ==> (avail - 1) / span == 0
    ensures avail > span ==> (avail - span - 1) / span >= 0 && (avail - 1) / span == (avail - span - 1) / span + 1
  {
    DivShift(avail - 1, -1, span);
    if avail <= span {
      DivIs(avail - 1, span, 0);
    } else {
      DivMono(0, avail - span - 1, span);
    }
  }

  lemma CountStep(c: Config, s: Dmc, end: int)
    requires c.Valid() && s.Valid() && s.time < end
    ensures CountReads(c, s, end) == CountReads(c, BitClock(c, s), end)
              + |BitClock(c, s).fetches| - |s.fetches|
  {
    hide BitClock;
    BitCounters(c, s);
    if s.bitsRemain > 1 {
      assert (s.bitsRemain - 1) * c.period == (s.bitsRemain - 2) * c.period + c.period;
    } else {
      SpanNext(end - s.time, c.period * 8);
    }
  }

  /** The read count is exactly the number of fetches that running to end makes. */
  lemma {:induction false} CountReadsExact(c: Config, s: Dmc, end: int)
    requires c.Valid() && s.Valid()
    ensures CountReads(c, s, end) == |RunTo(c, s, end).fetches| - |s.fetches|
    decreases end - s.time
  {
    if s.time < end {
      CountStep(c, s, end);
      CountReadsExact(c, BitClock(c, s), end);
    } else {
      MulMono(0, s.bitsRemain - 1, c.period);
    }
  }

  lemma CountReadsMono(c: Config, s: Dmc, t: int, u: int)
    requires c.Valid() && t <= u
    ensures 0 <= CountReads(c, s, t) <= CountReads(c, s, u)
  {
    var at, span := NextReadTime(c, s), c.period * 8;
    if t > at {
      DivMono(0, t - at - 1, span);
      DivMono(t - at - 1, u - at - 1, span);
    } else if u > at {
      DivMono(0, u - at - 1, span);
    }
  }

  /** Just after the n-th period of eight bits the n-th fetch has been made, and not before. */
  lemma CountAt(c: Config, s: Dmc, n: nat)
    requires c.Valid() && s.lengthCounter > 0 && n > 0 && (c.loop || n <= s.lengthCounter)
    ensures var t := NextReadTime(c, s) + (n - 1) * (c.period * 8) + 1;
            CountReads(c, s, t) == n && CountReads(c, s, t - 1) == n - 1
  {
    var span := c.period * 8;
    MulMono(0, n - 1, span);
    DivIs((n - 1) * span, span, n - 1);
    if n > 1 {
      assert (n - 2) * span == (n - 1) * span - span;
      MulMono(0, n - 2, span);
      DivIs((n - 1) * span - 1, span, n - 2);
    }
  }

  /** last_read is the least time with the same count exactly when there is something to count;
      with nothing to read the source returns the time asked about. */
  lemma LastReadLeast(c: Config, s: Dmc, end: int)
    requires c.Valid()
    ensures LastRead(c, s, end) <= end
    ensures CountReads(c, s, LastRead(c, s, end)) == CountReads(c, s, end)
    ensures (forall t :: t < LastRead(c, s, end) ==> CountReads(c, s, t) < CountReads(c, s, end))
            <==> CountReads(c, s, end) > 0
  {
    var count, last := CountReads(c, s, end), LastRead(c, s, end);
    CountReadsMono(c, s, end - 1, end);
    if count > 0 {
      CountAt(c, s, count);
      var avail, span := end - NextReadTime(c, s), c.period * 8;
      DivBounds(avail - 1, span);
      MulMono(count - 1, (avail - 1) / span, span);
      forall t | t < last
        ensures CountReads(c, s, t) < count
      {
        CountReadsMono(c, s, t, last - 1);
      }
    } else {
      assert CountReads(c, s, end - 1) == 0;
    }
  }

  /** The next fetch happens as soon as the channel runs past NextReadTime. */
  lemma NextReadTimeExact(c: Config, s: Dmc, end: int)
    requires c.Valid() && s.Valid() && s.lengthCounter > 0
    ensures RunTo(c, s, end).fetches != s.fetches <==> end > NextReadTime(c, s)
  {
    RunValid(c, s, end);
    CountReadsExact(c, s, end);
    if end > NextReadTime(c, s) {
      DivMono(0, end - NextReadTime(c, s) - 1, c.period * 8);
    }
  }

  lemma IrqStep(c: Config, s: Dmc)
    requires c.Valid() && s.Valid() && c.irqEnabled && s.lengthCounter > 0
    ensures var t := BitClock(c, s);
            if t.lengthCounter > 0
            then IrqTime(c, t) == IrqTime(c, s) && t.irqFlag == s.irqFlag && t.nextIrq == s.nextIrq
            else t.irqFlag && t.nextIrq == NO_IRQ && IrqTime(c, s) == s.time + 1
  {
    var k := (s.lengthCounter - 1) * 8 + s.bitsRemain - 1;
    assert k * c.period == (k - 1) * c.period + c.period;
  }

  lemma {:induction false} IrqFlagStays(c: Config, s: Dmc, end: int)
    requires c.Valid() && s.Valid() && s.lengthCounter == 0
    ensures var t := RunTo(c, s, end);
            t.lengthCounter == 0 && t.irqFlag == s.irqFlag && t.nextIrq == s.nextIrq && t.fetches == s.fetches
    decreases end - s.time
  {
    if s.time < end {
      IrqFlagStays(c, BitClock(c, s), end);
    }
  }

  /** The predicted interrupt time does not move while the channel runs, and running to end raises
      the interrupt exactly when end has reached it. */
  lemma {:induction false} IrqExact(c: Config, s: Dmc, end: int)
    requires c.Valid() && s.Valid() && c.irqEnabled && s.lengthCounter > 0
    ensures var t := RunTo(c, s, end);
            && t.irqFlag == (s.irqFlag || end >= IrqTime(c, s))
            && (end < IrqTime(c, s) <==> t.lengthCounter > 0)
            && (end < IrqTime(c, s) ==> IrqTime(c, t) == IrqTime(c, s) && t.nextIrq == s.nextIrq)
            && (end >= IrqTime(c, s) ==> t.nextIrq == NO_IRQ)
    decreases end - s.time
  {
    if s.time < end {
      IrqStep(c, s);
      if BitClock(c, s).lengthCounter > 0 {
        IrqExact(c, BitClock(c, s), end);
      } else {
        IrqFlagStays(c, BitClock(c, s), end);
      }
    } else {
      MulMono(0, (s.lengthCounter - 1) * 8 + s.bitsRemain - 1, c.period);
    }
  }

  /** So the stored prediction stays right however far the channel runs. */
  lemma {:induction false} PredictionKept(c: Config, s: Dmc, end: int)
    requires c.Valid() && s.Valid() && s.nextIrq == PredictedIrq(c, s)
    ensures RunTo(c, s, end).nextIrq == PredictedIrq(c, RunTo(c, s, end))
    decreases end - s.time
  {
    if s.time < end {
      if c.irqEnabled && s.lengthCounter > 0 {
        IrqStep(c, s);
      }
      PredictionKept(c, BitClock(c, s), end);
    }
  }

  /** What a run does first leaves the bytes alone, and brings the output to the DAC's level. */
  lemma StartedFacts(c: Config, s: Dmc, start: int, lastAmp: int)
    requires Holds(c, s) && (c.output ==> lastAmp == Oscillator.Total(s.steps))
    ensures var first := Started(c, s, start, lastAmp);
            Holds(c, first) && (c.output ==> first.dac == Oscillator.Total(first.steps))
  {
    hide Oscillator.Total;
    TotalNext(s.steps, start, s.dac - lastAmp);
  }

  /** All that a run keeps, started as the source starts it. */
  lemma RunFacts(c: Config, s: Dmc, start: int, lastAmp: int, end: int)
    requires c.Valid() && s.Valid() && s.nextIrq == PredictedIrq(c, s)
    ensures Started(c, s, start, lastAmp).Valid()
    ensures var t := RunTo(c, Started(c, s, start, lastAmp), end);
            t.Valid() && t.time >= end && t.nextIrq == PredictedIrq(c, t)
    ensures Holds(c, s) && (c.output ==> lastAmp == Oscillator.Total(s.steps)) ==>
            var t := RunTo(c, Started(c, s, start, lastAmp), end);
            Holds(c, t) && (c.output ==> t.dac == Oscillator.Total(t.steps))
  {
    hide RunTo, Holds, Oscillator.Total;
    if Holds(c, s) && (c.output ==> lastAmp == Oscillator.Total(s.steps)) {
      StartedFacts(c, s, start, lastAmp);
      RunHolds(c, Started(c, s, start, lastAmp), end);
      RunTotal(c, Started(c, s, start, lastAmp), end);
    }
    PredictionKept(c, Started(c, s, start, lastAmp), end);
    RunValid(c, Started(c, s, start, lastAmp), end);
  }

  /** What the rest of the machine relies on: started from a reachable state, a run to end makes
      CountReads fetches and raises the interrupt exactly when end has reached the stored time. */
  lemma PredictionsHold(c: Config, s: Dmc, start: int, lastAmp: int, end: int)
    requires c.Valid() && s.Valid() && s.nextIrq == PredictedIrq(c, s)
    ensures var first := Started(c, s, start, lastAmp);
            && first.Valid()
            && |RunTo(c, first, end).fetches| == |s.fetches| + CountReads(c, s, end)
            && (c.irqEnabled && s.lengthCounter > 0 ==>
                  RunTo(c, first, end).irqFlag == (s.irqFlag || end >= s.nextIrq))
  {
    var first := Started(c, s, start, lastAmp);
    CountReadsExact(c, first, end);
    assert CountReads(c, first, end) == CountReads(c, s, end);
    if c.irqEnabled && s.lengthCounter > 0 {
      IrqExact(c, first, end);
    }
  }

  function BitsAfter(bitsRemain: nat, count: int): nat
    requires 1 <= bitsRemain <= 8
  {
    (bitsRemain - 1 + 8 - count % 8) % 8 + 1
  }

  lemma BitsStep(bitsRemain: nat, rest: nat)
    requires 1 <= bitsRemain <= 8
    ensures BitsAfter(bitsRemain, 0) == bitsRemain
    ensures BitsAfter(bitsRemain, 1 + rest) == BitsAfter(if bitsRemain == 1 then 8 else bitsRemain - 1, rest)
  {
    var q, r := rest / 8, rest % 8;
    DivIs(1 + rest, 8, if r == 7 then q + 1 else q);
    RingBack(bitsRemain, r);
  }

  lemma RingBack(b: nat, r: int)
    requires 1 <= b <= 8 && 0 <= r < 8
    ensures (b - 1 + 8 - 0) % 8 + 1 == b
    ensures (b - 1 + 8 - (if r == 7 then 0 else r + 1)) % 8 == ((if b == 1 then 8 else b - 1) - 1 + 8 - r) % 8
  {
  }

  /** With nothing to play, jumping over the bit clocks by division ends where stepping does. */
  lemma {:induction false} SilentRun(c: Config, s: Dmc, end: int)
    requires c.Valid() && s.Valid() && s.silence && !s.bufFull && s.time < end
    ensures var count := Periods(s.time, end, c.period);
            RunTo(c, s, end) == s.(time := s.time + count * c.period, bitsRemain := BitsAfter(s.bitsRemain, count))
    decreases end - s.time
  {
    hide BitsAfter;
    var t := BitClock(c, s);
    PeriodsStep(s.time, end, c.period);
    var rest := Periods(t.time, end, c.period);
    assert (1 + rest) * c.period == c.period + rest * c.period;
    if t.time < end {
      PeriodsStep(t.time, end, c.period);
      SilentRun(c, t, end);
    } else {
      PeriodsNone(t.time, end, c.period);
    }
    BitsStep(s.bitsRemain, rest);
    BitsStep(t.bitsRemain, 0);
  }

  lemma RestartFacts(c: Config, s: Dmc)
    requires c.Valid() && s.Valid() && Holds(c, s)
    ensures var t := Restarted(c, s);
            && t.Valid() && Holds(c, t) && t.steps == s.steps && t.nextIrq == PredictedIrq(c, t)
  {
    hide Fetch, Holds;
    var t := s.(address := c.ReloadAddress(), lengthCounter := c.ReloadLength());
    HoldsAlso(c, s, t);
    FetchValid(c, t);
    FetchHolds(c, t);
    SameSteps(c, t);
    HoldsAlso(c, Fetch(c, t), Restarted(c, s));
  }

  /** The bytes held do not depend on what is still to be fetched. */
  lemma HoldsAlso(c: Config, s: Dmc, t: Dmc)
    requires Holds(c, s)
    requires t == s.(address := t.address, lengthCounter := t.lengthCounter, enabled := t.enabled, irqFlag := t.irqFlag,
                     nextIrq := t.nextIrq)
    ensures Holds(c, t)
  {
  }

  lemma SameSteps(c: Config, s: Dmc)
    ensures Fetch(c, s).steps == s.steps
  {
  }

  // ---------------------------------------------------------------- the channel as the APU drives it

  /** Higher rates have shorter periods, and the slower PAL machine has shorter ones than the other. */
  lemma PeriodsFall(pal: bool, index: nat)
    requires index < 16
    ensures index < 15 ==> PeriodTable(pal, index + 1) < PeriodTable(pal, index)
    ensures PeriodTable(true, index) < PeriodTable(false, index)
  {
  }

  function PeriodTable(pal: bool, index: nat): (period: nat)
    requires index < 16
    ensures 50 <= period <= 428
  {
    if pal then [398, 354, 316, 298, 276, 236, 210, 198, 176, 148, 132, 118, 98, 78, 66, 50][index]
    else [428, 380, 340, 320, 286, 254, 226, 214, 190, 160, 142, 128, 106, 84, 72, 54][index]
  }

  class Apu {
    const palMode: bool
    var regs: Config              // registers 0x4010, 0x4012 and 0x4013, decoded, and the connections
    // Nes_Dmc
    var delay: nat                // clocks from lastDmcTime to the next output bit
    var lengthCounter: nat
    var address: nat
    var buf: int
    var bufFull: bool
    var bits: int
    var bitsRemain: nat
    var silence: bool
    var dac: int
    var lastAmp: int
    var irqFlag: bool
    var nextIrq: int
    // Nes_Apu
    var lastDmcTime: int
    var enabled: bool
    // what the outside world has seen
    ghost var fetches: seq<nat>
    ghost var steps: seq<(int, int)>

    ghost function State(): Dmc
      reads this
    {
      StateAt(lastDmcTime + delay)
    }

    /** The state with the next output bit at the given time. */
    ghost function StateAt(time: int): Dmc
      reads this
    {
      Dmc(time, lengthCounter, address, buf, bufFull, bits, bitsRemain, silence, dac,
          enabled, irqFlag, nextIrq, fetches, steps)
    }

    /** The reachable states: a byte is buffered while bytes remain, the stored interrupt time is the
        predicted one, the bytes held are the last ones fetched, and the steps emitted add up to the
        amplitude. */
    ghost predicate Valid()
      reads this
    {
      && regs.Valid() && State().Valid() && nextIrq == PredictedIrq(regs, State())
      && Holds(regs, State()) && (regs.output ==> lastAmp == Oscillator.Total(steps))
    }

    constructor Reset(prgReader: nat -> int, palMode: bool, output: bool)
      ensures Valid() && lastDmcTime == 0 && lastAmp == 0
      ensures this.palMode == palMode && regs == Config(428, false, false, 0, 0, output, prgReader)
      ensures State() == Dmc(0, 0, 0, 0, false, 0, 1, true, 0, false, false, NO_IRQ, [], [])
    {
      this.palMode := palMode;
      regs := Config(0x1AC, false, false, 0, 0, output, prgReader);
      delay, lengthCounter, address, buf, bufFull, bits, bitsRemain := 0, 0, 0, 0, false, 0, 1;
      silence, dac, lastAmp, irqFlag, nextIrq := true, 0, 0, false, NO_IRQ;
      lastDmcTime, enabled := 0, false;
      fetches, steps := [], [];
    }

    method ReloadSample()
      modifies this`address, this`lengthCounter
      ensures address == regs.ReloadAddress() && lengthCounter == regs.ReloadLength()
    {
      address := 0x4000 + regs.startReg * 0x40;
      lengthCounter := regs.lengthReg * 0x10 + 1;
    }

    method FillBuffer()
      modifies this`buf, this`bufFull, this`fetches, this`address, this`lengthCounter, this`enabled,
               this`irqFlag, this`nextIrq
      ensures forall t :: StateAt(t) == Fetch(regs, old(StateAt(t)))
    {
      if !bufFull && lengthCounter > 0 {
        buf := regs.prgReader(0x8000 + address);
        fetches := fetches + [0x8000 + address];
        address := (address + 1) % 0x8000;
        bufFull := true;
        lengthCounter := lengthCounter - 1;
        if lengthCounter == 0 {
          if regs.loop {
            ReloadSample();
          } else {
            enabled := false;
            irqFlag := regs.irqEnabled;
            nextIrq := NO_IRQ;
          }
        }
      }
    }

    /** Runs the channel up to end: bit by bit when there is something to play, by division when not. */
    method RunUntil(end: int)
      requires Valid() && lastDmcTime <= end
      modifies this`buf, this`bufFull, this`fetches, this`address, this`lengthCounter, this`enabled, this`lastAmp,
               this`irqFlag, this`nextIrq, this`bits, this`dac, this`bitsRemain, this`silence, this`steps,
               this`delay, this`lastDmcTime
      ensures Valid() && lastDmcTime == end && lastAmp == dac
      ensures State() == RunTo(regs, Started(regs, old(State()), old(lastDmcTime), old(lastAmp)), end)
    {
      hide RunTo, PredictedIrq, Started, Holds, Oscillator.Total;
      ghost var c := regs;
      ghost var first := Started(c, State(), lastDmcTime, lastAmp);
      RunFacts(c, State(), lastDmcTime, lastAmp, end);
      var time := lastDmcTime + delay;
      BeginRun();
      lastDmcTime := end;
      time := RunBits(time, end);
      delay := time - end;
    }

    method BeginRun()
      modifies this`lastAmp, this`silence, this`steps
      ensures lastAmp == dac
      ensures State() == Started(regs, old(State()), lastDmcTime, old(lastAmp))
    {
      var delta := dac - lastAmp;
      lastAmp := dac;
      if !regs.output {
        silence := true;
      } else if delta != 0 {
        steps := steps + [(lastDmcTime, delta)];
      }
    }

    /** The body of run: by division when silent, else bit by bit. */
    method RunBits(start: int, end: int) returns (time: int)
      requires regs.Valid() && StateAt(start).Valid() && lastAmp == dac
      modifies this`buf, this`bufFull, this`fetches, this`address, this`lengthCounter, this`enabled, this`lastAmp,
               this`irqFlag, this`nextIrq, this`bits, this`dac, this`bitsRemain, this`silence, this`steps
      ensures StateAt(time) == RunTo(regs, old(StateAt(start)), end) && lastAmp == dac
    {
      time := start;
      if start < end {
        if silence && !bufFull {
          SilentRun(regs, StateAt(start), end);
          var count := (end - start + regs.period - 1) / regs.period;
          bitsRemain := (bitsRemain - 1 + 8 - count % 8) % 8 + 1;
          time := start + count * regs.period;
        } else {
          time := AudibleLoop(start, end);
          lastAmp := dac;
        }
      }
    }

    method AudibleLoop(start: int, end: int) returns (time: int)
      requires regs.Valid() && StateAt(start).Valid()
      modifies this`buf, this`bufFull, this`fetches, this`address, this`lengthCounter, this`enabled,
               this`irqFlag, this`nextIrq, this`bits, this`dac, this`bitsRemain, this`silence, this`steps
      ensures StateAt(time) == RunTo(regs, old(StateAt(start)), end)
    {
      hide BitClock, ShiftOut, NextByte;
      ghost var c, first := regs, StateAt(start);
      time := start;
      while time < end
        invariant regs == c && StateAt(time).Valid()
        invariant RunTo(c, StateAt(time), end) == RunTo(c, first, end)
        decreases end - time
      {
        BitClockValid(c, StateAt(time));
        ghost var next := BitClock(c, StateAt(time));
        ClockBit(time);
        time := time + regs.period;
        assert StateAt(time) == next;
      }
    }

    /** One pass of that loop. */
    method ClockBit(time: int)
      requires regs.Valid() && StateAt(time).Valid()
      modifies this`buf, this`bufFull, this`fetches, this`address, this`lengthCounter, this`enabled,
               this`irqFlag, this`nextIrq, this`bits, this`dac, this`bitsRemain, this`silence, this`steps
      ensures regs == old(regs)
      ensures StateAt(time + regs.period) == BitClock(regs, old(StateAt(time)))
    {
      hide NextByte;
      if !silence {
        var step := bits % 2 * 4 - 2;
        bits := bits / 2;
        if 0 <= dac + step <= 0x7F {
          dac := dac + step;
          steps := steps + [(time, step)];
        }
      }
      assert StateAt(time) == ShiftOut(old(StateAt(time)));
      bitsRemain := bitsRemain - 1;
      if bitsRemain == 0 {
        LoadByte();
      }
    }

    method LoadByte()
      modifies this`buf, this`bufFull, this`fetches, this`address, this`lengthCounter, this`enabled,
               this`irqFlag, this`nextIrq, this`bits, this`bitsRemain, this`silence
      ensures forall t :: StateAt(t) == NextByte(regs, old(StateAt(t)))
    {
      hide Fetch;
      bitsRemain := 8;
      if !bufFull {
        silence := true;
      } else {
        silence := false;
        bits := buf;
        bufFull := false;
        if !regs.output {
          silence := true;
        }
        FillBuffer();
      }
    }

    /** Fetches a run to time t would make now. */
    ghost function FetchesBy(t: int): int
      requires Valid()
      reads this
    {
      RunFacts(regs, State(), lastDmcTime, lastAmp, t);
      |RunTo(regs, Started(regs, State(), lastDmcTime, lastAmp), t).fetches| - |fetches|
    }

    /** count_reads, which only looks at the state. */
    method CountDmcReads(time: int) returns (count: int, lastRead: int)
      requires Valid()
      ensures count == FetchesBy(time)
      ensures lastRead <= time && FetchesBy(lastRead) == count
      ensures count > 0 ==> forall t :: t < lastRead ==> FetchesBy(t) < count
      ensures count == 0 ==> lastRead == time
    {
      ghost var c, s := regs, State();
      LastReadLeast(c, s, time);
      forall t
        ensures FetchesBy(t) == CountReads(c, s, t)
      {
        PredictionsHold(c, s, lastDmcTime, lastAmp, t);
      }
      hide FetchesBy;
      lastRead := time;
      if lengthCounter == 0 {
        return 0, lastRead;
      }
      var firstRead := lastDmcTime + delay + (bitsRemain - 1) * regs.period;
      var avail := time - firstRead;
      if avail <= 0 {
        return 0, lastRead;
      }
      count := (avail - 1) / (regs.period * 8) + 1;
      if !regs.loop && count > lengthCounter {
        count := lengthCounter;
      }
      lastRead := firstRead + (count - 1) * (regs.period * 8) + 1;
    }

    method RecalcIrq()
      requires regs.Valid()
      modifies this`nextIrq
      ensures nextIrq == PredictedIrq(regs, State()) == PredictedIrq(regs, old(State()))
    {
      var irq := NO_IRQ;
      if regs.irqEnabled && lengthCounter > 0 {
        irq := lastDmcTime + delay + ((lengthCounter - 1) * 8 + bitsRemain - 1) * regs.period + 1;
      }
      nextIrq := irq;
    }

    /** Starts the sample over: reloads it, fetches its first byte unless one is still waiting, and
        predicts the interrupt. */
    method Start()
      requires regs.Valid() && State().Valid() && Holds(regs, State())
      requires regs.output ==> lastAmp == Oscillator.Total(steps)
      modifies this`address, this`lengthCounter, this`buf, this`bufFull, this`fetches, this`enabled,
               this`irqFlag, this`nextIrq
      ensures Valid()
      ensures State() == Restarted(regs, old(State()))
    {
      hide PredictedIrq, Fetch, Holds, Oscillator.Total;
      RestartFacts(regs, State());
      ReloadSample();
      FillBuffer();
      RecalcIrq();
    }

    /** Write to 0x4010: sample rate, looping, interrupt enable. */
    method WriteRate(data: nat)
      requires Valid() && data < 0x100
      modifies this`regs, this`irqFlag, this`nextIrq
      ensures Valid()
      ensures regs == old(regs).(period := PeriodTable(palMode, data % 16), loop := data / 0x40 % 2 == 1,
                                 irqEnabled := data / 0x40 == 2)
      ensures irqFlag == (old(irqFlag) && regs.irqEnabled)
    {
      hide PeriodTable;
      regs := regs.(period := PeriodTable(palMode, data % 16), loop := data / 0x40 % 2 == 1,
                    irqEnabled := data / 0x40 == 2);
      irqFlag := irqFlag && regs.irqEnabled;
      RecalcIrq();
    }

    /** Writes to 0x4012 and 0x4013 take effect at the next reload. */
    method WriteSample(startReg: nat, lengthReg: nat)
      requires Valid() && startReg < 0x100 && lengthReg < 0x100
      modifies this`regs
      ensures Valid() && State() == old(State())
      ensures regs == old(regs).(startReg := startReg, lengthReg := lengthReg)
    {
      regs := regs.(startReg := startReg, lengthReg := lengthReg);
    }

    /** The channel's part of a write to 0x4015. */
    method WriteEnable(on: bool)
      requires Valid()
      modifies this`address, this`lengthCounter, this`buf, this`bufFull, this`fetches, this`enabled,
               this`irqFlag, this`nextIrq
      ensures Valid() && regs == old(regs)
      ensures State() ==
              if !on then old(State()).(lengthCounter := 0, irqFlag := false, enabled := false, nextIrq := NO_IRQ)
              else if old(enabled) then old(State()).(irqFlag := false)
              else Restarted(regs, old(State()).(irqFlag := false, enabled := true))
    {
      hide Fetch, Restarted, Holds, Oscillator.Total;
      HoldsAlso(regs, State(), State().(lengthCounter := if on then lengthCounter else 0, irqFlag := false, enabled := on,
                                       nextIrq := if on then nextIrq else NO_IRQ));
      if !on {
        lengthCounter := 0;
      }
      irqFlag := false;
      var oldEnables := enabled;
      enabled := on;
      if !on {
        nextIrq := NO_IRQ;
      } else if !oldEnables {
        Start();
      }
    }

    /** The channel's part of end_frame: all times become relative to the new frame. */
    method EndFrame(end: int)
      requires Valid()
      requires regs.irqEnabled && lengthCounter > 0 ==> IrqTime(regs, State()) < NO_IRQ
      requires end <= lastDmcTime
      modifies this`lastDmcTime, this`nextIrq
      ensures Valid() && lastDmcTime == old(lastDmcTime) - end
      ensures State().(time := old(State()).time, nextIrq := old(nextIrq)) == old(State())
    {
      lastDmcTime := lastDmcTime - end;
      if nextIrq != NO_IRQ {
        nextIrq := nextIrq - end;
      }
    }
  }
}
