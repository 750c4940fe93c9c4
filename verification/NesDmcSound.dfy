/** What the NES delta-modulation channel plays: the bits of the bytes it fetches, lowest bit first, each
    moving the DAC by two; and which bytes those are. */
module NesDmcSound {
  import opened Arith
  import opened Timer
  import opened NesDmc

  // ---------------------------------------------------------------- clock by clock

  /** The state after n bit clocks. */
  function Clocks(c: Config, s: Dmc, n: nat): (t: Dmc)
    requires c.Valid() && s.Valid()
    ensures t.Valid()
  {
    if n == 0 then s
    else
      BitClockValid(c, Clocks(c, s, n - 1));
      BitClock(c, Clocks(c, s, n - 1))
  }

  lemma {:induction false} ClocksNext(c: Config, s: Dmc, n: nat)
    requires c.Valid() && s.Valid()
    ensures BitClock(c, s).Valid() && Clocks(c, BitClock(c, s), n) == Clocks(c, s, n + 1)
  {
    hide BitClock;
    BitClockValid(c, s);
    if n > 0 {
      ClocksNext(c, s, n - 1);
    } else {
      assert Clocks(c, s, 0) == s;
    }
  }

  /** Bit clocks of a run to end. */
  function Due(c: Config, s: Dmc, end: int): (n: nat)
    requires c.Valid()
  {
    if s.time >= end then 0
    else
      PeriodsStep(s.time, end, c.period);
      Periods(s.time, end, c.period)
  }

  lemma {:induction false} RunIsClocks(c: Config, s: Dmc, end: int)
    requires c.Valid() && s.Valid()
    ensures RunTo(c, s, end) == Clocks(c, s, Due(c, s, end))
    decreases end - s.time
  {
    hide BitClock, Clocks;
    if s.time < end {
      BitClockValid(c, s);
      var t := BitClock(c, s);
      PeriodsStep(s.time, end, c.period);
      if t.time >= end {
        PeriodsNone(t.time, end, c.period);
      }
      RunIsClocks(c, t, end);
      ClocksNext(c, s, Due(c, t, end));
    } else {
      NoClocks(c, s);
    }
  }

  lemma NoClocks(c: Config, s: Dmc)
    requires c.Valid() && s.Valid()
    ensures Clocks(c, s, 0) == s
  {
  }

  // ---------------------------------------------------------------- the bits of the bytes fetched

  /** Bit clocks since the byte now being shifted out was begun. */
  function Place(s: Dmc): int {
    8 - s.bitsRemain
  }

  /** The n-th bit clock from s shifts out a bit of byte number ByteAt among all bytes fetched. */
  function ByteAt(s: Dmc, n: nat): int {
    Playing(s) + (Place(s) + n) / 8
  }

  /** It is heard if there is such a byte; of the byte begun already that is so unless the channel is silent. */
  predicate Audible(s: Dmc, fetched: nat, n: nat) {
    if Place(s) + n < 8 then !s.silence else ByteAt(s, n) < fetched
  }

  predicate InReach(dac: int) {
    0 <= dac <= 0x7F
  }

  /** The DAC after n bit clocks from s, fetched being all bytes fetched by then or later: a set bit moves it
      up by 2, a clear one down, unless that would leave its range. */
  ghost function DacAfter(c: Config, s: Dmc, fetched: seq<nat>, n: nat): int
    requires Playing(s) >= -1 && (!s.silence ==> Playing(s) >= 0) && |s.fetches| <= |fetched| && s.Valid()
  {
    if n == 0 then s.dac
    else
      var dac := DacAfter(c, s, fetched, n - 1);
      if !Audible(s, |fetched|, n - 1) then dac
      else
        var byte := c.prgReader(fetched[ByteAt(s, n - 1)]);
        var moved := if byte / Pow2((Place(s) + n - 1) % 8) % 2 == 1 then dac + 2 else dac - 2;
        if InReach(moved) then moved else dac
  }

  /** The steps emitted by then: one at every bit clock that moves the DAC. */
  ghost function StepsAfter(c: Config, s: Dmc, fetched: seq<nat>, n: nat): seq<(int, int)>
    requires Playing(s) >= -1 && (!s.silence ==> Playing(s) >= 0) && |s.fetches| <= |fetched| && s.Valid()
  {
    if n == 0 then s.steps
    else
      var from, to := DacAfter(c, s, fetched, n - 1), DacAfter(c, s, fetched, n);
      StepsAfter(c, s, fetched, n - 1)
      + if from == to then [] else [(s.time + (n - 1) * c.period, to - from)]
  }

  /** There is nothing left to play. */
  predicate Dry(s: Dmc) {
    !s.bufFull && s.lengthCounter == 0 && s.silence
  }

  /** Where the state after n bit clocks is among the bytes. */
  ghost predicate Tracks(c: Config, s: Dmc, n: nat, t: Dmc) {
    && t.Valid() && Holds(c, t) && t.time == s.time + n * c.period && s.fetches <= t.fetches
    && Place(t) == (Place(s) + n) % 8
    && if Dry(t) && Place(s) + n >= 8 then ByteAt(s, n) >= |t.fetches|
       else Playing(t) == ByteAt(s, n) && t.silence == (s.silence && Place(s) + n < 8)
  }

  lemma NextByteKeeps(c: Config, s: Dmc)
    ensures NextByte(c, s).dac == s.dac && NextByte(c, s).steps == s.steps && NextByte(c, s).time == s.time
  {
  }

  /** One bit: the DAC moves by the present bit, and only the end of a byte touches the rest. */
  lemma BitMoves(c: Config, s: Dmc)
    requires c.Valid() && s.Valid() && Holds(c, s)
    ensures var t := BitClock(c, s);
      && t.time == s.time + c.period
      && (if s.silence then t.dac == s.dac && t.steps == s.steps
          else
            var moved := if c.prgReader(s.fetches[Playing(s)]) / Pow2(Place(s)) % 2 == 1 then s.dac + 2 else s.dac - 2;
            if InReach(moved) then t.dac == moved && t.steps == s.steps + [(s.time, moved - s.dac)]
            else t.dac == s.dac && t.steps == s.steps)
  {
    hide NextByte, Pow2;
    var t := ShiftOut(s);
    NextByteKeeps(c, t.(time := t.time + c.period, bitsRemain := t.bitsRemain - 1));
  }

  lemma NextIsFetched(c: Config, s: Dmc)
    requires c.Valid() && s.Valid() && Holds(c, s)
    ensures var t := BitClock(c, s);
      && s.fetches <= t.fetches
      && (s.bitsRemain > 1 ==> t.bitsRemain == s.bitsRemain - 1 && t.silence == s.silence && Playing(t) == Playing(s)
                               && t.fetches == s.fetches && t.bufFull == s.bufFull && t.lengthCounter == s.lengthCounter)
      && (s.bitsRemain == 1 ==> t.bitsRemain == 8)
      && (s.bitsRemain == 1 && s.bufFull ==> t.silence == !c.output && Playing(t) == Playing(s) + 1)
      && (s.bitsRemain == 1 && !s.bufFull ==> Dry(t) && t.fetches == s.fetches)
      && (Dry(s) ==> Dry(t) && t.fetches == s.fetches)
  {
    hide Pow2, Fetch, ShiftOut;
    ShiftKeeps(s);
    var u := ShiftOut(s).(bitsRemain := 8, silence := !c.output, bits := s.buf, bufFull := false,
                          time := s.time + c.period);
    FetchFacts(c, u);
  }

  /** Shifting out a bit leaves what is fetched alone. */
  lemma ShiftKeeps(s: Dmc)
    ensures var t := ShiftOut(s); t == s.(bits := t.bits, dac := t.dac, steps := t.steps)
  {
  }

  /** What a fetch does to the sample. */
  lemma FetchFacts(c: Config, s: Dmc)
    ensures var t := Fetch(c, s);
      && t.silence == s.silence && t.bitsRemain == s.bitsRemain && Playing(t) == Playing(s)
      && (s.bufFull || s.lengthCounter == 0 ==> t == s)
      && (!s.bufFull && s.lengthCounter > 0 ==> Fetched(c, s, t))
  {
  }

  lemma PlaceNext(place: int, n: nat)
    requires 0 <= place < 8
    ensures var p := (place + n) % 8;
            && (place + n + 1) % 8 == (if p == 7 then 0 else p + 1)
            && (place + n + 1) / 8 == (place + n) / 8 + (if p == 7 then 1 else 0)
  {
  }

  lemma TracksNext(c: Config, s: Dmc, n: nat, t: Dmc)
    requires c.Valid() && c.output && s.Valid() && Holds(c, s) && Tracks(c, s, n, t)
    ensures Tracks(c, s, n + 1, BitClock(c, t))
  {
    hide BitClock, Holds;
    BitClockValid(c, t);
    BitClockHolds(c, t);
    NextIsFetched(c, t);
    PlaceNext(Place(s), n);
    assert (n + 1) * c.period == n * c.period + c.period;
  }

  lemma {:induction false} TracksAll(c: Config, s: Dmc, n: nat)
    requires c.Valid() && c.output && s.Valid() && Holds(c, s)
    ensures Tracks(c, s, n, Clocks(c, s, n))
  {
    hide Tracks, BitClock;
    if n > 0 {
      TracksAll(c, s, n - 1);
      TracksNext(c, s, n - 1, Clocks(c, s, n - 1));
    } else {
      TracksNone(c, s);
      NoClocks(c, s);
    }
  }

  lemma TracksNone(c: Config, s: Dmc)
    requires c.Valid() && s.Valid() && Holds(c, s)
    ensures Tracks(c, s, 0, s)
  {
    hide Pow2;
  }

  /** The bytes fetched by one clock are still the first ones later; nothing comes once there is nothing left. */
  lemma {:induction false} FetchedLater(c: Config, s: Dmc, m: nat, n: nat)
    requires c.Valid() && c.output && s.Valid() && Holds(c, s) && m <= n
    ensures Clocks(c, s, m).fetches <= Clocks(c, s, n).fetches
    ensures Dry(Clocks(c, s, m)) ==> Dry(Clocks(c, s, n)) && Clocks(c, s, n).fetches == Clocks(c, s, m).fetches
  {
    hide BitClock, Dry, Holds;
    if m < n {
      FetchedLater(c, s, m, n - 1);
      TracksAll(c, s, n - 1);
      NextIsFetched(c, Clocks(c, s, n - 1));
    }
  }

  /** Bit clock n from s, seen from the bytes fetched by then or later. */
  lemma BitIsHeard(c: Config, s: Dmc, n: nat, t: Dmc, fetched: seq<nat>)
    requires c.Valid() && s.Valid() && Holds(c, s) && Tracks(c, s, n, t)
    requires t.fetches <= fetched && (Dry(t) ==> fetched == t.fetches)
    ensures Audible(s, |fetched|, n) == !t.silence
    ensures !t.silence ==>
              && Playing(t) == ByteAt(s, n) && t.fetches[Playing(t)] == fetched[ByteAt(s, n)]
              && Place(t) == (Place(s) + n) % 8
  {
    hide Pow2;
  }

  lemma HoldsPlaying(c: Config, s: Dmc)
    requires Holds(c, s)
    ensures Playing(s) >= -1 && (!s.silence ==> Playing(s) >= 0)
  {
  }

  /** One more bit clock, as heard from the state it starts in. */
  lemma DacNext(c: Config, s: Dmc, fetched: seq<nat>, n: nat, t: Dmc, u: Dmc)
    requires Playing(s) >= -1 && (!s.silence ==> Playing(s) >= 0) && |s.fetches| <= |fetched| && s.Valid()
    requires t.dac == DacAfter(c, s, fetched, n) && t.steps == StepsAfter(c, s, fetched, n)
    requires Audible(s, |fetched|, n) == !t.silence && t.time == s.time + n * c.period
    requires !t.silence ==> 0 <= Playing(t) == ByteAt(s, n) < |t.fetches| && Place(t) == (Place(s) + n) % 8
                            && t.fetches[Playing(t)] == fetched[ByteAt(s, n)]
    requires if t.silence then u.dac == t.dac && u.steps == t.steps
             else
               var moved := if c.prgReader(t.fetches[Playing(t)]) / Pow2(Place(t)) % 2 == 1 then t.dac + 2 else t.dac - 2;
               if InReach(moved) then u.dac == moved && u.steps == t.steps + [(t.time, moved - t.dac)]
               else u.dac == t.dac && u.steps == t.steps
    ensures u.dac == DacAfter(c, s, fetched, n + 1) && u.steps == StepsAfter(c, s, fetched, n + 1)
  {
    hide Audible, Pow2, InReach, Playing;
    var from, to := DacAfter(c, s, fetched, n), DacAfter(c, s, fetched, n + 1);
    assert to == u.dac;
    assert StepsAfter(c, s, fetched, n + 1)
           == StepsAfter(c, s, fetched, n) + if from == to then [] else [(s.time + n * c.period, to - from)];
  }

  lemma {:induction false} PlaysClocks(c: Config, s: Dmc, n: nat, all: nat)
    requires c.Valid() && c.output && s.Valid() && Holds(c, s) && n <= all
    requires Playing(s) >= -1 && (!s.silence ==> Playing(s) >= 0) && |s.fetches| <= |Clocks(c, s, all).fetches|
    ensures var t, fetched := Clocks(c, s, n), Clocks(c, s, all).fetches;
            t.dac == DacAfter(c, s, fetched, n) && t.steps == StepsAfter(c, s, fetched, n)
  {
    hide BitClock, Holds, Tracks, Audible, Dry, Pow2, DacAfter, StepsAfter, InReach, Playing, ByteAt, Place, Clocks;
    if n > 0 {
      ClocksLast(c, s, n);
      PlaysClocks(c, s, n - 1, all);
      PlaysNext(c, s, n - 1, all);
    } else {
      NothingYet(c, s, Clocks(c, s, all).fetches);
    }
  }

  lemma ClocksLast(c: Config, s: Dmc, n: nat)
    requires c.Valid() && s.Valid() && n > 0
    ensures Clocks(c, s, n) == BitClock(c, Clocks(c, s, n - 1))
  {
  }

  lemma NothingYet(c: Config, s: Dmc, fetched: seq<nat>)
    requires Playing(s) >= -1 && (!s.silence ==> Playing(s) >= 0) && |s.fetches| <= |fetched| && c.Valid() && s.Valid()
    ensures Clocks(c, s, 0) == s
    ensures s.dac == DacAfter(c, s, fetched, 0) && s.steps == StepsAfter(c, s, fetched, 0)
  {
  }

  lemma PlaysNext(c: Config, s: Dmc, n: nat, all: nat)
    requires c.Valid() && c.output && s.Valid() && Holds(c, s) && n < all
    requires Playing(s) >= -1 && (!s.silence ==> Playing(s) >= 0) && |s.fetches| <= |Clocks(c, s, all).fetches|
    requires var t, fetched := Clocks(c, s, n), Clocks(c, s, all).fetches;
             t.dac == DacAfter(c, s, fetched, n) && t.steps == StepsAfter(c, s, fetched, n)
    ensures var u, fetched := BitClock(c, Clocks(c, s, n)), Clocks(c, s, all).fetches;
            u.dac == DacAfter(c, s, fetched, n + 1) && u.steps == StepsAfter(c, s, fetched, n + 1)
  {
    hide BitClock, Holds, Tracks, Audible, Dry, Pow2, DacAfter, StepsAfter, InReach, Clocks;
    var t, fetched := Clocks(c, s, n), Clocks(c, s, all).fetches;
    TracksAll(c, s, n);
    FetchedLater(c, s, n, all);
    TracksTime(c, s, n, t);
    BitIsHeard(c, s, n, t, fetched);
    HoldsPlaying(c, t);
    BitMoves(c, t);
    DacNext(c, s, fetched, n, t, BitClock(c, t));
  }

  lemma TracksTime(c: Config, s: Dmc, n: nat, t: Dmc)
    requires Tracks(c, s, n, t)
    ensures t.Valid() && Holds(c, t) && t.time == s.time + n * c.period
  {
  }

  /** From any reachable state and for any run: the DAC has gone through the bits of the bytes fetched, in the
      order fetched and lowest bit first, one every period, and every move of it has been heard. */
  lemma PlaysItsBytes(c: Config, s: Dmc, end: int)
    requires c.Valid() && c.output && s.Valid() && Holds(c, s)
    ensures Playing(s) >= -1 && (!s.silence ==> Playing(s) >= 0)
    ensures var t, n := RunTo(c, s, end), Due(c, s, end);
      && |s.fetches| <= |t.fetches|
      && t.dac == DacAfter(c, s, t.fetches, n)
      && t.steps == StepsAfter(c, s, t.fetches, n)
  {
    hide RunTo, Clocks, Holds, DacAfter, StepsAfter;
    var n := Due(c, s, end);
    HoldsPlaying(c, s);
    RunIsClocks(c, s, end);
    FetchedLater(c, s, 0, n);
    NoClocks(c, s);
    PlaysClocks(c, s, n, n);
  }

  // ---------------------------------------------------------------- which bytes those are

  /** Where the i-th byte fetched from s on is: the rest of the sample, and then, if it loops, the whole
      sample over and over. */
  function AddressOf(c: Config, s: Dmc, i: nat): nat {
    0x8000 + if i < s.lengthCounter then (s.address + i) % 0x8000
             else (0x4000 + 0x40 * c.startReg + (i - s.lengthCounter) % (0x10 * c.lengthReg + 1)) % 0x8000
  }

  function SampleLength(c: Config): (length: nat)
    ensures length > 0
  {
    0x10 * c.lengthReg + 1
  }

  /** Bytes of the sample passed since its last start, after n bytes of a loop. */
  function Round(c: Config, n: nat): nat {
    n % SampleLength(c)
  }

  lemma RoundNext(c: Config, n: nat)
    ensures Round(c, 0) == 0
    ensures Round(c, n) < SampleLength(c)
    ensures Round(c, n + 1) == if Round(c, n) + 1 == SampleLength(c) then 0 else Round(c, n) + 1
  {
    ModNext(n, SampleLength(c));
    ModIs(0, SampleLength(c), 0);
  }

  /** What is left of the sample, and where, after i bytes from s on. */
  ghost predicate Left(c: Config, s: Dmc, i: nat, lengthCounter: nat, address: nat) {
    if i < s.lengthCounter then lengthCounter == s.lengthCounter - i && address == (s.address + i) % 0x8000
    else if !c.loop || s.lengthCounter == 0 then lengthCounter == 0 && i == s.lengthCounter
    else
      var round := Round(c, i - s.lengthCounter);
      lengthCounter == SampleLength(c) - round && address == (0x4000 + 0x40 * c.startReg + round) % 0x8000
  }

  /** t is on its way through the sample from s on. */
  ghost predicate Fetching(c: Config, s: Dmc, t: Dmc) {
    && s.fetches <= t.fetches
    && (forall i: nat :: i < |t.fetches| - |s.fetches| ==> t.fetches[|s.fetches| + i] == AddressOf(c, s, i))
    && Left(c, s, |t.fetches| - |s.fetches|, t.lengthCounter, t.address)
  }

  lemma AddressNext(a: nat, i: nat)
    ensures ((a + i) % 0x8000 + 1) % 0x8000 == (a + (i + 1)) % 0x8000
  {
    ModNext(a + i, 0x8000);
  }

  /** From t to u the byte at t's address is fetched. */
  ghost predicate Fetched(c: Config, t: Dmc, u: Dmc) {
    && t.lengthCounter > 0 && u.fetches == t.fetches + [0x8000 + t.address]
    && if t.lengthCounter > 1 then u.lengthCounter == t.lengthCounter - 1 && u.address == (t.address + 1) % 0x8000
       else if c.loop then u.lengthCounter == SampleLength(c) && u.address == 0x4000 + 0x40 * c.startReg
       else u.lengthCounter == 0
  }

  /** What one bit clock does to the sample: nothing, or the next byte is fetched. */
  lemma FetchStep(c: Config, t: Dmc)
    requires c.Valid() && t.Valid()
    ensures var u := BitClock(c, t);
      if u.fetches == t.fetches then u.lengthCounter == t.lengthCounter && u.address == t.address
      else Fetched(c, t, u)
  {
    hide Fetch, ShiftOut;
    ShiftKeeps(t);
    var v := ShiftOut(t).(bitsRemain := 8, silence := !c.output, bits := t.buf, bufFull := false,
                          time := t.time + c.period);
    FetchFacts(c, v);
  }

  lemma AddressIs(c: Config, s: Dmc, i: nat)
    ensures AddressOf(c, s, i)
            == 0x8000 + if i < s.lengthCounter then (s.address + i) % 0x8000
                        else (0x4000 + 0x40 * c.startReg + Round(c, i - s.lengthCounter)) % 0x8000
  {
  }

  lemma LeftNext(c: Config, s: Dmc, i: nat, t: Dmc, u: Dmc)
    requires c.Valid() && Left(c, s, i, t.lengthCounter, t.address) && Fetched(c, t, u)
    ensures 0x8000 + t.address == AddressOf(c, s, i) && Left(c, s, i + 1, u.lengthCounter, u.address)
  {
    hide Round, SampleLength, AddressOf;
    AddressIs(c, s, i);
    if i < s.lengthCounter {
      AddressNext(s.address, i);
      RoundNext(c, 0);
    } else {
      RoundNext(c, i - s.lengthCounter);
      AddressNext(0x4000 + 0x40 * c.startReg, Round(c, i - s.lengthCounter));
    }
  }

  lemma FetchingNext(c: Config, s: Dmc, t: Dmc, u: Dmc)
    requires c.Valid() && Fetching(c, s, t) && Fetched(c, t, u)
    ensures Fetching(c, s, u)
  {
    hide AddressOf, Left;
    var i := |t.fetches| - |s.fetches|;
    LeftNext(c, s, i, t, u);
    forall j: nat | j < |u.fetches| - |s.fetches|
      ensures u.fetches[|s.fetches| + j] == AddressOf(c, s, j)
    {
      if j < i {
        assert t.fetches[|s.fetches| + j] == AddressOf(c, s, j);
      }
    }
  }

  lemma FetchingSame(c: Config, s: Dmc, t: Dmc, u: Dmc)
    requires Fetching(c, s, t)
    requires u.fetches == t.fetches && u.lengthCounter == t.lengthCounter && u.address == t.address
    ensures Fetching(c, s, u)
  {
  }

  lemma {:induction false} FetchesInOrder(c: Config, s: Dmc, n: nat)
    requires c.Valid() && s.Valid()
    ensures Fetching(c, s, Clocks(c, s, n))
  {
    if n > 0 {
      hide BitClock, Fetching, Clocks;
      FetchesInOrder(c, s, n - 1);
      ClocksLast(c, s, n);
      var t := Clocks(c, s, n - 1);
      FetchStep(c, t);
      if BitClock(c, t).fetches == t.fetches {
        FetchingSame(c, s, t, BitClock(c, t));
      } else {
        FetchingNext(c, s, t, BitClock(c, t));
      }
    }
  }

  /** The bytes fetched in any run: the rest of the sample in order, and when it loops the whole sample again
      and again; without looping no more than what was left of it. */
  lemma FetchesSample(c: Config, s: Dmc, end: int)
    requires c.Valid() && s.Valid()
    ensures var t := RunTo(c, s, end);
      && s.fetches <= t.fetches
      && (forall i: nat :: i < |t.fetches| - |s.fetches| ==> t.fetches[|s.fetches| + i] == AddressOf(c, s, i))
      && (!c.loop || s.lengthCounter == 0 ==> |t.fetches| - |s.fetches| == s.lengthCounter - t.lengthCounter)
  {
    hide RunTo, BitClock, Clocks;
    RunIsClocks(c, s, end);
    FetchesInOrder(c, s, Due(c, s, end));
  }

  // ---------------------------------------------------------------- a sample from its start

  /** From number start on, the bytes fetched are those of the sample in order, over and over if it loops. */
  ghost predicate IsSample(c: Config, fetched: seq<nat>, start: nat) {
    forall k: nat :: start <= k < |fetched| ==> fetched[k] == SampleAddress(c, k - start)
  }

  /** Where byte i of a sample that loops for ever is. */
  function SampleAddress(c: Config, i: nat): nat {
    0x8000 + (0x4000 + 0x40 * c.startReg + i % (0x10 * c.lengthReg + 1)) % 0x8000
  }

  /** Bit m of a sample that loops for ever: bit m mod 8, from the lowest, of byte m div 8. */
  function SampleBit(c: Config, m: nat): int {
    c.prgReader(SampleAddress(c, m / 8)) / Pow2(m % 8) % 2
  }

  /** The DAC after the first m bits of a sample. */
  function Walk(c: Config, dac: int, m: nat): int {
    if m == 0 then dac
    else
      var before := Walk(c, dac, m - 1);
      var moved := if SampleBit(c, m - 1) == 1 then before + 2 else before - 2;
      if 0 <= moved <= 127 then moved else before
  }

  /** Its moves, the first bit being due at the given time. */
  function WalkSteps(c: Config, dac: int, first: int, m: nat): seq<(int, int)> {
    if m == 0 then []
    else
      WalkSteps(c, dac, first, m - 1)
      + if Walk(c, dac, m) == Walk(c, dac, m - 1) then []
        else [(first + (m - 1) * c.period, Walk(c, dac, m) - Walk(c, dac, m - 1))]
  }

  /** Bits of the sample among the first n bit clocks: none before the byte begun before is over, and no more
      than the bytes fetched have. */
  function BitsOut(wait: nat, bytes: nat, n: nat): nat {
    if n <= wait then 0 else if n - wait <= 8 * bytes then n - wait else 8 * bytes
  }

  /** What start does when nothing is buffered: the first byte is fetched, and the rest of the sample is what
      is left, or all of it if it has one byte and loops. */
  lemma RestartIs(c: Config, s: Dmc)
    requires c.Valid() && s.Valid() && Holds(c, s) && s.silence && !s.bufFull
    ensures var u := Restarted(c, s);
      && u.Valid() && Holds(c, u) && u.time == s.time && u.bitsRemain == s.bitsRemain && u.dac == s.dac
      && u.steps == s.steps && u.silence && u.bufFull && Playing(u) == |s.fetches| - 1
      && u.fetches == s.fetches + [SampleAddress(c, 0)]
      && forall i: nat :: AddressOf(c, u, i) == SampleAddress(c, i + 1) || (!c.loop && i >= u.lengthCounter)
  {
    RestartFacts(c, s);
    FirstAddress(c);
    hide AddressOf, SampleAddress;
    var u, length := Restarted(c, s), 0x10 * c.lengthReg + 1;
    forall i: nat | c.loop || i < u.lengthCounter
      ensures AddressOf(c, u, i) == SampleAddress(c, i + 1)
    {
      RestartAddress(c, s, i);
    }
  }

  lemma FirstAddress(c: Config)
    ensures SampleAddress(c, 0) == 0x8000 + (0x4000 + 0x40 * c.startReg) % 0x8000
  {
    ModIs(0, 0x10 * c.lengthReg + 1, 0);
  }

  lemma RestartAddress(c: Config, s: Dmc, i: nat)
    requires c.Valid() && s.Valid() && !s.bufFull && (c.loop || i < Restarted(c, s).lengthCounter)
    ensures AddressOf(c, Restarted(c, s), i) == SampleAddress(c, i + 1)
  {
    hide SampleLength, AddressOf, SampleAddress, Restarted, Round;
    var u, at := Restarted(c, s), 0x4000 + 0x40 * c.startReg;
    RestartLeft(c, s);
    AddressIs(c, u, i);
    SampleAddressIs(c, i + 1);
    RoundStart(c, i + 1);
  }

  /** A restart leaves the sample behind its first byte, or the whole of it if that was all. */
  lemma RestartLeft(c: Config, s: Dmc)
    requires c.Valid() && !s.bufFull
    ensures var u, at, length := Restarted(c, s), 0x4000 + 0x40 * c.startReg, SampleLength(c);
      && (length > 1 ==> u.lengthCounter == length - 1 && u.address == (at + 1) % 0x8000)
      && (length == 1 ==> u.lengthCounter == (if c.loop then 1 else 0) && (c.loop ==> u.address == at))
  {
    hide PredictedIrq;
  }

  lemma SampleAddressIs(c: Config, i: nat)
    ensures SampleAddress(c, i) == 0x8000 + (0x4000 + 0x40 * c.startReg + Round(c, i)) % 0x8000
  {
  }

  lemma RoundStart(c: Config, i: nat)
    ensures i < SampleLength(c) ==> Round(c, i) == i
    ensures i >= SampleLength(c) ==> Round(c, i) == Round(c, i - SampleLength(c))
    ensures SampleLength(c) == 1 ==> forall j: nat :: Round(c, j) == 0
  {
    if i < SampleLength(c) {
      ModIs(i, SampleLength(c), 0);
    } else {
      ModShift(i - SampleLength(c), 1, SampleLength(c));
    }
  }

  lemma SampleWalkNext(c: Config, dac: int, first: int, m: nat)
    ensures var before := Walk(c, dac, m);
            var moved := if SampleBit(c, m) == 1 then before + 2 else before - 2;
            && Walk(c, dac, m + 1) == (if 0 <= moved <= 127 then moved else before)
            && WalkSteps(c, dac, first, m + 1)
               == WalkSteps(c, dac, first, m) + if Walk(c, dac, m + 1) == before then []
                                                else [(first + m * c.period, Walk(c, dac, m + 1) - before)]
  {
  }

  /** Which bits are due: those of byte i begin 8 i bit clocks after the byte begun before the start is over. */
  lemma BitPlace(u: Dmc, n: nat, bytes: nat)
    requires u.Valid() && u.silence && Playing(u) >= -1
    ensures var wait := u.bitsRemain;
      && Audible(u, Playing(u) + 1 + bytes, n) == (n >= wait && n - wait < 8 * bytes)
      && (n >= wait ==> ByteAt(u, n) == Playing(u) + 1 + (n - wait) / 8 && (Place(u) + n) % 8 == (n - wait) % 8)
      && BitsOut(wait, bytes, n + 1) == BitsOut(wait, bytes, n) + (if n >= wait && n - wait < 8 * bytes then 1 else 0)
      && (n >= wait && n - wait < 8 * bytes ==> BitsOut(wait, bytes, n) == n - wait)
  {
    if n >= u.bitsRemain {
      DivShift(n - u.bitsRemain, 1, 8);
    }
  }

  lemma {:induction false} SampleClocks(c: Config, s: Dmc, fetched: seq<nat>, n: nat)
    requires c.Valid() && s.Valid() && Holds(c, s) && s.silence && !s.bufFull
    requires Restarted(c, s).fetches <= fetched
    requires IsSample(c, fetched, |s.fetches|)
    requires var u := Restarted(c, s);
             u.silence && u.Valid() && Playing(u) == |s.fetches| - 1 && |s.fetches| < |u.fetches|
             && u.time == s.time && u.bitsRemain == s.bitsRemain && u.dac == s.dac && u.steps == s.steps
    ensures var u, m := Restarted(c, s), BitsOut(s.bitsRemain, |fetched| - |s.fetches|, n);
            && DacAfter(c, u, fetched, n) == Walk(c, s.dac, m)
            && StepsAfter(c, u, fetched, n)
               == s.steps + WalkSteps(c, s.dac, s.time + s.bitsRemain * c.period, m)
  {
    hide Restarted, Pow2, Holds, DacAfter, StepsAfter, Walk, WalkSteps, BitsOut;
    var bytes, first := |fetched| - |s.fetches|, s.time + s.bitsRemain * c.period;
    if n > 0 {
      SampleClocks(c, s, fetched, n - 1);
      SampleClock(c, s, Restarted(c, s), fetched, n - 1);
    } else {
      NoBits(c, s.dac, first, s.bitsRemain, bytes);
      NothingYet(c, Restarted(c, s), fetched);
    }
  }

  lemma DacClock(c: Config, s: Dmc, fetched: seq<nat>, n: nat)
    requires Playing(s) >= -1 && (!s.silence ==> Playing(s) >= 0) && |s.fetches| <= |fetched| && s.Valid()
    ensures var from, to := DacAfter(c, s, fetched, n), DacAfter(c, s, fetched, n + 1);
      && StepsAfter(c, s, fetched, n + 1)
         == StepsAfter(c, s, fetched, n) + (if from == to then [] else [(s.time + n * c.period, to - from)])
      && if Audible(s, |fetched|, n) then
           && 0 <= ByteAt(s, n) < |fetched|
           && var byte := c.prgReader(fetched[ByteAt(s, n)]);
              var moved := if byte / Pow2((Place(s) + n) % 8) % 2 == 1 then from + 2 else from - 2;
              to == if 0 <= moved <= 127 then moved else from
         else to == from
  {
    hide Pow2;
  }

  /** One more bit clock of it. */
  lemma SampleClock(c: Config, s: Dmc, u: Dmc, fetched: seq<nat>, n: nat)
    requires c.Valid() && u.Valid() && |s.fetches| < |u.fetches| <= |fetched| && IsSample(c, fetched, |s.fetches|)
    requires u.silence && Playing(u) == |s.fetches| - 1 && u.time == s.time && u.bitsRemain == s.bitsRemain
    requires var m := BitsOut(s.bitsRemain, |fetched| - |s.fetches|, n);
             && DacAfter(c, u, fetched, n) == Walk(c, s.dac, m)
             && StepsAfter(c, u, fetched, n) == s.steps + WalkSteps(c, s.dac, s.time + s.bitsRemain * c.period, m)
    ensures var m := BitsOut(s.bitsRemain, |fetched| - |s.fetches|, n + 1);
            && DacAfter(c, u, fetched, n + 1) == Walk(c, s.dac, m)
            && StepsAfter(c, u, fetched, n + 1) == s.steps + WalkSteps(c, s.dac, s.time + s.bitsRemain * c.period, m)
  {
    hide Pow2, SampleBit, Audible, ByteAt, Place, Playing, Walk, WalkSteps, BitsOut, DacAfter, StepsAfter;
    DacClock(c, u, fetched, n);
    var bytes, wait := |fetched| - |s.fetches|, s.bitsRemain;
    BitPlace(u, n, bytes);
    var m := BitsOut(wait, bytes, n);
    SampleWalkNext(c, s.dac, s.time + wait * c.period, m);
    if Audible(u, |fetched|, n) {
      BitOfSample(c, s, fetched, m);
      assert (wait + m) * c.period == wait * c.period + m * c.period;
    }
  }

  lemma NoBits(c: Config, dac: int, first: int, wait: nat, bytes: nat)
    ensures BitsOut(wait, bytes, 0) == 0 && Walk(c, dac, 0) == dac && WalkSteps(c, dac, first, 0) == []
  {
  }

  lemma BitOfSample(c: Config, s: Dmc, fetched: seq<nat>, m: nat)
    requires |s.fetches| + m / 8 < |fetched|
    requires IsSample(c, fetched, |s.fetches|)
    ensures SampleBit(c, m) == c.prgReader(fetched[|s.fetches| + m / 8]) / Pow2(m % 8) % 2
  {
    hide Pow2;
    var k: nat := |s.fetches| + m / 8;
    assert fetched[k] == SampleAddress(c, k - |s.fetches|);
  }

  /** The channel plays its sample: started with nothing buffered, a run of any length puts out, once the
      byte period begun before is over, the bits of the sample's bytes one a period, of every byte fetched
      so far; the fetches are the sample's addresses in order. */
  lemma SampleIsHeard(c: Config, s: Dmc, end: int)
    requires c.Valid() && c.output && s.Valid() && Holds(c, s) && s.silence && !s.bufFull
    ensures Restarted(c, s).Valid()
    ensures var t := RunTo(c, Restarted(c, s), end);
      && s.fetches <= t.fetches
      && IsSample(c, t.fetches, |s.fetches|)
      && var m := BitsOut(s.bitsRemain, |t.fetches| - |s.fetches|, Due(c, s, end));
         && t.dac == Walk(c, s.dac, m)
         && t.steps == s.steps + WalkSteps(c, s.dac, s.time + s.bitsRemain * c.period, m)
  {
    hide RunTo, Restarted, Holds, AddressOf, SampleAddress, DacAfter, StepsAfter, Walk, WalkSteps;
    RestartIs(c, s);
    var u := Restarted(c, s);
    FetchesSample(c, u, end);
    PlaysItsBytes(c, u, end);
    var t := RunTo(c, u, end);
    AllFetched(c, s, u, t);
    SampleClocks(c, s, t.fetches, Due(c, u, end));
  }

  lemma AllFetched(c: Config, s: Dmc, u: Dmc, t: Dmc)
    requires c.Valid() && u.fetches == s.fetches + [SampleAddress(c, 0)]
    requires u.fetches <= t.fetches
    requires forall i: nat :: i < |t.fetches| - |u.fetches| ==> t.fetches[|u.fetches| + i] == AddressOf(c, u, i)
    requires !c.loop || u.lengthCounter == 0 ==> |t.fetches| - |u.fetches| == u.lengthCounter - t.lengthCounter
    requires forall i: nat :: AddressOf(c, u, i) == SampleAddress(c, i + 1) || (!c.loop && i >= u.lengthCounter)
    ensures IsSample(c, t.fetches, |s.fetches|)
  {
    hide AddressOf, SampleAddress;
    forall k: nat | |s.fetches| <= k < |t.fetches|
      ensures t.fetches[k] == SampleAddress(c, k - |s.fetches|)
    {
      if k == |s.fetches| {
        assert t.fetches[k] == u.fetches[k];
      } else {
        var i: nat := k - |s.fetches| - 1;
        assert t.fetches[|u.fetches| + i] == AddressOf(c, u, i);
      }
    }
  }

  /** A state that is run with the output at its level emits no step of its own first. */
  lemma NoFirstStep(c: Config, s: Dmc, start: int)
    requires c.output
    ensures Started(c, s, start, s.dac) == s
  {
  }

  lemma SilentHolds(c: Config, s: Dmc)
    requires s.silence && !s.bufFull
    ensures Holds(c, s)
  {
  }

  lemma Stopped(c: Config, s: Dmc, end: int)
    requires c.Valid() && s.Valid() && s.time >= end
    ensures RunTo(c, s, end) == s
  {
  }

  /** From reset: rate, sample and enable registers are written, and the channel is run up to a number of
      times one after the other. What it fetches are the sample's addresses, and what it puts out are the
      sample's bits from the second bit clock on, wherever it stopped on the way. */
  method PlaySample(prgReader: nat -> int, palMode: bool, rate: nat, startReg: nat, lengthReg: nat, ends: seq<nat>)
    returns (apu: Apu)
    requires rate < 0x100 && startReg < 0x100 && lengthReg < 0x100
    requires forall i, j :: 0 <= i <= j < |ends| ==> ends[i] <= ends[j]
    ensures apu.Valid() && apu.regs.prgReader == prgReader && apu.regs.output && apu.lastAmp == apu.dac
    ensures apu.regs.startReg == startReg && apu.regs.lengthReg == lengthReg
    ensures IsSample(apu.regs, apu.fetches, 0)
    ensures var c, end := apu.regs, if ends == [] then 0 else ends[|ends| - 1];
      var m := BitsOut(1, |apu.fetches|, if end == 0 then 0 else Periods(0, end, c.period));
      apu.dac == Walk(c, 0, m) && apu.steps == WalkSteps(c, 0, c.period, m)
  {
    hide RunTo, Restarted, Holds, Walk, WalkSteps, IsSample, Started, BitsOut, PeriodTable, PredictedIrq;
    apu := new Apu.Reset(prgReader, palMode, true);
    apu.WriteRate(rate);
    apu.WriteSample(startReg, lengthReg);
    ghost var c := apu.regs;
    ghost var s := apu.State().(irqFlag := false, enabled := true);
    apu.WriteEnable(true);
    ghost var u := Restarted(c, s);
    SilentHolds(c, s);
    RestartIs(c, s);
    Stopped(c, u, 0);
    ghost var end := 0;
    for i := 0 to |ends|
      invariant apu.Valid() && apu.regs == c && fresh(apu) && apu.lastAmp == apu.dac
      invariant apu.lastDmcTime == end == if i == 0 then 0 else ends[i - 1]
      invariant apu.State() == RunTo(c, u, end)
    {
      NoFirstStep(c, apu.State(), apu.lastDmcTime);
      RunSplit(c, u, end, ends[i]);
      apu.RunUntil(ends[i]);
      end := ends[i];
    }
    SampleIsHeard(c, s, end);
  }
}
