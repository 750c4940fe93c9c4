/** Music_Emu's silence look-ahead: a read-ahead cache over an emulator, with a count of silent
    samples still to be played out, a block of real samples waiting behind them, and three clocks. */
module MusicEmu {
  import opened Arith
  import opened Fade

  const BUF_SIZE: nat := 2048
  const STEREO: nat := 2
  const SILENCE_MAX: nat := 6         // seconds
  const SILENCE_THRESHOLD: int := 0x10
  const FADE_BLOCK: nat := 512

  type Sample = x: int | -0x8000 <= x <= 0x7FFF

  /** An emulator: its raw output, and whether it has reported the end of the track, or an error, by
      the time it has produced the given number of samples. */
  datatype Emulator = Emulator(raw: nat -> Sample, ended: nat -> bool)

  // ---------------------------------------------------------------- what may be heard

  /** The look-ahead judges a block silent without looking at its first sample. */
  ghost predicate SilentBlock(raw: nat -> Sample, b: nat) {
    forall j: nat :: b < j < b + 2048 ==> -8 <= raw(j) <= 8
  }

  ghost predicate InSilentBlock(raw: nat -> Sample, p: nat) {
    exists b: nat :: SilentBlock(raw, b) && b <= p < b + 2048
  }

  ghost predicate AllSilent(raw: nat -> Sample, from: nat, to: int) {
    forall p: nat :: from <= p < to ==> InSilentBlock(raw, p)
  }

  lemma SilentOn(raw: nat -> Sample, from: nat, b: nat)
    requires AllSilent(raw, from, b) && SilentBlock(raw, b)
    ensures AllSilent(raw, from, b + 2048)
  {
  }

  /** What may be heard for raw position p. */
  ghost predicate Faithful(raw: nat -> Sample, p: nat, heard: int) {
    heard == raw(p) || (heard == 0 && InSilentBlock(raw, p))
  }

  /** Samples skipped at the start of a track: silent blocks, up to the first one reaching end. */
  ghost function InitialSilence(emu: Emulator, end: nat, pos: nat): nat
    decreases end - pos
  {
    if pos >= end || !SilentBlock(emu.raw, pos) then pos
    else if emu.ended(pos + 2048) then pos + 2048
    else InitialSilence(emu, end, pos + 2048)
  }

  /** Nothing but silence is skipped. */
  lemma {:induction false} OnlySilenceSkipped(emu: Emulator, end: nat, pos: nat)
    ensures var p := InitialSilence(emu, end, pos); pos <= p && (p == pos || p < end + 2048)
    ensures forall p: nat :: pos <= p < InitialSilence(emu, end, pos) ==> InSilentBlock(emu.raw, p)
    decreases end - pos
  {
    if pos < end && SilentBlock(emu.raw, pos) && !emu.ended(pos + 2048) {
      OnlySilenceSkipped(emu, end, pos + 2048);
    }
  }

  // ---------------------------------------------------------------- silence detection

  /** (unsigned) (x + threshold / 2) <= (unsigned) threshold */
  predicate Quiet(x: Sample) {
    UInt32(x + SILENCE_THRESHOLD / 2) <= SILENCE_THRESHOLD
  }

  predicate Loud(x: Sample) {
    !(-8 <= x <= 8)
  }

  lemma QuietIs(x: Sample)
    ensures Quiet(x) <==> -8 <= x <= 8
  {
  }

  /** Number of samples from the last loud one to the end; the first sample counts as loud. */
  method CountSilence(a: array<Sample>, begin: nat, size: nat) returns (silence: nat)
    requires 0 < size && begin + size <= a.Length
    modifies a
    ensures forall i :: 0 <= i < a.Length ==> a[i] == old(a[i])
    ensures 1 <= silence <= size
    ensures forall i :: begin + size - silence < i < begin + size ==> -8 <= a[i] <= 8
    ensures silence < size ==> !(-8 <= a[begin + size - silence] <= 8)
  {
    var first := a[begin];
    a[begin] := SILENCE_THRESHOLD;     // sentinel
    var p := begin + size - 1;
    while Quiet(a[p])
      invariant begin <= p < begin + size
      invariant a[begin] == SILENCE_THRESHOLD
      invariant forall i :: 0 <= i < a.Length && i != begin ==> a[i] == old(a[i])
      invariant forall i :: p < i < begin + size ==> -8 <= a[i] <= 8
      decreases p
    {
      p := p - 1;
    }
    QuietIs(a[p]);
    a[begin] := first;
    silence := size - (p - begin);
  }

  ghost predicate Within(from: nat, p: nat, to: nat) {
    from <= p < to
  }

  ghost predicate StartsBlock(from: nat, p: nat, to: nat) {
    from <= p < to && (p - from) % 2048 == 0
  }

  ghost function Stretch(from: nat, to: nat): iset<nat> {
    iset p: nat | Within(from, p, to)
  }

  /** The first position of each block, for blocks read one after the other. */
  ghost function Starts(from: nat, to: nat): iset<nat> {
    iset p: nat | StartsBlock(from, p, to)
  }

  lemma NoStarts(from: nat)
    ensures Starts(from, from) == Stretch(from, from) == iset{}
  {
  }

  lemma NextStart(from: nat, to: nat)
    requires from <= to && (to - from) % 2048 == 0
    ensures Starts(from, to + 2048) == Starts(from, to) + iset{to}
    ensures (to + 2048 - from) % 2048 == 0
  {
  }

  /** What is left of n after taking k, or all of it if there is less. */
  function Less(n: nat, k: nat): nat {
    if n > k then n - k else 0
  }

  function Max(a: int, b: int): (m: int)
    ensures m >= a && m >= b && (m == a || m == b)
  {
    if a > b then a else b
  }

  /** Start of the fade block that holds the k-th sample of a call. */
  function BlockStart(k: nat): nat {
    k / 512 * 512
  }

  lemma AheadBound(l: nat, e: int, t: int, s: int, limit: nat)
    requires l > 0 && e - s > limit && e - s >= l * (t - s)
    ensures e >= t && l * (e - t) >= (l - 1) * (e - s)
    ensures l > 1 ==> l * (e - t) > (l - 1) * limit
  {
    assert l * (e - t) == l * (e - s) - l * (t - s);
    assert (l - 1) * (e - s) == l * (e - s) - (e - s);
    if t > s {
      MulMono(1, l, t - s);
    }
    if l > 1 {
      MulMono(limit + 1, e - s, l - 1);
      assert (limit + 1) * (l - 1) == limit * (l - 1) + (l - 1);
    }
  }

  class Player {
    const emu: Emulator
    const sampleRate: nat
    const maxInitialSilence: nat    // seconds
    const silenceLookahead: nat
    const ignoreSilence: bool
    const buf: array<Sample>

    var played: nat                 // samples the emulator has produced since the track was started
    var outTime: nat                // samples handed out since the start of the track
    var emuTime: nat                // samples the emulator has produced for them
    var emuTrackEnded: bool
    var trackEnded: bool
    var fadeStart: int
    var fadeStep: nat
    var silenceTime: int            // where the most recent silence began
    var silenceCount: nat           // silent samples to be played before buf
    var bufRemain: nat              // samples left in buf
    ghost var base: nat             // raw position of output sample 0
    ghost var missed: iset<nat>     // raw positions not examined for sound

    /** The clock identity and what the cache holds, while the track lasts. */
    ghost predicate Valid()
      reads this, buf
    {
      ValidAt(outTime)
    }

    /** The same with now samples handed out. */
    ghost predicate ValidAt(now: nat)
      reads this`played, this`emuTrackEnded, this`emuTime, this`silenceTime, this`bufRemain, this`silenceCount,
            this`trackEnded, this`base, this`missed, this`fadeStep, buf
    {
      && buf.Length == BUF_SIZE && sampleRate > 0 && silenceLookahead > 0 && fadeStep > 0 && silenceTime <= emuTime
      && bufRemain <= BUF_SIZE && (trackEnded ==> emuTrackEnded)
      && (!trackEnded ==> Lasts(now))
    }

    ghost predicate Lasts(now: nat)
      requires buf.Length == BUF_SIZE && bufRemain <= BUF_SIZE
      reads this`played, this`emuTrackEnded, this`emuTime, this`silenceTime, this`bufRemain, this`silenceCount,
            this`base, this`missed, buf
    {
      && (emuTrackEnded ==> emu.ended(played))
      && (bufRemain > 0 ==> emuTime - silenceTime <= BUF_SIZE)
      && emuTime == now + silenceCount + bufRemain
      && played == base + emuTime
      && NotesLastSound()
      && AllSilent(emu.raw, base + now, base + now + silenceCount)
      && BufHolds()
    }

    ghost predicate BufHolds()
      requires buf.Length == BUF_SIZE && bufRemain <= BUF_SIZE && bufRemain <= played
      reads this`played, this`bufRemain, buf
    {
      forall i: nat :: BUF_SIZE - bufRemain <= i < BUF_SIZE ==> buf[i] == emu.raw(played + i - BUF_SIZE)
    }

    /** silenceTime is the last loud sample of those examined, or 0 if there was none. */
    ghost predicate NotesLastSound()
      reads this`played, this`silenceTime, this`base, this`missed
    {
      Noted(base, silenceTime, played, missed)
    }

    /** Time t after from is that of the last loud sample before raw position end, as far as examined. */
    ghost predicate Noted(from: nat, t: int, end: nat, missed: iset<nat>) {
      && t >= 0
      && (t > 0 ==> from + t < end && Loud(emu.raw(from + t)))
      && forall p: nat :: from + t < p < end && p !in missed ==> !Loud(emu.raw(p))
    }

    /** The last loud sample of a stretch, its first one apart, is number k. */
    ghost predicate LastLoud(from: nat, size: nat, k: int) {
      0 < k < size && Loud(emu.raw(from + k)) && forall p: nat :: from + k < p < from + size ==> !Loud(emu.raw(p))
    }

    ghost predicate QuietStretch(from: nat, size: nat) {
      forall p: nat :: from < p < from + size ==> !Loud(emu.raw(p))
    }

    /** What CountSilence finds out about a stretch of the emulator's output. */
    lemma Examined(from: nat, a: array<Sample>, begin: nat, size: nat, silence: nat)
      requires begin + size <= a.Length && 1 <= silence <= size
      requires forall i: nat :: begin <= i < begin + size ==> a[i] == emu.raw(from + (i - begin))
      requires forall i :: begin + size - silence < i < begin + size ==> -8 <= a[i] <= 8
      requires silence < size ==> !(-8 <= a[begin + size - silence] <= 8)
      ensures if silence == size then QuietStretch(from, size) else LastLoud(from, size, size - silence)
      ensures size == 2048 ==> (silence == size <==> SilentBlock(emu.raw, from))
    {
      forall p: nat | from + size - silence < p < from + size
        ensures !Loud(emu.raw(p))
      {
        assert a[begin + (p - from)] == emu.raw(p);
      }
    }

    /** The note stays right over a stretch examined but for its first sample. */
    lemma NotedOn(b: nat, t: int, from: nat, size: nat, missed: iset<nat>, next: int)
      requires Noted(b, t, from, missed) && size > 0
      requires (next == t && QuietStretch(from, size)) || (b + t <= from && LastLoud(from, size, b + next - from))
      ensures Noted(b, next, from + size, missed + iset{from})
    {
    }

    /** And over one not examined at all. */
    lemma NotedPast(b: nat, t: int, from: nat, end: nat, missed: iset<nat>)
      requires Noted(b, t, from, missed) && from <= end
      ensures Noted(b, t, end, missed + Stretch(from, end))
    {
    }

    lemma Clocks(now: nat)
      requires ValidAt(now) && !trackEnded
      ensures played == base + emuTime && emuTime == now + silenceCount + bufRemain
      ensures emuTrackEnded ==> emu.ended(played)
    {
    }

    lemma NothingHeld()
      requires buf.Length == BUF_SIZE && bufRemain == 0
      ensures BufHolds()
    {
    }

    /** What it takes for a track to end in a call that hands out samples up to time due, the raw stream
        up to position from having been heard. Either the emulator has ended, or it is far enough ahead
        in silence; and whatever it has produced beyond from is silent. Below 171 samples a second the
        limit is shorter than a block, and then a block read ahead may be lost. */
    ghost predicate Ended(from: nat, due: int)
      reads this`played, this`silenceTime, this`base, this`missed
    {
      && AllSilent(emu.raw, from, played - (if SilenceSpansBlock() then 0 else BUF_SIZE))
      && (emu.ended(played) || SilenceRule(due))
    }

    lemma EndsAt(from: nat, due: int)
      ensures emu.ended(played) && played <= from ==> Ended(from, due)
    {
    }

    /** Length of silence that ends a track. */
    function SilenceLimit(): nat {
      SILENCE_MAX * STEREO * sampleRate
    }

    predicate SilenceSpansBlock() {
      SilenceLimit() >= BUF_SIZE
    }

    /** The emulator is more than the limit past the last sound it was heard to make, and, if the limit
        is longer than a block, at least silenceLookahead times as far past it as what is due. */
    ghost predicate SilenceRule(due: int)
      reads this`played, this`silenceTime, this`base, this`missed
    {
      && NotesLastSound()
      && played - base - silenceTime > SilenceLimit()
      && (SilenceSpansBlock() ==> played - base - silenceTime >= silenceLookahead * (due - silenceTime))
    }

    /** The last n samples of the emulator are all quiet. */
    ghost predicate QuietTail(n: nat)
      reads this`played
    {
      forall p: nat :: played - n <= p < played ==> !Loud(emu.raw(p))
    }

    /** A track that ends by the rule ends with the whole limit of quiet samples, or with any other part
        of what came after the last sound noted, exactly when nothing loud was missed there. */
    lemma RuleExact(due: int, n: nat)
      requires SilenceRule(due) && n < played - base - silenceTime
      ensures n == SilenceLimit() ==> n < played - base - silenceTime
      ensures QuietTail(n) <==> forall p: nat :: played - n <= p < played && p in missed ==> !Loud(emu.raw(p))
    {
      forall p: nat | played - n <= p < played && p !in missed
        ensures !Loud(emu.raw(p))
      {
        assert base + silenceTime < p;
      }
    }

    /** Though the last sound noted may be out of date after a skip, that much silence has really been
        seen ahead of what is due: all but one part in silenceLookahead of the limit. */
    lemma SilenceAhead(from: nat, due: nat)
      requires SilenceSpansBlock() && silenceLookahead > 0
      requires Ended(from, due) && !emu.ended(played) && from == base + due
      ensures silenceLookahead > 1 ==> silenceLookahead * (played - from) > (silenceLookahead - 1) * SilenceLimit()
      ensures played >= from && AllSilent(emu.raw, from, played)
    {
      hide AllSilent, NotesLastSound;
      AheadBound(silenceLookahead, played - base, due, silenceTime, SilenceLimit());
    }

    /** A call that starts at raw position from and ends at output time now passes over the first position
        of each stretch it examines; with detection off, it may pass over all it produces. */
    ghost predicate MissesStarts(before: iset<nat>, from: nat, now: nat, detecting: bool)
      reads this`played, this`base, this`missed
    {
      && before <= missed
      && forall p: nat :: p in missed && p !in before ==>
           from <= p < played && (detecting ==> (p - from) % 2048 == 0 || p == base + now)
    }

    /** A stretch played, up to end, and perhaps a block read after it. */
    lemma MissesPlayed(m: iset<nat>, from: nat, end: nat, now: nat, detecting: bool)
      requires from < end <= played && (end < played ==> end == base + now)
      requires missed == if detecting then m + iset{from} + (if end < played then iset{end} else iset{})
                         else m + Stretch(from, played)
      ensures MissesStarts(m, from, now, detecting)
    {
    }

    lemma MissesNothing(from: nat, now: nat, detecting: bool)
      ensures MissesStarts(missed, from, now, detecting)
    {
    }

    /** Blocks read ahead, and then a stretch played. */
    lemma MissesJoin(m0: iset<nat>, m1: iset<nat>, p0: nat, p1: nat, now: nat, detecting: bool)
      requires p0 <= p1 <= played && (p1 - p0) % 2048 == 0 && m1 == m0 + Starts(p0, p1)
      requires missed == m1 || MissesStarts(m1, p1, now, detecting)
      ensures MissesStarts(m0, p0, now, detecting)
    {
    }

    predicate Detecting()
      reads this`outTime, this`fadeStart
    {
      !ignoreSilence || outTime > fadeStart
    }

    /** The emulator's play_. */
    method EmulatorPlay(count: nat, out: array<Sample>, begin: nat)
      requires begin + count <= out.Length
      modifies this`played, this`emuTrackEnded, out
      ensures played == old(played) + count
      ensures emuTrackEnded == (old(emuTrackEnded) || emu.ended(played))
      ensures forall i :: begin <= i < begin + count ==> out[i] == emu.raw(old(played) + (i - begin))
      ensures forall i :: 0 <= i < begin ==> out[i] == old(out[i])
      ensures forall i :: begin + count <= i < out.Length ==> out[i] == old(out[i])
    {
      for k := 0 to count
        invariant played == old(played) && emuTrackEnded == old(emuTrackEnded)
        invariant forall i :: begin <= i < begin + k ==> out[i] == emu.raw(played + (i - begin))
        invariant forall i :: 0 <= i < begin ==> out[i] == old(out[i])
        invariant forall i :: begin + count <= i < out.Length ==> out[i] == old(out[i])
      {
        out[begin + k] := emu.raw(played + k);
      }
      played := played + count;
      if emu.ended(played) {
        emuTrackEnded := true;
      }
    }

    method Silence(out: array<Sample>, begin: nat, count: nat)
      requires begin + count <= out.Length
      modifies out
      ensures forall i :: begin <= i < begin + count ==> out[i] == 0
      ensures forall i :: 0 <= i < begin ==> out[i] == old(out[i])
      ensures forall i :: begin + count <= i < out.Length ==> out[i] == old(out[i])
    {
      for k := 0 to count
        invariant forall i :: begin <= i < begin + k ==> out[i] == 0
        invariant forall i :: 0 <= i < begin ==> out[i] == old(out[i])
        invariant forall i :: begin + count <= i < out.Length ==> out[i] == old(out[i])
      {
        out[begin + k] := 0;
      }
    }

    method EmuPlay(count: nat, out: array<Sample>, begin: nat)
      requires begin + count <= out.Length
      modifies this`played, this`emuTrackEnded, this`emuTime, out
      ensures emuTime == old(emuTime) + count
      ensures forall i :: 0 <= i < begin ==> out[i] == old(out[i])
      ensures forall i :: begin + count <= i < out.Length ==> out[i] == old(out[i])
      ensures if old(emuTrackEnded)
              then emuTrackEnded && played == old(played)
                   && forall i :: begin <= i < begin + count ==> out[i] == 0
              else played == old(played) + count && emuTrackEnded == emu.ended(played)
                   && forall i :: begin <= i < begin + count ==> out[i] == emu.raw(old(played) + (i - begin))
    {
      emuTime := emuTime + count;
      if !emuTrackEnded {
        EmulatorPlay(count, out, begin);
      } else {
        Silence(out, begin, count);
      }
    }

    lemma BlockHeld(from: nat)
      requires buf.Length == bufRemain == BUF_SIZE && played == from + BUF_SIZE
      requires forall i :: 0 <= i < BUF_SIZE ==> buf[i] == emu.raw(from + i)
      ensures BufHolds()
    {
    }

    /** Reads one block ahead, and either queues it as silence or keeps it. */
    method FillBuf(ghost now: nat)
      requires ValidAt(now) && bufRemain == 0
      modifies this`played, this`emuTrackEnded, this`emuTime, this`silenceTime, this`bufRemain, this`silenceCount,
               this`missed, buf
      ensures trackEnded || !old(emuTrackEnded) ==> ValidAt(now)
      ensures !old(emuTrackEnded) ==>
        && played == old(played) + BUF_SIZE && emuTime == old(emuTime) + BUF_SIZE
        && emuTrackEnded == emu.ended(played)
        && missed == old(missed) + iset{old(played)}
        && (if SilentBlock(emu.raw, old(played))
            then bufRemain == 0 && silenceCount == old(silenceCount) + BUF_SIZE && silenceTime == old(silenceTime)
            else bufRemain == BUF_SIZE && silenceCount == old(silenceCount)
                 && LastLoud(old(played), BUF_SIZE, silenceTime - old(emuTime)))
      ensures old(emuTrackEnded) ==>
        && emuTrackEnded && bufRemain == 0 && silenceCount == old(silenceCount) + BUF_SIZE
        && played == old(played) && emuTime == old(emuTime)
        && silenceTime == old(silenceTime) && missed == old(missed)
    {
      hide Noted, LastLoud, QuietStretch, SilentBlock, AllSilent, BufHolds;
      if !emuTrackEnded {
        ghost var from, before := played, missed;
        EmuPlay(BUF_SIZE, buf, 0);
        missed := missed + iset{from};
        var silence := CountSilence(buf, 0, BUF_SIZE);
        Examined(from, buf, 0, BUF_SIZE, silence);
        if silence < BUF_SIZE {
          silenceTime := emuTime - silence;
          bufRemain := BUF_SIZE;
        }
        if !trackEnded {
          NotedOn(base, old(silenceTime), from, BUF_SIZE, before, silenceTime);
        }
        if silence < BUF_SIZE {
          BlockHeld(from);
          return;
        }
        if !trackEnded {
          SilentOn(emu.raw, base + now, from);
        }
      }
      silenceCount := silenceCount + BUF_SIZE;
      NothingHeld();
    }

    constructor (emu: Emulator, sampleRate: nat, ignoreSilence: bool, maxInitialSilence: nat, silenceLookahead: nat)
      requires sampleRate > 0 && silenceLookahead > 0
      ensures Valid() && trackEnded && fresh(buf)
      ensures this.emu == emu && this.sampleRate == sampleRate && this.ignoreSilence == ignoreSilence
      ensures this.maxInitialSilence == maxInitialSilence && this.silenceLookahead == silenceLookahead
    {
      this.emu, this.sampleRate, this.ignoreSilence := emu, sampleRate, ignoreSilence;
      this.maxInitialSilence, this.silenceLookahead := maxInitialSilence, silenceLookahead;
      buf := new Sample[BUF_SIZE];
      played, outTime, emuTime, emuTrackEnded, trackEnded := 0, 0, 0, true, true;
      fadeStart, fadeStep, silenceTime, silenceCount, bufRemain := 0x4000_0000, 1, 0, 0, 0;
      base, missed := 0, iset{};
    }

    /** Raw position the track starts from: the same however often it is restarted. */
    ghost function StartOfTrack(): nat {
      if ignoreSilence then 0 else InitialSilence(emu, maxInitialSilence * STEREO * sampleRate, 0)
    }

    /** Starts the track over and skips the silence at its beginning. */
    method StartTrack()
      requires Valid()
      modifies this, buf
      ensures Valid() && !trackEnded && outTime == 0 && silenceTime == silenceCount == 0
      ensures base == StartOfTrack() && played == base + bufRemain && missed == Stretch(base, played)
      ensures ignoreSilence ==> StraightThrough()
      ensures fadeStart == 0x4000_0000
    {
      hide InitialSilence, BufHolds, Noted;
      Restart();
      if !ignoreSilence {
        FindSound(maxInitialSilence * STEREO * sampleRate);
        base := played - bufRemain;
        emuTime := bufRemain;
        outTime, silenceTime, silenceCount := 0, 0, 0;
        missed := Stretch(base, played);
        NotedPast(base, 0, base, played, iset{});
        assert iset{} + missed == missed;
      }
    }

    /** clear_track_vars, and the emulator back at its first sample. */
    method Restart()
      requires buf.Length == BUF_SIZE && sampleRate > 0 && silenceLookahead > 0
      modifies this
      ensures Valid() && !trackEnded && !emuTrackEnded
      ensures base == outTime == bufRemain == played == silenceCount == silenceTime == 0 && fadeStart == 0x4000_0000
      ensures missed == iset{}
    {
      outTime, emuTime, fadeStart, fadeStep := 0, 0, 0x4000_0000, 1;
      silenceTime, silenceCount, bufRemain := 0, 0, 0;
      played, base, missed := 0, 0, iset{};
      emuTrackEnded, trackEnded := false, false;
    }

    /** Plays until non-silence, the end of the track or the time given. */
    method FindSound(end: nat)
      requires Valid() && !trackEnded && !emuTrackEnded
      requires base == outTime == bufRemain == played == 0
      modifies this`played, this`emuTrackEnded, this`emuTime, this`silenceTime, this`bufRemain, this`silenceCount,
               this`missed, buf
      ensures buf.Length == BUF_SIZE && bufRemain <= BUF_SIZE && bufRemain <= played && BufHolds()
      ensures played - bufRemain == InitialSilence(emu, end, 0) && (emuTrackEnded ==> emu.ended(played))
    {
      hide NotesLastSound;
      while emuTime < end
        invariant Valid() && !trackEnded && !emuTrackEnded
        invariant bufRemain == 0
        invariant InitialSilence(emu, end, 0) == InitialSilence(emu, end, played)
        decreases end - emuTime
      {
        FillBuf(0);
        if bufRemain > 0 || emuTrackEnded {
          break;
        }
      }
    }

    /** First part of play: looks ahead at several times normal speed during a run of silence, then
        plays from the run; too long a run ends the track. */
    method PlaySilence(outCount: nat, out: array<Sample>) returns (pos: nat)
      requires Valid() && !trackEnded && outCount <= out.Length && out != buf
      modifies this`played, this`emuTrackEnded, this`emuTime, this`silenceTime, this`bufRemain, this`silenceCount,
               this`trackEnded, this`missed, buf, out
      ensures pos <= outCount && ValidAt(outTime + pos) && old(played) <= played
      ensures silenceTime == old(silenceTime) || old(played) <= base + silenceTime
      ensures missed == old(missed) + Starts(old(played), played) && (played - old(played)) % 2048 == 0
      ensures silenceCount == 0 || pos == outCount
      ensures forall k: nat :: k < pos ==> out[k] == 0
      ensures AllSilent(emu.raw, base + outTime, base + outTime + pos)
      ensures trackEnded ==> silenceCount == bufRemain == 0 && Ended(base + outTime + pos, outTime + outCount)
      ensures trackEnded && SilenceSpansBlock() && !emu.ended(played) ==> pos == outCount
      ensures old(silenceCount) > 0 ==>
        && played >= base + outTime
        && (trackEnded <==> played - base - silenceTime > SilenceLimit())
      ensures old(silenceCount) == 0 ==>
        && pos == 0 && silenceCount == 0 && !trackEnded && played == old(played)
        && bufRemain == old(bufRemain) && emuTrackEnded == old(emuTrackEnded)
    {
      hide InSilentBlock, Ended, Starts, SilenceSpansBlock, Lasts;
      pos := 0;
      NoStarts(played);
      if silenceCount > 0 {
        Clocks(outTime);
        LookAhead(outTime + outCount);
        Clocks(outTime);
        pos := TakeSilence(outCount, out);
        EndIfSilent(pos, outCount);
      }
    }

    /** The silence rule, with pos of the samples handed out. */
    method EndIfSilent(pos: nat, outCount: nat)
      requires ValidAt(outTime + pos) && !trackEnded && (silenceCount == 0 || pos == outCount) && pos <= outCount
      requires emuTrackEnded || bufRemain > 0
               || emuTime - silenceTime >= silenceLookahead * (outTime + outCount - silenceTime)
      modifies this`trackEnded, this`emuTrackEnded, this`silenceCount, this`bufRemain
      ensures ValidAt(outTime + pos) && (trackEnded <==> emuTime - silenceTime > SilenceLimit())
      ensures trackEnded ==> silenceCount == bufRemain == 0 && Ended(base + outTime + pos, outTime + outCount)
      ensures trackEnded && SilenceSpansBlock() && !emu.ended(played) ==> pos == outCount
      ensures !trackEnded ==> silenceCount == old(silenceCount) && bufRemain == old(bufRemain)
                              && emuTrackEnded == old(emuTrackEnded)
    {
      hide Lasts, Ended;
      if emuTime - silenceTime > SILENCE_MAX * STEREO * sampleRate {
        EndsInSilence(pos, outCount);
        trackEnded, emuTrackEnded := true, true;
        silenceCount, bufRemain := 0, 0;
      }
    }

    /** Plays from the run of silence. */
    method TakeSilence(outCount: nat, out: array<Sample>) returns (pos: nat)
      requires Valid() && !trackEnded && outCount <= out.Length && out != buf
      modifies this`silenceCount, out
      ensures ValidAt(outTime + pos)
      ensures pos == (if old(silenceCount) < outCount then old(silenceCount) else outCount)
      ensures silenceCount == old(silenceCount) - pos
      ensures forall k: nat :: k < pos ==> out[k] == 0
      ensures AllSilent(emu.raw, base + outTime, base + outTime + pos)
    {
      hide InSilentBlock, NotesLastSound, BufHolds;
      pos := if silenceCount < outCount then silenceCount else outCount;
      Silence(out, 0, pos);
      silenceCount := silenceCount - pos;
    }

    /** Runs the emulator ahead while it stays silent. */
    method LookAhead(due: nat)
      requires Valid() && !trackEnded && silenceCount > 0
      modifies this`played, this`emuTrackEnded, this`emuTime, this`silenceTime, this`bufRemain, this`silenceCount,
               this`missed, buf
      ensures Valid() && silenceCount >= old(silenceCount) && old(played) <= played
      ensures silenceTime == old(silenceTime) || old(played) <= base + silenceTime
      ensures missed == old(missed) + Starts(old(played), played) && (played - old(played)) % 2048 == 0
      ensures emuTrackEnded || bufRemain > 0 || emuTime - silenceTime >= silenceLookahead * (due - silenceTime)
    {
      hide AllSilent, Noted, Starts, Lasts;
      var aheadTime := silenceLookahead * (due - silenceTime) + silenceTime;
      ghost var s, from := silenceTime, played;
      NoStarts(from);
      while emuTime < aheadTime && !(bufRemain > 0 || emuTrackEnded)
        invariant Valid() && silenceCount >= old(silenceCount) && from <= played && (played - from) % 2048 == 0
        invariant silenceTime == s || (bufRemain > 0 && from <= base + silenceTime)
        invariant missed == old(missed) + Starts(from, played)
        decreases aheadTime - emuTime
      {
        NextStart(from, played);
        Clocks(outTime);
        FillBuf(outTime);
      }
    }

    /** The silence rule fires with pos of the samples handed out. */
    lemma EndsInSilence(pos: nat, outCount: nat)
      requires ValidAt(outTime + pos) && !trackEnded && (silenceCount == 0 || pos == outCount) && pos <= outCount
      requires emuTrackEnded || bufRemain > 0
               || emuTime - silenceTime >= silenceLookahead * (outTime + outCount - silenceTime)
      requires emuTime - silenceTime > SilenceLimit()
      ensures Ended(base + outTime + pos, outTime + outCount)
      ensures SilenceSpansBlock() && !emu.ended(played) ==> pos == outCount
    {
      hide InSilentBlock, BufHolds, Noted;
      if SilenceSpansBlock() && !emu.ended(played) {
        AheadBound(silenceLookahead, emuTime, outTime + outCount, silenceTime, SilenceLimit());
      }
    }

    /** Second part: empties the block read ahead. */
    method DrainBuf(pos: nat, outCount: nat, out: array<Sample>) returns (next: nat)
      requires pos <= outCount <= out.Length && out != buf && ValidAt(outTime + pos)
      requires silenceCount == 0 || pos == outCount
      requires trackEnded ==> bufRemain == 0
      modifies this`bufRemain, out
      ensures pos <= next <= outCount && ValidAt(outTime + next)
      ensures next == outCount || bufRemain == 0
      ensures bufRemain + next - pos == old(bufRemain)
      ensures forall k: nat :: k < pos ==> out[k] == old(out[k])
      ensures forall k: nat :: pos <= k < next ==> out[k] == emu.raw(base + outTime + k)
      ensures trackEnded ==> next == pos
    {
      next := pos;
      if bufRemain > 0 {
        var n := if bufRemain < outCount - pos then bufRemain else outCount - pos;
        for k := 0 to n
          invariant bufRemain == old(bufRemain) && buf[..] == old(buf[..])
          invariant forall j: nat :: j < pos ==> out[j] == old(out[j])
          invariant forall j: nat :: pos <= j < pos + k ==> out[j] == emu.raw(base + outTime + j)
        {
          assert buf[BUF_SIZE - bufRemain + k] == emu.raw(played - bufRemain + k);
          out[pos + k] := buf[BUF_SIZE - bufRemain + k];
        }
        bufRemain := bufRemain - n;
        next := pos + n;
      }
    }

    /** Last part: the emulator itself, watched for the start of a new run of silence. */
    method Generate(pos: nat, outCount: nat, out: array<Sample>)
      requires pos < outCount <= out.Length && out != buf && ValidAt(outTime + pos)
      requires silenceCount == bufRemain == 0
      modifies this`played, this`emuTrackEnded, this`emuTime, this`silenceTime, this`bufRemain, this`silenceCount,
               this`trackEnded, this`missed, buf, out
      ensures ValidAt(outTime + outCount) && old(played) <= played
      ensures forall k: nat :: k < pos ==> out[k] == old(out[k])
      ensures if old(emuTrackEnded)
              then trackEnded && forall k: nat :: pos <= k < outCount ==> out[k] == 0
              else forall k: nat :: pos <= k < outCount ==> out[k] == emu.raw(base + outTime + k)
      ensures ignoreSilence && outTime <= fadeStart ==> silenceCount == bufRemain == 0 && (emuTrackEnded ==> trackEnded)
      ensures silenceTime == old(silenceTime) || old(played) <= base + silenceTime
      ensures Detecting() && !old(emuTrackEnded) ==>
                forall k: nat :: pos < k < outCount && !(-8 <= out[k] <= 8) ==> silenceTime >= outTime + k
      ensures !old(emuTrackEnded) ==> MissesStarts(old(missed), old(played), outTime + outCount, Detecting())
      ensures old(emuTrackEnded) ==>
                played == old(played) && silenceTime == old(silenceTime) && missed == old(missed)
      ensures trackEnded && !old(emuTrackEnded) ==> emu.ended(played) && played == base + outTime + outCount
      ensures Detecting() && !trackEnded ==>
                outTime + outCount - silenceTime < BUF_SIZE || silenceCount > 0 || bufRemain > 0
    {
      hide AllSilent, Noted, BufHolds, Stretch, MissesStarts;
      ghost var before, from := missed, played;
      assert !trackEnded ==> from == base + emuTime == base + outTime + pos;
      hide Lasts;
      var remain := outCount - pos;
      PlayOn(outTime + pos, remain, out, pos);
      NoStarts(from);
      if !ignoreSilence || outTime > fadeStart {
        LookForSilence(outTime + outCount, before, from, out, pos, remain);
      }
      if !old(emuTrackEnded) {
        MissesPlayed(before, from, from + remain, outTime + outCount, Detecting());
      }
    }

    /** Plays with the end of the emulator as the end of the track; nothing is examined yet. */
    method PlayOn(ghost now: nat, count: nat, out: array<Sample>, begin: nat)
      requires ValidAt(now) && silenceCount == bufRemain == 0 && out != buf && 0 < count && begin + count <= out.Length
      modifies this`played, this`emuTrackEnded, this`emuTime, this`trackEnded, this`missed, out
      ensures ValidAt(now + count) && emuTime == old(emuTime) + count && (emuTrackEnded ==> trackEnded)
      ensures missed == old(missed) + Stretch(old(played), played)
      ensures !trackEnded ==> Noted(base, silenceTime, old(played), old(missed))
      ensures forall i: nat :: i < begin ==> out[i] == old(out[i])
      ensures if old(emuTrackEnded)
              then trackEnded && played == old(played) && forall i: nat :: begin <= i < begin + count ==> out[i] == 0
              else played == old(played) + count && (trackEnded ==> emu.ended(played))
                   && forall i: nat :: begin <= i < begin + count ==> out[i] == emu.raw(old(played) + (i - begin))
    {
      hide InSilentBlock, Noted, BufHolds, Stretch;
      ghost var from, before := played, missed;
      EmuPlay(count, out, begin);
      trackEnded := trackEnded || emuTrackEnded;
      missed := missed + Stretch(from, played);
      NoStarts(from);
      if !trackEnded {
        NotedPast(base, silenceTime, from, played, before);
      }
      NothingHeld();
    }

    /** Notes where silence began; after enough of it, looks ahead. */
    method LookForSilence(ghost now: nat, ghost before: iset<nat>, ghost from: nat, out: array<Sample>, pos: nat,
                          remain: nat)
      requires ValidAt(now) && bufRemain == 0 && out != buf && 0 < remain && pos + remain <= out.Length
      requires (emuTrackEnded ==> trackEnded) && silenceTime <= emuTime - remain
      requires missed == before + Stretch(from, played) && (!trackEnded ==> Noted(base, silenceTime, from, before))
      requires if played == from then trackEnded && forall i: nat :: pos <= i < pos + remain ==> out[i] == 0
               else played == from + remain
                    && forall i: nat :: pos <= i < pos + remain ==> out[i] == emu.raw(from + (i - pos))
      modifies this`played, this`emuTrackEnded, this`emuTime, this`silenceTime, this`bufRemain, this`silenceCount,
               this`missed, buf, out
      ensures ValidAt(now) && old(played) <= played
      ensures forall i: nat :: i < out.Length ==> out[i] == old(out[i])
      ensures silenceTime == old(silenceTime) || silenceTime > old(emuTime) - remain
      ensures forall k: nat :: pos < k < pos + remain && !(-8 <= out[k] <= 8) ==>
                silenceTime >= old(emuTime) - remain + k - pos
      ensures missed == before + (if from < old(played) then iset{from} else iset{})
                        + (if old(played) < played then iset{old(played)} else iset{})
      ensures from == old(played) ==> silenceTime == old(silenceTime)
      ensures old(emuTrackEnded) ==> played == old(played) && emuTrackEnded
      ensures !old(emuTrackEnded) ==> old(emuTime) - silenceTime < BUF_SIZE || silenceCount > 0 || bufRemain > 0
    {
      hide AllSilent, BufHolds, Noted, LastLoud, QuietStretch, SilentBlock;
      var silence := CountSilence(out, pos, remain);
      if silence < remain {
        silenceTime := emuTime - silence;
      }
      missed := before;
      if from < played {
        missed := missed + iset{from};
        Examined(from, out, pos, remain, silence);
        if !trackEnded {
          NotedOn(base, old(silenceTime), from, remain, before, silenceTime);
        }
      }
      assert ValidAt(now);
      hide Lasts;
      if emuTime - silenceTime >= BUF_SIZE {
        FillBuf(now);
      }
    }

    /** Sets a fade that starts at the given sample; too short a fade would divide by zero. */
    method SetFade(start: nat, lengthMsec: nat)
      requires Valid() && sampleRate * lengthMsec >= FADE_BLOCK * 8 * 1000 / STEREO
      modifies this`fadeStart, this`fadeStep
      ensures Valid() && fadeStart == start && fadeStep == sampleRate * lengthMsec / 2048000
    {
      DivMono(2048000, sampleRate * lengthMsec, 2048000);
      fadeStep := sampleRate * lengthMsec / (FADE_BLOCK * 8 * 1000 / STEREO);
      fadeStart := start;
    }

    /** The gain of the fade for the block that starts at the given output time. */
    function Gain(time: int): int
      requires fadeStep > 0 && time >= fadeStart
      reads this`fadeStart, this`fadeStep
    {
      IntLog((time - fadeStart) / FADE_BLOCK, fadeStep)
    }

    /** The last block begins eight steps of blocks and a 0x4000th of a step into the fade, or later. */
    predicate FadedOut(time: int, outCount: nat)
      reads this`fadeStart, this`fadeStep
    {
      time > fadeStart && outCount > 0
      && ((time + (outCount - 1) / 512 * 512 - fadeStart) / 512 - 8 * fadeStep) * 0x4000 >= fadeStep
    }

    /** That is where the gain falls below 1/256. */
    lemma FadedOutIs(time: int, outCount: nat)
      requires fadeStep > 0 && time > fadeStart
      ensures FadedOut(time, outCount) <==> outCount > 0 && Gain(time + BlockStart(outCount - 1)) < UNIT / 256
    {
      if outCount > 0 {
        FadeEndsExactly((time + BlockStart(outCount - 1) - fadeStart) / FADE_BLOCK, fadeStep);
      }
    }

    lemma GainFalls(t: int, u: int)
      requires fadeStep > 0 && fadeStart <= t <= u
      ensures 0 <= Gain(u) <= Gain(t) <= UNIT
    {
      DivMono(0, t - fadeStart, FADE_BLOCK);
      DivMono(t - fadeStart, u - fadeStart, FADE_BLOCK);
      IntLogMono((t - fadeStart) / FADE_BLOCK, (u - fadeStart) / FADE_BLOCK, fadeStep);
    }

    /** The gain by its time: it halves every fadeStep blocks of 512 samples and falls in a straight line
        in between. */
    lemma GainExact(time: int) returns (blocks: nat, shift: nat, rest: nat, f: nat)
      requires fadeStep > 0 && time >= fadeStart
      ensures 512 * blocks <= time - fadeStart < 512 * blocks + 512
      ensures blocks == shift * fadeStep + rest && rest < fadeStep
      ensures f * fadeStep <= rest * 0x4000 < (f + 1) * fadeStep
      ensures Gain(time) * Pow2(shift + 1) <= 2 * 0x4000 - f < (Gain(time) + 1) * Pow2(shift + 1)
    {
      blocks := (time - fadeStart) / 512;
      shift, rest, f := IntLogExact(blocks, fadeStep);
    }

    method FadeBlock(begin: nat, count: nat, gain: int, out: array<Sample>)
      requires begin + count <= out.Length && 0 <= gain <= UNIT
      modifies out
      ensures forall k :: begin <= k < begin + count ==> out[k] == Faded(old(out[k]), gain)
      ensures forall k :: 0 <= k < begin || begin + count <= k < out.Length ==> out[k] == old(out[k])
    {
      hide Faded;
      for i := begin to begin + count
        invariant forall k :: begin <= k < i ==>
                    out[k] == Faded(old(out[k]), gain)
        invariant forall k :: 0 <= k < begin || i <= k < out.Length ==> out[k] == old(out[k])
      {
        FadedFits(out[i], gain);
        out[i] := Faded(out[i], gain);
      }
    }

    /** Fades the samples block by block with a falling gain; once the gain is below 1/256 the track ends. */
    method HandleFade(outCount: nat, out: array<Sample>)
      requires outCount <= out.Length && out != buf && fadeStep > 0 && outTime > fadeStart
      modifies this`trackEnded, this`emuTrackEnded, out
      ensures forall k: nat :: k < outCount ==> out[k] == Faded(old(out[k]), Gain(outTime + BlockStart(k)))
      ensures var ends := FadedOut(outTime, outCount);
              trackEnded == (old(trackEnded) || ends) && emuTrackEnded == (old(emuTrackEnded) || ends)
    {
      hide Faded, Gain, FadedOut;
      FadedOutIs(outTime, outCount);
      ghost var b := 0;
      var i := 0;
      while i < outCount
        invariant i == 512 * b
        invariant forall k: nat :: k < outCount && k < i ==> out[k] == Faded(old(out[k]), Gain(outTime + BlockStart(k)))
        invariant forall k: nat :: i <= k < outCount ==> out[k] == old(out[k])
        invariant var ends := i > 0 && Gain(outTime + i - 512) < UNIT / 256;
          trackEnded == (old(trackEnded) || ends) && emuTrackEnded == (old(emuTrackEnded) || ends)
        invariant 0 < i ==> i < outCount + 512
      {
        var gain := Gain(outTime + i);
        GainFalls(if i == 0 then outTime else outTime + i - 512, outTime + i);
        if gain < UNIT / 256 {
          trackEnded, emuTrackEnded := true, true;
        }
        FadeBlock(i, if FADE_BLOCK < outCount - i then FADE_BLOCK else outCount - i, gain, out);
        i := i + FADE_BLOCK;
        b := b + 1;
      }
    }

    /** The same sample never comes out louder later in a fade. */
    lemma LaterNotLouder(t: int, u: int, x: int, y: int, z: int)
      requires fadeStep > 0 && fadeStart <= t <= u && RoundsDown(z, x, Gain(t)) && RoundsDown(y, x, Gain(u))
      ensures NotLouder(y, z, x)
    {
      GainFalls(t, u);
      LowerGain(x, Gain(t), Gain(u), y, z);
    }

    /** What fading block by block means for the samples of one call. */
    lemma FadesOut(heard: seq<int>, faded: seq<int>)
      requires fadeStep > 0 && outTime > fadeStart && |heard| == |faded|
      requires forall k: nat :: k < |heard| ==> faded[k] == Faded(heard[k], Gain(outTime + BlockStart(k)))
      ensures forall k: nat :: k < |heard| ==> RoundsDown(faded[k], heard[k], Gain(outTime + k / 512 * 512))
      ensures forall j: nat, k: nat :: j <= k < |heard| && heard[j] == heard[k] ==>
                NotLouder(faded[k], faded[j], heard[j])
    {
      hide Gain, Faded, RoundsDown, NotLouder;
      forall k: nat | k < |heard|
        ensures RoundsDown(faded[k], heard[k], Gain(outTime + k / 512 * 512))
      {
        FadedIs(heard[k], Gain(outTime + BlockStart(k)));
      }
      forall j: nat, k: nat | j <= k < |heard| && heard[j] == heard[k]
        ensures NotLouder(faded[k], faded[j], heard[j])
      {
        var t, u := outTime + j / 512 * 512, outTime + k / 512 * 512;
        DivMono(j, k, 512);
        LaterNotLouder(t, u, heard[j], faded[k], faded[j]);
      }
    }

    lemma HeardAsIs(from: nat, out: array<Sample>, begin: nat, end: nat)
      requires end <= out.Length && forall k: nat :: begin <= k < end ==> out[k] == emu.raw(from + k)
      ensures forall k: nat :: begin <= k < end ==> Faithful(emu.raw, from + k, out[k])
    {
    }

    /** The first two parts of play: the run of silence and the block read ahead. */
    method PlayQueued(outCount: nat, out: array<Sample>) returns (pos: nat)
      requires Valid() && !trackEnded && outCount <= out.Length && out != buf
      modifies this`played, this`emuTrackEnded, this`emuTime, this`silenceTime, this`bufRemain, this`silenceCount,
               this`trackEnded, this`missed, buf, out
      ensures pos <= outCount && ValidAt(outTime + pos) && old(played) <= played
      ensures silenceTime == old(silenceTime) || old(played) <= base + silenceTime
      ensures missed == old(missed) + Starts(old(played), played) && (played - old(played)) % 2048 == 0
      ensures (pos == outCount || silenceCount == bufRemain == 0) && (trackEnded ==> emuTrackEnded)
      ensures forall k: nat :: k < pos ==> Faithful(emu.raw, base + outTime + k, out[k])
      ensures trackEnded ==> silenceCount == bufRemain == 0 && Ended(base + outTime + pos, outTime + outCount)
      ensures old(silenceCount) > 0 && !trackEnded ==>
                played >= base + outTime && played - base - silenceTime <= SilenceLimit()
      ensures old(silenceCount) == 0 ==>
        && !trackEnded && silenceCount == 0 && bufRemain + pos == old(bufRemain) && emuTrackEnded == old(emuTrackEnded)
        && forall k: nat :: k < pos ==> out[k] == emu.raw(base + outTime + k)
    {
      hide InSilentBlock, Lasts, Ended, Starts;
      pos := PlaySilence(outCount, out);
      pos := DrainBuf(pos, outCount, out);
    }

    /** play up to the fade: each sample is the emulator's own for its position, or 0 where the
        look-ahead found silence. Only a track that has ended is cut short, and zeros follow. */
    method PlayUnfaded(outCount: nat, out: array<Sample>) returns (ghost kept: nat)
      requires Valid() && !trackEnded && outCount <= out.Length && out != buf
      modifies this`played, this`emuTrackEnded, this`emuTime, this`silenceTime, this`bufRemain, this`silenceCount,
               this`trackEnded, this`missed, buf, out
      ensures ValidAt(outTime + outCount)
      ensures kept <= outCount && (kept < outCount ==> trackEnded)
      ensures silenceTime == old(silenceTime) || old(played) <= base + silenceTime
      ensures MissesStarts(old(missed), old(played), outTime + outCount, Detecting())
      ensures trackEnded ==> Ended(base + outTime + kept, outTime + outCount)
      ensures forall k: nat :: k < kept ==> Faithful(emu.raw, base + outTime + k, out[k])
      ensures forall k: nat :: kept <= k < outCount ==> out[k] == 0
      ensures old(StraightThrough()) && outTime <= fadeStart ==>
        && StraightThrough()
        && forall k: nat :: k < kept ==> out[k] == emu.raw(base + outTime + k)
      ensures old(silenceCount) > 0 && !trackEnded ==> outTime - silenceTime <= SilenceLimit()
      ensures old(silenceCount) == 0 && old(bufRemain) < outCount && Detecting() && !trackEnded ==>
                outTime + outCount - silenceTime < BUF_SIZE || silenceCount > 0 || bufRemain > 0
    {
      hide Faithful, ValidAt, Ended, Starts, MissesStarts, Detecting;
      var pos := PlayQueued(outCount, out);
      ghost var m, p := missed, played;
      kept := if emuTrackEnded then pos else outCount;
      if pos < outCount {
        if !trackEnded {
          Clocks(outTime + pos);
        }
        Generate(pos, outCount, out);
        HeardAsIs(base + outTime, out, pos, kept);
        EndsAt(base + outTime + kept, outTime + outCount);
      } else {
        kept := outCount;
      }
      MissesJoin(old(missed), m, old(played), p, outTime + outCount, Detecting());
    }

    /** With silence detection off nothing is ever queued. */
    ghost predicate StraightThrough()
      reads this`silenceCount, this`bufRemain, this`emuTrackEnded, this`trackEnded
    {
      ignoreSilence && silenceCount == bufRemain == 0 && (emuTrackEnded ==> trackEnded)
    }

    /** Hands out outCount samples: those of PlayUnfaded, faded once outTime has passed fadeStart. */
    method Play(outCount: nat, out: array<Sample>) returns (ghost heard: seq<int>, ghost kept: nat)
      requires Valid() && outCount % STEREO == 0 && outCount <= out.Length && out != buf
      modifies this`played, this`emuTrackEnded, this`emuTime, this`silenceTime, this`bufRemain, this`silenceCount,
               this`trackEnded, this`outTime, this`missed, buf, out
      ensures Valid() && outTime == old(outTime) + outCount && (old(trackEnded) ==> trackEnded)
      ensures |heard| == outCount && kept <= outCount && (kept < outCount ==> trackEnded)
      ensures silenceTime == old(silenceTime) || old(played) <= base + silenceTime
      ensures MissesStarts(old(missed), old(played), outTime, old(Detecting()))
      ensures trackEnded && !old(trackEnded) ==>
                Ended(base + old(outTime) + kept, outTime) || (kept == outCount && FadedOut(old(outTime), outCount))
      ensures forall k: nat :: k < kept ==> Faithful(emu.raw, base + old(outTime) + k, heard[k])
      ensures forall k: nat :: kept <= k < outCount ==> heard[k] == 0
      ensures old(StraightThrough()) && old(outTime) <= fadeStart ==>
        && StraightThrough()
        && forall k: nat :: k < kept ==> heard[k] == emu.raw(base + old(outTime) + k)
      ensures forall k: nat :: k < outCount ==>
                out[k] == if old(outTime) > fadeStart && !old(trackEnded) && fadeStep > 0
                          then Faded(heard[k], Gain(old(outTime) + BlockStart(k))) else heard[k]
      ensures old(outTime) > fadeStart && !old(trackEnded) && fadeStep > 0 ==>
        forall k: nat :: k < outCount ==> RoundsDown(out[k], heard[k], Gain(old(outTime) + k / 512 * 512))
      ensures old(outTime) > fadeStart && !old(trackEnded) && fadeStep > 0 ==>
        forall j: nat, k: nat :: j <= k < outCount && heard[j] == heard[k] ==> NotLouder(out[k], out[j], heard[j])
      ensures fadeStep > 0 && old(outTime) > fadeStart && FadedOut(old(outTime), outCount) ==> trackEnded
      ensures old(silenceCount) > 0 && !trackEnded ==> old(outTime) - silenceTime <= SilenceLimit()
      ensures old(silenceCount) == 0 && old(bufRemain) < outCount && old(Detecting()) && !trackEnded ==>
                outTime - silenceTime < BUF_SIZE || silenceCount > 0 || bufRemain > 0
    {
      hide Faithful, Faded, Gain, BlockStart, FadedOut, Ended, MissesStarts, Lasts, RoundsDown, NotLouder;
      if trackEnded {
        MissesNothing(played, outTime + outCount, Detecting());
        Silence(out, 0, outCount);
        heard, kept := out[..outCount], 0;
      } else {
        kept := PlayUnfaded(outCount, out);
        heard := out[..outCount];
        if outTime > fadeStart {
          HandleFade(outCount, out);
          FadesOut(heard, out[..outCount]);
        }
      }
      outTime := outTime + outCount;
    }

    /** Skips in the run of silence and in the block read ahead. */
    method SkipQueued(count: nat) returns (left: nat)
      requires Valid()
      modifies this`silenceCount, this`bufRemain
      ensures left <= count && ValidAt(outTime + count - left)
      ensures left > 0 ==> silenceCount == bufRemain == 0
      ensures silenceCount == Less(old(silenceCount), count)
      ensures bufRemain == Less(old(bufRemain), Less(count, old(silenceCount)))
    {
      hide InSilentBlock, Noted;
      left := count;
      var n := if left < silenceCount then left else silenceCount;
      silenceCount := silenceCount - n;
      left := left - n;
      n := if left < bufRemain then left else bufRemain;
      bufRemain := bufRemain - n;
      left := left - n;
    }

    /** Skips in the emulator; nothing is examined. */
    method SkipOn(ghost now: nat, count: nat)
      requires ValidAt(now) && silenceCount == bufRemain == 0 && !emuTrackEnded
      modifies this`played, this`emuTrackEnded, this`emuTime, this`missed, buf
      ensures if emuTrackEnded then emu.ended(played) && played <= base + now + count else ValidAt(now + count)
      ensures played >= old(played) && missed == old(missed) + Stretch(old(played), played)
      ensures emuTime >= old(emuTime)
    {
      hide InSilentBlock, Noted, Stretch;
      emuTime := emuTime + count;
      ghost var from := played;
      SkipEmulator(count);
      NothingHeld();
      if !trackEnded {
        NotedPast(base, silenceTime, from, played, missed);
      }
      missed := missed + Stretch(from, played);
    }

    /** Passes over count samples without handing them out, nor looking for sound in what it runs. */
    method Skip(count: nat)
      requires Valid()
      modifies this`played, this`emuTrackEnded, this`emuTime, this`bufRemain, this`silenceCount, this`trackEnded,
               this`outTime, this`missed, buf
      ensures Valid() && outTime == old(outTime) + count && (old(trackEnded) ==> trackEnded)
      ensures trackEnded && !old(trackEnded) ==> emu.ended(played) && played <= base + outTime
      ensures old(StraightThrough()) ==> StraightThrough()
      ensures missed == old(missed) + Stretch(old(played), played)
      ensures silenceCount == Less(old(silenceCount), count)
      ensures bufRemain == Less(old(bufRemain), Less(count, old(silenceCount)))
    {
      hide Lasts, Noted;
      var left := SkipQueued(count);
      outTime := outTime + count;
      NoStarts(played);
      if !trackEnded {
        Clocks(outTime - left);
      }

      if left > 0 && !emuTrackEnded {
        SkipOn(outTime - left, left);
      }
      if silenceCount == 0 && bufRemain == 0 {
        trackEnded := trackEnded || emuTrackEnded;
      }
    }

    /** skip_: runs the emulator into the buffer; far skips go in whole blocks with the sound muted. */
    method SkipEmulator(count: nat)
      requires buf.Length == BUF_SIZE && !emuTrackEnded
      modifies this`played, this`emuTrackEnded, buf
      ensures old(played) <= played <= old(played) + count
      ensures if emuTrackEnded then emu.ended(played) else played == old(played) + count
    {
      var threshold := 30000;
      var left := count;
      if left > threshold {
        while left > threshold / 2 && !emuTrackEnded
          invariant 0 <= left <= count && played + left == old(played) + count && (emuTrackEnded ==> emu.ended(played))
        {
          EmulatorPlay(BUF_SIZE, buf, 0);
          left := left - BUF_SIZE;
        }
      }
      while left > 0 && !emuTrackEnded
        invariant 0 <= left <= count && played + left == old(played) + count && (emuTrackEnded ==> emu.ended(played))
        decreases left
      {
        var n := if left < BUF_SIZE then left else BUF_SIZE;
        left := left - n;
        EmulatorPlay(n, buf, 0);
      }
    }

    /** seek_samples: going back restarts the track, so the same raw position is reached again. */
    method SeekSamples(time: nat)
      requires Valid()
      modifies this, buf
      ensures Valid() && outTime == time
      ensures base == if time < old(outTime) then StartOfTrack() else old(base)
      ensures trackEnded && (time < old(outTime) || !old(trackEnded)) ==> emu.ended(played) && played <= base + outTime
    {
      if time < outTime {
        StartTrack();
      }
      Skip(time - outTime);
    }
  }

  // ---------------------------------------------------------------- whole runs

  /** What is known between two calls once the emulator has fallen silent: nothing loud is noted from q on,
      and a block is only held close to the last sound. */
  lemma QuietFrom(player: Player, q: nat)
    requires player.Valid() && !player.trackEnded
    requires forall p: nat :: p >= q ==> !Loud(player.emu.raw(p))
    ensures player.silenceTime <= Max(0, q - player.base)
    ensures player.bufRemain > 0 ==> player.outTime - player.silenceTime <= BUF_SIZE
  {
  }

  /** With detection on, a track that is silent from position q of the emulator on does end: once the limit
      of silence, or a block if that is longer, is over, within three calls. */
  method PlayToEnd(player: Player, q: nat, chunk: nat, out: array<Sample>)
    requires player.Valid() && !player.trackEnded && !player.ignoreSilence
    requires 0 < chunk <= out.Length && chunk % STEREO == 0 && out != player.buf
    requires forall p: nat :: p >= q ==> !Loud(player.emu.raw(p))
    modifies player, player.buf, out
    ensures player.Valid() && player.trackEnded && player.base == old(player.base)
    ensures player.outTime <= Max(old(player.outTime), QuietBy(player, q) + chunk) + 2 * chunk
  {
    ghost var quiet := QuietBy(player, q);
    ghost var last := Max(player.outTime, quiet + chunk);
    while !player.trackEnded
      invariant player.Valid() && player.base == old(player.base)
      invariant player.trackEnded || player.outTime <= last + (if player.silenceCount == 0 then 0 else chunk)
      invariant player.outTime <= last + 2 * chunk
      decreases Max(0, quiet + 1 - player.outTime),
                if player.trackEnded then 0 else if player.silenceCount > 0 then 1 else 2
    {
      QuietFrom(player, q);
      var heard, kept := player.Play(chunk, out);
      if !player.trackEnded {
        QuietFrom(player, q);
      }
    }
  }

  /** Output time by which nothing but the silence after q is left to count. */
  ghost function QuietBy(player: Player, q: nat): int
    reads player
  {
    Max(0, q - player.base) + Max(player.SilenceLimit(), BUF_SIZE)
  }

  ghost predicate Marked(marks: set<nat>, p: nat) {
    exists m :: m in marks && m <= p && (p - m) % 2048 == 0
  }

  lemma MarksGrow(player: Player, before: iset<nat>, from: nat, marks: set<nat>)
    requires player.MissesStarts(before, from, player.outTime, true)
    requires forall p: nat :: p in before ==> p < player.base + BUF_SIZE || Marked(marks, p)
    ensures var more := marks + {from, player.base + player.outTime};
            forall p: nat :: p in player.missed ==> p < player.base + BUF_SIZE || Marked(more, p)
    ensures |marks + {from, player.base + player.outTime}| <= |marks| + 2
  {
    var end := player.base + player.outTime;
    var more := marks + {from, end};
    assert more == marks + {from} + {end};
    forall p: nat | p in player.missed
      ensures p < player.base + BUF_SIZE || Marked(more, p)
    {
      if p in before {
        if p >= player.base + BUF_SIZE {
          var m :| m in marks && m <= p && (p - m) % 2048 == 0;
          assert m in more;
        }
      } else if p == end {
        assert end in more;
      } else {
        assert from in more;
      }
    }
  }

  /** A track played from its start in any number of calls, without a skip. A loud sample after the last
      sound noted lies in the block that waited at the start, or whole blocks past one of at most two
      places a call; any other stretch after silenceTime really is silent. */
  method PlayThrough(player: Player, calls: nat, chunk: nat, out: array<Sample>) returns (ghost marks: set<nat>)
    requires player.Valid() && !player.ignoreSilence
    requires chunk <= out.Length && chunk % STEREO == 0 && out != player.buf
    modifies player, player.buf, out
    ensures player.Valid() && player.base == player.StartOfTrack() && player.outTime == calls * chunk
    ensures |marks| <= 2 * calls
    ensures player.NotesLastSound() ==>
              forall p: nat :: player.base + player.silenceTime < p < player.played && Loud(player.emu.raw(p)) ==>
                p < player.base + BUF_SIZE || Marked(marks, p)
  {
    hide Player.Lasts, Player.Ended, Player.Gain, Player.MissesStarts, Player.NotesLastSound, Player.FadedOut, Faithful,
         Faded, Marked, BlockStart;
    player.StartTrack();
    marks := {};
    for i := 0 to calls
      invariant player.Valid() && player.base == player.StartOfTrack() && player.outTime == i * chunk
      invariant |marks| <= 2 * i
      invariant forall p: nat :: p in player.missed ==> p < player.base + BUF_SIZE || Marked(marks, p)
    {
      ghost var before, from, was := player.missed, player.played, marks;
      var heard, kept := player.Play(chunk, out);
      marks := marks + {from, player.base + player.outTime};
      MarksGrow(player, before, from, was);
      NextCall(i, chunk);
    }
    LoudIsMissed(player);
  }

  lemma NextCall(i: nat, chunk: nat)
    ensures (i + 1) * chunk == i * chunk + chunk
  {
  }

  lemma LoudIsMissed(player: Player)
    ensures player.NotesLastSound() ==>
              forall p: nat :: player.base + player.silenceTime < p < player.played && Loud(player.emu.raw(p)) ==>
                p in player.missed
  {
  }

  /** Whatever the emulator does before raw position 20000 is loud, and after that it is silent for good. */
  const Burst := Emulator((p: nat) => if p < 20000 then 1000 else 0, (n: nat) => false)

  /** A skip over sound: the track ends four samples after the last loud one, though only those four have
      been heard since. */
  method SkipOverSound() returns (player: Player, out: array<Sample>)
    ensures player.emu == Burst && player.sampleRate == 1000 && player.SilenceLimit() == 12000
    ensures player.Valid() && player.trackEnded && player.outTime == 20004 && player.base == 0
    ensures Loud(player.emu.raw(19999)) && !player.emu.ended(player.played)
  {
    player := new Player(Burst, 1000, false, 0, 1);
    out := new Sample[2];
    player.StartTrack();
    player.Skip(20000);
    var heard, kept := player.Play(2, out);
    heard, kept := player.Play(2, out);
  }
}
