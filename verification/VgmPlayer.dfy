/** The VGM command interpreter: it executes commands until the file's sample position has passed the
    samples due for playback, and can be asked for any number of samples at a time. */
module VgmPlayer {
  import opened Arith

  /** The file and the settings fixed while it plays. mul / div is playback samples per file sample. */
  datatype File = File(
    data: seq<nat>,
    eof: nat,
    dataOffset: nat,
    loopOffset: nat,              // 0 if the file does not loop
    loopSamples: nat,
    mul: nat,
    div: nat,
    maxLoop: nat,                 // 0 for no limit
    fadeTime: nat,
    ym2612: bool,
    unpacked: (nat, nat) -> seq<nat>)   // a compressed block, by its position and its table's; [] if it is refused
  {
    predicate Valid() {
      mul > 0 && div > 0
    }

    /** Bytes past the end are reached by truncated commands only. */
    function Byte(i: nat): nat {
      if i < |data| then data[i] else 0
    }

    function LE16(i: nat): nat {
      Byte(i) + Byte(i + 1) * 0x100
    }

    function LE32(i: nat): nat {
      LE16(i) + LE16(i + 2) * 0x1_0000
    }

    function ToPlayback(samples: int): int
      requires Valid()
    {
      TruncDiv(samples * mul, div)
    }

    function FromPlayback(samples: int): int
      requires Valid()
    {
      TruncDiv(samples * div, mul)
    }
  }

  /** What the chips get to see: a command of the file, a byte of the sample bank, a data block. */
  datatype Event = Command(pos: nat) | DacByte(value: nat) | Block(pos: nat)

  datatype Vgm = Vgm(
    pos: nat,
    smplPos: int,                 // file samples executed
    played: int,                  // playback samples asked for
    curLoop: nat,
    end: bool,
    endPlay: bool,
    fadePlay: bool,
    events: seq<Event>,
    bank: seq<nat>,               // sample bank 0
    bankPos: nat,
    table: nat,                   // where the value table loaded last is; 0 for none
    blockPos: nat,                // blocks of bank 0 met, and loaded
    blockCount: nat)

  // ---------------------------------------------------------------- one command

  /** Bytes a command takes, by its first byte; 0 for one that ends or redirects playback. */
  function Length(f: File, pos: nat): nat {
    var c := f.Byte(pos);
    if c < 0x30 then 1
    else if c < 0x40 then 2
    else if c < 0x4F then 3
    else if c < 0x51 then 2
    else if c < 0x60 then 3
    else if c == 0x61 then 3
    else if c == 0x62 || c == 0x63 then 1
    else if c == 0x67 then 7 + f.LE32(pos + 3) % 0x8000_0000
    else if c == 0x68 then 12
    else if c < 0x70 then 0
    else if c < 0x90 then 1
    else if c == 0x90 || c == 0x91 || c == 0x95 then 5
    else if c == 0x92 then 6
    else if c == 0x93 then 11
    else if c == 0x94 then 2
    else if c < 0xA0 then 0
    else if c < 0xC0 then 3
    else if c < 0xE0 then 4
    else 5
  }

  /** Samples a command waits. */
  function Wait(f: File, pos: nat): nat {
    var c := f.Byte(pos);
    if c == 0x61 then f.LE16(pos + 1)
    else if c == 0x62 then 735
    else if c == 0x63 then 882
    else if 0x70 <= c < 0x80 then c % 16 + 1
    else if 0x80 <= c < 0x90 then c % 16
    else 0
  }

  /** 0x66: loops back, or ends. */
  function AtEnd(f: File, s: Vgm): Vgm
    requires f.Valid()
  {
    if f.loopOffset == 0 then s.(end := true)
    else
      var fade := s.fadePlay || (f.maxLoop > 0 && s.curLoop + 1 >= f.maxLoop);
      s.(pos := f.loopOffset, smplPos := s.smplPos - f.loopSamples,
         played := s.played - f.ToPlayback(f.loopSamples), curLoop := s.curLoop + 1,
         fadePlay := fade, end := s.end || (fade && f.fadeTime == 0))
  }

  /** 0x80 to 0x8F: the next byte of the bank goes to the YM2612, 0x80 once the bank is used up. */
  function PlayBankByte(f: File, s: Vgm): Vgm {
    var value := if s.bankPos < |s.bank| then s.bank[s.bankPos] else 0x80;
    s.(events := if f.ym2612 then s.events + [DacByte(value)] else s.events,
       bankPos := if s.bankPos < |s.bank| then s.bankPos + 1 else s.bankPos)
  }

  /** 0x67: loads a data block, during the first pass only unless it goes to a chip's RAM. */
  function LoadBlock(f: File, s: Vgm): Vgm {
    var kind, size := f.Byte(s.pos + 2), f.LE32(s.pos + 3) % 0x8000_0000;
    if kind >= 0xC0 then s.(events := s.events + [Block(s.pos)])
    else if s.curLoop > 0 then s
    else if kind == 0x7F then s.(table := s.pos)
    else if kind % 0x40 != 0 || kind > 0x40 then s.(events := s.events + [Block(s.pos)])
    else if s.blockPos + 1 <= s.blockCount then s.(blockPos := s.blockPos + 1)
    else
      s.(blockPos := s.blockPos + 1, blockCount := s.blockCount + 1,
         bank := s.bank + if kind == 0 then BlockData(f, s.pos + 7, size) else f.unpacked(s.pos, s.table))
  }

  function BlockData(f: File, at: nat, size: nat): seq<nat> {
    seq<nat>(size, (i: nat) => f.Byte(at + i))
  }

  function Effect(f: File, s: Vgm): Vgm
  {
    var c := f.Byte(s.pos);
    if 0x61 <= c <= 0x63 || 0x70 <= c < 0x80 then s
    else if 0x80 <= c < 0x90 then PlayBankByte(f, s)
    else if c == 0x67 then LoadBlock(f, s)
    else if c == 0xE0 then s.(bankPos := f.LE32(s.pos + 1))
    else if c < 0x30 then s
    else s.(events := s.events + [Command(s.pos)])
  }

  /** Moves past a command. */
  function Pass(s: Vgm, length: nat, wait: nat): Vgm {
    s.(pos := s.pos + length, smplPos := s.smplPos + wait)
  }

  function Execute(f: File, s: Vgm): Vgm
    requires f.Valid()
  {
    if f.Byte(s.pos) == 0x66 then AtEnd(f, s)
    else if Length(f, s.pos) == 0 then s.(end := true, endPlay := true)
    else Pass(Effect(f, s), Length(f, s.pos), Wait(f, s.pos))
  }

  function CheckEof(f: File, s: Vgm): Vgm {
    if s.pos >= f.eof then s.(end := true) else s
  }

  /** One pass of InterpretVGM's loop. */
  function Step(f: File, s: Vgm): Vgm
    requires f.Valid()
  {
    CheckEof(f, Execute(f, s))
  }

  // ---------------------------------------------------------------- any number of commands

  function Iterate(f: File, s: Vgm, k: nat): Vgm
    requires f.Valid()
  {
    if k == 0 then s else Step(f, Iterate(f, s, k - 1))
  }

  /** The loop goes on: some command is due within count more playback samples. */
  predicate Running(f: File, s: Vgm, count: nat)
    requires f.Valid()
  {
    !s.end && s.smplPos <= f.FromPlayback(s.played + count)
  }

  /** InterpretVGM(count) executes exactly k commands from s. */
  ghost predicate RunsFor(f: File, s: Vgm, count: nat, k: nat)
    requires f.Valid()
  {
    && (forall i: nat :: i < k ==> Running(f, Iterate(f, s, i), count))
    && !Running(f, Iterate(f, s, k), count)
  }

  function Shift(s: Vgm, count: int): Vgm {
    s.(played := s.played + count)
  }

  /** What InterpretFile(count) leaves behind when it executes k commands. */
  function Interpreted(f: File, s: Vgm, count: nat, k: nat): Vgm
    requires f.Valid()
  {
    Shift(Iterate(f, s, k), count)
  }

  lemma LoadBlockShift(f: File, s: Vgm, count: int)
    ensures LoadBlock(f, Shift(s, count)) == Shift(LoadBlock(f, s), count)
    ensures LoadBlock(f, s).(events := s.events, bank := s.bank, table := s.table, blockPos := s.blockPos,
                             blockCount := s.blockCount) == s
  {
  }

  /** What a command does to the chips does not depend on the clocks, and leaves them alone. */
  lemma EffectShift(f: File, s: Vgm, count: int)
    ensures Effect(f, Shift(s, count)) == Shift(Effect(f, s), count)
    ensures Effect(f, s).pos == s.pos && Effect(f, s).smplPos == s.smplPos && Effect(f, s).played == s.played
    ensures Effect(f, s).end == s.end && Effect(f, s).fadePlay == s.fadePlay && Effect(f, s).curLoop == s.curLoop
  {
    hide LoadBlock;
    LoadBlockShift(f, s, count);
  }

  lemma AtEndShift(f: File, s: Vgm, count: int)
    requires f.Valid()
    ensures AtEnd(f, Shift(s, count)) == Shift(AtEnd(f, s), count)
  {
    hide File.ToPlayback;
  }

  lemma ExecuteShift(f: File, s: Vgm, count: int)
    requires f.Valid()
    ensures Execute(f, Shift(s, count)) == Shift(Execute(f, s), count)
  {
    hide Effect, Length, Wait, AtEnd;
    EffectShift(f, s, count);
    AtEndShift(f, s, count);
  }

  lemma StepShift(f: File, s: Vgm, count: int)
    requires f.Valid()
    ensures Step(f, Shift(s, count)) == Shift(Step(f, s), count)
  {
    hide Execute;
    ExecuteShift(f, s, count);
  }

  lemma {:induction false} IterateShift(f: File, s: Vgm, count: int, k: nat)
    requires f.Valid()
    ensures Iterate(f, Shift(s, count), k) == Shift(Iterate(f, s, k), count)
  {
    hide Step;
    if k > 0 {
      IterateShift(f, s, count, k - 1);
      StepShift(f, Iterate(f, s, k - 1), count);
    }
  }

  lemma {:induction false} IterateAdd(f: File, s: Vgm, j: nat, k: nat)
    requires f.Valid()
    ensures Iterate(f, Iterate(f, s, j), k) == Iterate(f, s, j + k)
  {
    hide Step;
    if k > 0 {
      IterateAdd(f, s, j, k - 1);
    }
  }

  lemma RunningNotEnded(f: File, s: Vgm, count: nat)
    requires f.Valid() && Running(f, s, count)
    ensures !s.end
  {
  }

  lemma RunningMono(f: File, s: Vgm, a: nat, b: nat)
    requires f.Valid() && Running(f, s, a)
    ensures Running(f, s, a + b)
  {
    MulMono(s.played + a, s.played + a + b, f.div);
    TruncDivMono((s.played + a) * f.div, (s.played + a + b) * f.div, f.mul);
  }

  /** Seeking equals playing: asking for a samples and then for b executes the same commands, and ends
      in the same state, as asking for a + b at once, through any number of file loops. */
  lemma SeekIsPlay(f: File, s: Vgm, a: nat, j: nat, b: nat, k: nat)
    requires f.Valid() && RunsFor(f, s, a, j) && RunsFor(f, Interpreted(f, s, a, j), b, k)
    ensures RunsFor(f, s, a + b, j + k)
    ensures Interpreted(f, s, a + b, j + k) == Interpreted(f, Interpreted(f, s, a, j), b, k)
  {
    hide Iterate, Running;
    forall i: nat | i <= j + k
      ensures Running(f, Iterate(f, s, i), a + b) <==> i < j + k
    {
      if i < j {
        RunningMono(f, Iterate(f, s, i), a, b);
      } else {
        RunningLater(f, s, a, j, b, i - j);
        assert Running(f, Iterate(f, Interpreted(f, s, a, j), i - j), b) <==> i - j < k;
      }
    }
    IterateShift(f, Iterate(f, s, j), a, k);
    IterateAdd(f, s, j, k);
  }

  /** And the other way round: what comes back for a + b samples comes back after the first a. */
  lemma PlayIsSeek(f: File, s: Vgm, a: nat, j: nat, b: nat, all: nat)
    requires f.Valid() && RunsFor(f, s, a, j) && RunsFor(f, s, a + b, all)
    ensures j <= all && RunsFor(f, Interpreted(f, s, a, j), b, all - j)
  {
    hide Iterate, Running;
    if all < j {
      RunningMono(f, Iterate(f, s, all), a, b);
    }
    forall i: nat | i <= all - j
      ensures Running(f, Iterate(f, Interpreted(f, s, a, j), i), b) <==> i < all - j
    {
      RunningLater(f, s, a, j, b, i);
    }
  }

  lemma RunningLater(f: File, s: Vgm, a: nat, j: nat, b: nat, i: nat)
    requires f.Valid()
    ensures Running(f, Iterate(f, Interpreted(f, s, a, j), i), b) == Running(f, Iterate(f, s, j + i), a + b)
  {
    hide Iterate;
    IterateShift(f, Iterate(f, s, j), a, i);
    IterateAdd(f, s, j, i);
  }

  /** The number of commands is determined, so the two ways cannot differ. */
  lemma RunsForUnique(f: File, s: Vgm, count: nat, j: nat, k: nat)
    requires f.Valid() && RunsFor(f, s, count, j) && RunsFor(f, s, count, k)
    ensures j == k
  {
    assert j < k <==> Running(f, Iterate(f, s, j), count);
    assert k < j <==> Running(f, Iterate(f, s, k), count);
  }

  // ---------------------------------------------------------------- termination

  /** Samples waited from a position to the end of the pass. */
  function Delay(f: File, pos: nat): nat
    decreases f.eof - pos
  {
    if pos >= f.eof || f.Byte(pos) == 0x66 || Length(f, pos) == 0 then 0
    else Wait(f, pos) + Delay(f, pos + Length(f, pos))
  }

  lemma {:induction false} DelayBound(f: File, pos: nat)
    requires forall i: nat :: i < |f.data| ==> f.data[i] < 0x100
    ensures Delay(f, pos) <= if pos < f.eof then 0xFFFF * (f.eof - pos) else 0
    decreases f.eof - pos
  {
    if pos < f.eof && f.Byte(pos) != 0x66 && Length(f, pos) > 0 {
      DelayBound(f, pos + Length(f, pos));
    }
  }

  /** How far playback is ahead of the file, in units of 1 / (mul * div) of a second of either. */
  function Lead(f: File, s: Vgm, count: nat): int {
    (s.played + count) * f.div - s.smplPos * f.mul
  }

  /** What the lead gains by rounding whenever the file loops. */
  function LoopGain(f: File): nat
    requires f.Valid()
  {
    f.loopSamples * f.mul % f.div
  }

  /** A pass through the loop waits for more than the rounding gives back. */
  predicate LoopAdvances(f: File)
    requires f.Valid()
  {
    f.loopOffset == 0 || f.loopOffset >= f.eof || Delay(f, f.loopOffset) * f.mul > LoopGain(f)
  }

  lemma RunningLead(f: File, s: Vgm, count: nat)
    requires f.Valid()
    ensures Lead(f, s, count) >= 0 && !s.end ==> Running(f, s, count)
    ensures Running(f, s, count) ==> Lead(f, s, count) + f.mul > 0
  {
    var x, m := (s.played + count) * f.div, f.mul;
    if x >= 0 {
      DivBounds(x, m);
      if s.smplPos <= x / m {
        MulMono(s.smplPos, x / m, m);
      } else {
        MulMono(x / m + 1, s.smplPos, m);
        assert (x / m + 1) * m == x / m * m + m;
      }
    } else {
      DivBounds(-x, m);
      var q := (-x) / m;
      if s.smplPos <= -q {
        MulMono(s.smplPos, -q, m);
        assert (-q) * m == -(q * m);
      } else {
        MulMono(-q + 1, s.smplPos, m);
        assert (-q + 1) * m == -(q * m) + m;
      }
    }
  }

  /** Looping moves the lead up by the rounding gain; any other command moves it down by its wait. */
  lemma LeadStep(f: File, s: Vgm, count: nat)
    requires f.Valid() && !s.end && s.pos < f.eof
    ensures var t := Step(f, s);
      if f.Byte(s.pos) == 0x66 then
        && (f.loopOffset > 0 ==> Lead(f, t, count) == Lead(f, s, count) + LoopGain(f) && t.pos == f.loopOffset)
        && (t.end <==> f.loopOffset == 0 || f.loopOffset >= f.eof || AtEnd(f, s).end)
      else
        if Length(f, s.pos) == 0 then t.end
        else
          && Lead(f, t, count) == Lead(f, s, count) - Wait(f, s.pos) * f.mul
          && t.pos == s.pos + Length(f, s.pos) && t.end == (t.pos >= f.eof)
    ensures !Step(f, s).end ==> Step(f, s).pos < f.eof
  {
    hide Effect, Length, Wait, LoopGain, File.ToPlayback;
    EffectShift(f, s, 0);
    if f.Byte(s.pos) == 0x66 {
      LoopLead(f, s.played + count, s.smplPos);
    } else {
      assert (s.smplPos + Wait(f, s.pos)) * f.mul == s.smplPos * f.mul + Wait(f, s.pos) * f.mul;
    }
  }

  lemma LoopLead(f: File, played: int, smplPos: int)
    requires f.Valid()
    ensures (played - f.ToPlayback(f.loopSamples)) * f.div - (smplPos - f.loopSamples) * f.mul
            == played * f.div - smplPos * f.mul + LoopGain(f)
  {
    var l := f.loopSamples * f.mul;
    MulMono(0, f.loopSamples, f.mul);
    DivMono(0, l, f.div);
    var v := l / f.div;
    assert l == v * f.div + l % f.div;
    assert (played - v) * f.div == played * f.div - v * f.div;
    assert (smplPos - f.loopSamples) * f.mul == smplPos * f.mul - l;
  }

  predicate Bytes(f: File) {
    forall i: nat :: i < |f.data| ==> f.data[i] < 0x100
  }

  /** The lead that will be left at the end of the pass, raised to be positive while the loop runs. */
  function Rank(f: File, s: Vgm, count: nat): int {
    Lead(f, s, count) - Delay(f, s.pos) * f.mul + (1 + 0xFFFF * f.eof) * f.mul
  }

  lemma RankPositive(f: File, s: Vgm, count: nat)
    requires f.Valid() && Bytes(f) && Running(f, s, count)
    ensures Rank(f, s, count) > 0
  {
    RunningLead(f, s, count);
    DelayBound(f, s.pos);
    MulMono(Delay(f, s.pos), 0xFFFF * f.eof, f.mul);
    assert (1 + 0xFFFF * f.eof) * f.mul == f.mul + 0xFFFF * f.eof * f.mul;
  }

  lemma RankStep(f: File, s: Vgm, count: nat)
    requires f.Valid() && LoopAdvances(f) && !s.end && s.pos < f.eof && !Step(f, s).end
    ensures var t := Step(f, s);
            Rank(f, t, count) < Rank(f, s, count) || (Rank(f, t, count) == Rank(f, s, count) && t.pos > s.pos)
  {
    hide Step, Lead, Wait, Length, LoopGain;
    LeadStep(f, s, count);
    DelayStep(f, s.pos);
  }

  lemma DelayStep(f: File, pos: nat)
    requires pos < f.eof
    ensures if f.Byte(pos) == 0x66 then Delay(f, pos) == 0
            else Length(f, pos) > 0 ==>
              Delay(f, pos) * f.mul == Wait(f, pos) * f.mul + Delay(f, pos + Length(f, pos)) * f.mul
  {
    hide Wait, Length;
    if f.Byte(pos) != 0x66 && Length(f, pos) > 0 {
      assert Delay(f, pos) == Wait(f, pos) + Delay(f, pos + Length(f, pos));
    }
  }

  class Player {
    const file: File
    var pos: nat
    var smplPos: int
    var played: int
    var curLoop: nat
    var end: bool
    var endPlay: bool
    var fadePlay: bool
    var bank: seq<nat>
    var bankPos: nat
    var table: nat
    var blockPos: nat
    var blockCount: nat
    ghost var events: seq<Event>

    ghost function State(): Vgm
      reads this
    {
      Vgm(pos, smplPos, played, curLoop, end, endPlay, fadePlay, events, bank, bankPos, table, blockPos, blockCount)
    }

    ghost predicate Valid()
      reads this
    {
      file.Valid() && Bytes(file) && (!end ==> pos < file.eof)
    }

    constructor (file: File)
      requires file.Valid() && Bytes(file)
      ensures Valid() && this.file == file && State() == Start(file)
    {
      this.file := file;
      pos, smplPos, played, curLoop := file.dataOffset, 0, 0, 0;
      end, endPlay, fadePlay := file.dataOffset >= file.eof, false, false;
      bank, bankPos, table, blockPos, blockCount := [], 0, 0, 0, 0;
      events := [];
    }

    /** GetDACFromPCMBank. */
    method NextBankByte() returns (value: nat)
      modifies this`bankPos
      ensures if old(bankPos) < |bank| then value == bank[old(bankPos)] && bankPos == old(bankPos) + 1
              else value == 0x80 && bankPos == old(bankPos)
    {
      var dataPos := bankPos;
      if dataPos >= |bank| {
        return 0x80;
      }
      bankPos := bankPos + 1;
      value := bank[dataPos];
    }

    /** 0x70 to 0x8F: short waits, the second kind with a byte for the YM2612. */
    method ShortWait(command: nat)
      requires file.Valid() && command == file.Byte(pos) && 0x70 <= command < 0x90
      modifies this`pos, this`smplPos, this`bankPos, this`events
      ensures State() == Execute(file, old(State()))
    {
      if command / 0x10 == 7 {
        smplPos := smplPos + command % 0x10 + 1;
      } else {
        var value := NextBankByte();
        if file.ym2612 {
          events := events + [DacByte(value)];
        }
        smplPos := smplPos + command % 0x10;
      }
      pos := pos + 1;
    }

    /** 0x66. */
    method EndOfData(count: nat, smplPlayed: int) returns (due: int)
      requires file.Valid()
      modifies this`pos, this`smplPos, this`played, this`curLoop, this`fadePlay, this`end
      ensures State() == AtEnd(file, old(State()))
      ensures due == if file.loopOffset > 0 then file.FromPlayback(played + count) else smplPlayed
    {
      due := smplPlayed;
      if file.loopOffset > 0 {
        pos := file.loopOffset;
        smplPos := smplPos - file.loopSamples;
        played := played - file.ToPlayback(file.loopSamples);
        due := file.FromPlayback(played + count);
        curLoop := curLoop + 1;
        if file.maxLoop > 0 && curLoop >= file.maxLoop {
          fadePlay := true;
        }
        if fadePlay && file.fadeTime == 0 {
          end := true;
        }
      } else {
        end := true;
      }
    }

    /** AddPCMData; the banks other than the first are events. */
    method AddPcmData(kind: nat, size: nat)
      requires kind == file.Byte(pos + 2) < 0x80 && size == file.LE32(pos + 3) % 0x8000_0000
      modifies this`bank, this`table, this`blockPos, this`blockCount, this`events
      ensures State() == LoadBlock(file, old(State()))
    {
      var bankType := kind % 0x40;
      if curLoop > 0 {
        return;
      }
      if kind == 0x7F {
        table := pos;
        return;
      }
      if bankType != 0 {
        events := events + [Block(pos)];
        return;
      }
      blockPos := blockPos + 1;
      if blockPos <= blockCount {
        return;                  // already loaded when playback was restarted
      }
      blockCount := blockCount + 1;
      if kind < 0x40 {
        bank := bank + BlockData(file, pos + 7, size);
      } else {
        bank := bank + file.unpacked(pos, table);
      }
    }

    /** 0x67. */
    method ReadBlock()
      requires file.Valid() && file.Byte(pos) == 0x67
      modifies this`pos, this`bank, this`table, this`blockPos, this`blockCount, this`events
      ensures State() == Execute(file, old(State()))
    {
      hide File.LE32, LoadBlock;
      var kind, size := file.Byte(pos + 2), file.LE32(pos + 3) % 0x8000_0000;
      if kind < 0x80 {
        AddPcmData(kind, size);
      } else {
        BlockTold(file, State());
        if kind >= 0xC0 || curLoop == 0 {
          events := events + [Block(pos)];
        }
      }
      pos := pos + 7 + size;
    }

    /** The commands that neither wait nor redirect: passed on, one by one. */
    method Tell(command: nat)
      requires file.Valid() && command == file.Byte(pos)
      requires !(0x61 <= command <= 0x63) && command != 0x66 && command != 0x67 && !(0x70 <= command < 0x90)
      modifies this`pos, this`bankPos, this`end, this`endPlay, this`events
      ensures State() == Execute(file, old(State()))
    {
      hide File.LE32, LoadBlock, PlayBankByte;
      var length := Length(file, pos);
      if length == 0 {
        end, endPlay := true, true;
        return;
      }
      if command == 0xE0 {
        bankPos := file.LE32(pos + 1);
      } else if command >= 0x30 {
        events := events + [Command(pos)];
      }
      pos := pos + length;
    }

    /** One pass of InterpretVGM's loop. */
    method Interpret(count: nat, smplPlayed: int) returns (due: int)
      requires Valid() && !end && smplPlayed == file.FromPlayback(played + count)
      modifies this
      ensures Valid() && State() == Step(file, old(State()))
      ensures due == file.FromPlayback(played + count)
    {
      hide Execute, AtEnd, File.FromPlayback, File.LE16;
      ghost var before := State();
      var command := file.Byte(pos);
      due := smplPlayed;
      Redirected(file, before);
      if 0x70 <= command < 0x90 {
        ShortWait(command);
      } else if command == 0x66 {
        due := EndOfData(count, smplPlayed);
      } else if command == 0x61 {
        smplPos := smplPos + file.LE16(pos + 1);
        pos := pos + 3;
      } else if command == 0x62 {
        smplPos := smplPos + 735;
        pos := pos + 1;
      } else if command == 0x63 {
        smplPos := smplPos + 882;
        pos := pos + 1;
      } else if command == 0x67 {
        ReadBlock();
      } else {
        Tell(command);
      }
      if pos >= file.eof {
        end := true;
      }
      PlayedKept(file, before);
    }

    /** Executes what is due within the next count samples, wherever that comes to an end at all. */
    method InterpretFile(count: nat) returns (ghost k: nat)
      requires Valid() && ComesBack(file, State(), count)
      modifies this
      ensures Valid()
      ensures RunsFor(file, old(State()), count, k) && State() == Interpreted(file, old(State()), count, k)
    {
      hide Step, Execute;
      ghost var first := State();
      ghost var all: nat :| RunsFor(file, first, count, all);
      k := 0;
      var smplPlayed := file.FromPlayback(played + count);
      while !end && smplPos <= smplPlayed
        invariant State() == Iterate(file, first, k) && k <= all && Valid()
        invariant smplPlayed == file.FromPlayback(played + count)
        invariant forall i: nat :: i < k ==> Running(file, Iterate(file, first, i), count)
        decreases all - k
      {
        assert Running(file, Iterate(file, first, k), count);
        smplPlayed := Interpret(count, smplPlayed);
        k := k + 1;
      }
      played := played + count;
    }
  }

  /** A block for a chip of its own: its ROM only in the first pass, its RAM in every one. */
  lemma BlockTold(f: File, s: Vgm)
    requires f.Byte(s.pos + 2) >= 0x80
    ensures LoadBlock(f, s) ==
            if f.Byte(s.pos + 2) >= 0xC0 || s.curLoop == 0 then s.(events := s.events + [Block(s.pos)]) else s
  {
    hide File.LE32;
  }

  /** The commands Interpret deals with itself. */
  lemma Redirected(f: File, s: Vgm)
    requires f.Valid()
    ensures var c := f.Byte(s.pos);
      && (c == 0x66 ==> Execute(f, s) == AtEnd(f, s) && (f.loopOffset == 0 ==> AtEnd(f, s) == s.(end := true)))
      && (c == 0x61 ==> Execute(f, s) == Pass(s, 3, f.LE16(s.pos + 1)))
      && (c == 0x62 ==> Execute(f, s) == Pass(s, 1, 735))
      && (c == 0x63 ==> Execute(f, s) == Pass(s, 1, 882))
  {
    hide LoadBlock, File.LE16, File.LE32;
  }

  lemma StepInFile(f: File, s: Vgm)
    requires f.Valid()
    ensures !Step(f, s).end ==> Step(f, s).pos < f.eof
  {
    hide Execute;
  }

  /** Only looping changes the number of samples asked for. */
  lemma PlayedKept(f: File, s: Vgm)
    requires f.Valid()
    ensures f.Byte(s.pos) != 0x66 ==> Step(f, s).played == s.played
  {
    hide Effect, Length, Wait;
    EffectShift(f, s, 0);
  }

  ghost predicate ComesBack(f: File, s: Vgm, count: nat)
    requires f.Valid()
  {
    exists k: nat :: RunsFor(f, s, count, k)
  }

  /** InterpretVGM always comes back when loops advance. */
  lemma Terminates(f: File, s: Vgm, count: nat)
    requires f.Valid() && Bytes(f) && LoopAdvances(f) && (!s.end ==> s.pos < f.eof)
    ensures ComesBack(f, s, count)
  {
    hide Step, Rank, LoopAdvances, Running, Lead;
    var k: nat := 0;
    while Running(f, Iterate(f, s, k), count)
      invariant !Iterate(f, s, k).end ==> Iterate(f, s, k).pos < f.eof
      invariant forall i: nat :: i < k ==> Running(f, Iterate(f, s, i), count)
      decreases !Iterate(f, s, k).end, Rank(f, Iterate(f, s, k), count), f.eof - Iterate(f, s, k).pos
    {
      var t := Iterate(f, s, k);
      assert !t.end by { RunningNotEnded(f, t, count); }
      RankPositive(f, t, count);
      if !Step(f, t).end {
        RankStep(f, t, count);
      }
      LeadStep(f, t, count);
      k := k + 1;
    }
    assert RunsFor(f, s, count, k);
  }

  /** The pass from a position comes to the end-of-data command. */
  predicate ReachesEnd(f: File, pos: nat)
    decreases f.eof - pos
  {
    pos < f.eof && (f.Byte(pos) == 0x66 || (Length(f, pos) > 0 && ReachesEnd(f, pos + Length(f, pos))))
  }

  /** The loop is not cut short by ending the track after a number of passes. */
  predicate LoopsOn(f: File, s: Vgm) {
    f.fadeTime > 0 || (f.maxLoop == 0 && !s.fadePlay)
  }

  lemma EndlessStep(f: File, s: Vgm, count: nat)
    requires f.Valid() && f.loopOffset > 0 && ReachesEnd(f, f.loopOffset) && LoopsOn(f, s) && !LoopAdvances(f)
    requires !s.end && ReachesEnd(f, s.pos) && Lead(f, s, count) >= Delay(f, s.pos) * f.mul
    ensures var t := Step(f, s);
            !t.end && ReachesEnd(f, t.pos) && LoopsOn(f, t) && Lead(f, t, count) >= Delay(f, t.pos) * f.mul
  {
    hide Step, Lead, Wait, Length, LoopGain;
    LeadStep(f, s, count);
    DelayStep(f, s.pos);
    FadeKept(f, s);
  }

  /** Only looping starts a fade or counts a pass. */
  lemma FadeKept(f: File, s: Vgm)
    requires f.Valid()
    ensures f.Byte(s.pos) != 0x66 ==> Step(f, s).fadePlay == s.fadePlay && Step(f, s).curLoop == s.curLoop
    ensures f.Byte(s.pos) == 0x66 && f.loopOffset > 0 ==>
              && Step(f, s).curLoop == s.curLoop + 1
              && Step(f, s).fadePlay == (s.fadePlay || (f.maxLoop > 0 && s.curLoop + 1 >= f.maxLoop))
  {
    hide Effect, Length, Wait;
    EffectShift(f, s, 0);
  }

  /** When a pass does not wait for more than the rounding gives back, a loop that goes on never ends
      once the lead covers one pass. */
  lemma {:induction false} NeverEnds(f: File, s: Vgm, count: nat, k: nat)
    requires f.Valid() && f.loopOffset > 0 && ReachesEnd(f, f.loopOffset) && LoopsOn(f, s) && !LoopAdvances(f)
    requires !s.end && ReachesEnd(f, s.pos) && Lead(f, s, count) >= Delay(f, s.pos) * f.mul
    ensures var t := Iterate(f, s, k);
            && Running(f, t, count) && ReachesEnd(f, t.pos) && LoopsOn(f, t)
            && Lead(f, t, count) >= Delay(f, t.pos) * f.mul
  {
    hide Step, Lead, LoopGain, LoopAdvances, Delay, ReachesEnd, LoopsOn;
    if k > 0 {
      NeverEnds(f, s, count, k - 1);
      EndlessStep(f, Iterate(f, s, k - 1), count);
    }
    MulMono(0, Delay(f, Iterate(f, s, k).pos), f.mul);
    RunningLead(f, Iterate(f, s, k), count);
  }

  // The ways playback comes to an end by itself.

  /** The pass from pos or the one through the loop runs off the data, or the track ends after a number
      of passes. */
  predicate PlaysOut(f: File, pos: nat) {
    !ReachesEnd(f, pos) || !ReachesEnd(f, f.loopOffset) || (f.fadeTime == 0 && f.maxLoop > 0)
  }

  function PassesLeft(f: File, s: Vgm): nat {
    if !ReachesEnd(f, s.pos) then 0
    else if !ReachesEnd(f, f.loopOffset) || f.maxLoop <= s.curLoop then 1
    else f.maxLoop - s.curLoop
  }

  lemma PlaysOutStep(f: File, s: Vgm)
    requires f.Valid() && !s.end && s.pos < f.eof && PlaysOut(f, s.pos) && !Step(f, s).end
    ensures var t := Step(f, s);
            && PlaysOut(f, t.pos) && PassesLeft(f, t) <= PassesLeft(f, s)
            && (PassesLeft(f, t) < PassesLeft(f, s) || t.pos > s.pos)
  {
    hide Step, Lead, Wait, Length, LoopGain;
    LeadStep(f, s, 0);
    FadeKept(f, s);
  }

  lemma PlaysOutTerminates(f: File, s: Vgm, count: nat)
    requires f.Valid() && PlaysOut(f, s.pos) && (!s.end ==> s.pos < f.eof)
    ensures ComesBack(f, s, count)
  {
    hide Step, PassesLeft, PlaysOut, Running;
    var k: nat := 0;
    while Running(f, Iterate(f, s, k), count)
      invariant !Iterate(f, s, k).end ==> Iterate(f, s, k).pos < f.eof && PlaysOut(f, Iterate(f, s, k).pos)
      invariant forall i: nat :: i < k ==> Running(f, Iterate(f, s, i), count)
      decreases !Iterate(f, s, k).end, PassesLeft(f, Iterate(f, s, k)), f.eof - Iterate(f, s, k).pos
    {
      var t := Iterate(f, s, k);
      assert !t.end by { RunningNotEnded(f, t, count); }
      if !Step(f, t).end {
        PlaysOutStep(f, t);
        StepInFile(f, t);
      }
      k := k + 1;
    }
    assert RunsFor(f, s, count, k);
  }

  /** At a 1:1 rate one sample of delay in the loop is enough. */
  lemma OneToOne(f: File)
    requires f.mul == 1 && f.div == 1
    ensures LoopAdvances(f) <==> f.loopOffset == 0 || f.loopOffset >= f.eof || Delay(f, f.loopOffset) >= 1
  {
  }

  /** The state PlayVGM starts from. */
  function Start(f: File): Vgm {
    Vgm(f.dataOffset, 0, 0, 0, f.dataOffset >= f.eof, false, false, [], [], 0, 0, 0, 0)
  }

  /** So a file that comes back from its start for every number of samples does so after any of them. */
  lemma KeepsComingBack(f: File, a: nat, j: nat, b: nat)
    requires f.Valid() && (forall count: nat :: ComesBack(f, Start(f), count)) && RunsFor(f, Start(f), a, j)
    ensures ComesBack(f, Interpreted(f, Start(f), a, j), b)
  {
    assert ComesBack(f, Start(f), a + b);
    var all: nat :| RunsFor(f, Start(f), a + b, all);
    PlayIsSeek(f, Start(f), a, j, b, all);
  }

  /** The playback that hangs: it loops, nothing cuts the loop short, and a pass waits for no more than
      the rate conversion gives back. */
  predicate Hangs(f: File)
    requires f.Valid()
  {
    f.loopOffset > 0 && !PlaysOut(f, f.dataOffset) && !LoopAdvances(f)
  }

  /** From the start of playback, interpretation comes back for every number of samples if and only if
      the file does not hang. */
  lemma TerminatesExactly(f: File)
    requires f.Valid() && Bytes(f)
    ensures (forall count: nat :: ComesBack(f, Start(f), count)) <==> !Hangs(f)
  {
    hide PlaysOut, LoopAdvances, Lead;
    var s := Start(f);
    if !Hangs(f) {
      forall count: nat
        ensures ComesBack(f, s, count)
      {
        if PlaysOut(f, s.pos) {
          PlaysOutTerminates(f, s, count);
        } else {
          NoLoopAdvances(f);
          Terminates(f, s, count);
        }
      }
    } else {
      var count := Delay(f, f.dataOffset) * f.mul;
      MulMono(0, Delay(f, f.dataOffset), f.mul);
      StartLead(f, count);
      LoopsFromStart(f);
      forall k: nat
        ensures !RunsFor(f, s, count, k)
      {
        NeverEnds(f, s, count, k);
      }
      assert !ComesBack(f, s, count);
    }
  }

  /** Two bytes are enough: a file that loops to its own end command never comes back. */
  lemma EmptyLoopHangs(f: File)
    requires f.Valid() && f.data == [0, 0x66] && f.eof == 2 && f.dataOffset == f.loopOffset == 1
    requires f.loopSamples == 0 && f.maxLoop == 0
    ensures Hangs(f) && !ComesBack(f, Start(f), 0)
  {
    assert f.Byte(1) == 0x66;
    assert ReachesEnd(f, 1) && Delay(f, 1) == 0;
    StartLead(f, 0);
    forall k: nat
      ensures !RunsFor(f, Start(f), 0, k)
    {
      NeverEnds(f, Start(f), 0, k);
    }
  }

  lemma NoLoopAdvances(f: File)
    requires f.Valid()
    ensures f.loopOffset == 0 ==> LoopAdvances(f)
  {
  }

  lemma StartLead(f: File, count: nat)
    requires f.Valid()
    ensures Lead(f, Start(f), count) >= count
  {
    MulMono(1, f.div, count);
    assert Lead(f, Start(f), count) == f.div * count;
  }

  lemma LoopsFromStart(f: File)
    ensures !PlaysOut(f, f.dataOffset) ==>
              && ReachesEnd(f, f.dataOffset) && ReachesEnd(f, f.loopOffset)
              && LoopsOn(f, Start(f)) && !Start(f).end
  {
  }
}
