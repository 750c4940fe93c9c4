/** What the VGM interpreter's commands mean: how long they wait, what they tell the chips, and that the
    sample bank is the file's data blocks in file order, handed out byte by byte. */
module VgmBank {
  import opened Arith
  import opened VgmPlayer

  // ---------------------------------------------------------------- single commands

  /** The commands that wait: 0x61 a given time, 0x62 and 0x63 a frame, 0x70 to 0x7F 1 to 16 samples. */
  lemma WaitCommands(f: File, s: Vgm)
    requires f.Valid() && s.pos < |f.data|
    ensures var c, t := f.data[s.pos], Execute(f, s);
      && (c == 0x61 && s.pos + 2 < |f.data| ==>
            t == s.(pos := s.pos + 3, smplPos := s.smplPos + f.data[s.pos + 1] + 0x100 * f.data[s.pos + 2]))
      && (c == 0x62 ==> t == s.(pos := s.pos + 1, smplPos := s.smplPos + 44100 / 60))
      && (c == 0x63 ==> t == s.(pos := s.pos + 1, smplPos := s.smplPos + 44100 / 50))
      && (0x70 <= c < 0x80 ==> t == s.(pos := s.pos + 1, smplPos := s.smplPos + c - 0x6F))
  {
  }

  /** The commands for the chips are passed on, each with the operands the format gives it. */
  lemma ChipCommands(f: File, s: Vgm)
    requires f.Valid() && s.pos < |f.data|
    ensures var c, t := f.data[s.pos], Execute(f, s);
      var told := s.(events := s.events + [Command(s.pos)]);
      && (0x30 <= c < 0x40 || c == 0x4F || c == 0x50 || c == 0x94 ==> t == told.(pos := s.pos + 2))
      && (0x40 <= c < 0x4F || 0x51 <= c < 0x60 || 0xA0 <= c < 0xC0 ==> t == told.(pos := s.pos + 3))
      && (0xC0 <= c < 0xE0 ==> t == told.(pos := s.pos + 4))
      && (0xE1 <= c < 0x100 || c == 0x90 || c == 0x91 || c == 0x95 ==> t == told.(pos := s.pos + 5))
      && (c == 0x92 ==> t == told.(pos := s.pos + 6))
      && (c == 0x93 ==> t == told.(pos := s.pos + 11))
      && (c == 0x68 ==> t == told.(pos := s.pos + 12))
  {
  }

  /** What no chip sees: the commands below 0x30 are passed over, and one whose length is not known ends
      playback for good. */
  lemma SilentCommands(f: File, s: Vgm)
    requires f.Valid() && s.pos < |f.data|
    ensures var c, t := f.data[s.pos], Execute(f, s);
      && (c < 0x30 ==> t == s.(pos := s.pos + 1))
      && (c == 0x60 || c == 0x64 || c == 0x65 || 0x69 <= c < 0x70 || 0x96 <= c < 0xA0 ==>
            t == s.(end := true, endPlay := true))
  {
  }

  /** The n commands from pos on are all one-byte commands from low to high. */
  ghost predicate InARow(f: File, pos: nat, n: nat, low: nat, high: nat) {
    forall i: nat :: pos <= i < pos + n ==> low <= f.Byte(i) <= high
  }

  lemma FrameStep(f: File, s: Vgm)
    requires f.Valid() && (f.Byte(s.pos) == 0x62 || f.Byte(s.pos) == 0x63)
    ensures var t := Step(f, s);
            && t.pos == s.pos + 1 && t.events == s.events
            && t.smplPos == s.smplPos + 44100 / (if f.Byte(s.pos) == 0x62 then 60 else 50)
  {
  }

  /** Sixty frames of the one kind, or fifty of the other, are exactly a second of 44100 samples. */
  lemma {:induction false} FramesPerSecond(f: File, s: Vgm, n: nat, c: nat)
    requires f.Valid() && (c == 0x62 || c == 0x63) && InARow(f, s.pos, n, c, c)
    ensures var t, rate := Iterate(f, s, n), if c == 0x62 then 60 else 50;
            && t.pos == s.pos + n && t.events == s.events
            && (t.smplPos - s.smplPos) * rate == n * 44100
  {
    hide Step;
    if n > 0 {
      FramesPerSecond(f, s, n - 1, c);
      FrameStep(f, Iterate(f, s, n - 1));
    }
  }

  // ---------------------------------------------------------------- the sample bank

  function DacBytes(events: seq<Event>): seq<nat> {
    if events == [] then []
    else
      var n := |events| - 1;
      DacBytes(events[..n]) + if events[n].DacByte? then [events[n].value] else []
  }

  lemma DacNext(events: seq<Event>, e: Event)
    ensures DacBytes(events + [e]) == DacBytes(events) + if e.DacByte? then [e.value] else []
  {
    assert (events + [e])[..|events|] == events;
  }

  predicate PlaysByte(f: File, s: Vgm) {
    0x80 <= f.Byte(s.pos) < 0x90
  }

  predicate Seeks(f: File, s: Vgm) {
    f.Byte(s.pos) == 0xE0
  }

  /** 0x80 to 0x8F hand out the byte at the present place and move on to the next one. */
  lemma ByteStep(f: File, s: Vgm)
    requires f.Valid() && PlaysByte(f, s)
    ensures var t, more := Step(f, s), s.bankPos < |s.bank|;
      && t.bank == s.bank && t.pos == s.pos + 1 && t.smplPos == s.smplPos + f.Byte(s.pos) - 0x80
      && t.bankPos == s.bankPos + (if more then 1 else 0)
      && t.events == if f.ym2612 then s.events + [DacByte(if more then s.bank[s.bankPos] else 0x80)] else s.events
  {
    hide LoadBlock;
  }

  /** 0xE0 moves to a place. */
  lemma SeekStep(f: File, s: Vgm)
    requires f.Valid() && Seeks(f, s)
    ensures Step(f, s).bankPos == f.Byte(s.pos + 1) + f.Byte(s.pos + 2) * 0x100 + f.Byte(s.pos + 3) * 0x1_0000
                                  + f.Byte(s.pos + 4) * 0x100_0000
    ensures Step(f, s).events == s.events && Step(f, s).bank == s.bank && Step(f, s).pos == s.pos + 5
  {
    hide LoadBlock, PlayBankByte;
  }

  /** Any other command leaves the place alone and hands out nothing; data blocks are put at the end. */
  lemma OtherStep(f: File, s: Vgm)
    requires f.Valid() && !PlaysByte(f, s) && !Seeks(f, s)
    ensures var t := Step(f, s);
      && s.bank <= t.bank && t.bankPos == s.bankPos
      && (t.events == s.events || (exists e: Event :: !e.DacByte? && t.events == s.events + [e]))
  {
    hide File.ToPlayback, File.LE32, Length, Wait, Effect;
    var t := Effect(f, s);
    OtherEffect(f, s);
    if t.events != s.events {
      var e: Event :| !e.DacByte? && t.events == s.events + [e];
      assert !e.DacByte?;
    }
  }

  lemma OtherEffect(f: File, s: Vgm)
    requires f.Valid() && !PlaysByte(f, s) && !Seeks(f, s)
    ensures var t := Effect(f, s);
      && s.bank <= t.bank && t.bankPos == s.bankPos
      && (t.events == s.events || (exists e: Event :: !e.DacByte? && t.events == s.events + [e]))
  {
    hide File.LE32, BlockData;
    var t := Effect(f, s);
    assert t.events == s.events || t.events == s.events + [Command(s.pos)] || t.events == s.events + [Block(s.pos)];
    assert !Command(s.pos).DacByte? && !Block(s.pos).DacByte?;
  }

  lemma BankStep(f: File, s: Vgm)
    requires f.Valid()
    ensures var t := Step(f, s);
      && s.bank <= t.bank
      && (!PlaysByte(f, s) ==> DacBytes(t.events) == DacBytes(s.events) && (!Seeks(f, s) ==> t.bankPos == s.bankPos))
  {
    hide Step, DacBytes, PlaysByte, Seeks;
    if PlaysByte(f, s) {
      ByteStep(f, s);
    } else if Seeks(f, s) {
      SeekStep(f, s);
    } else {
      OtherStep(f, s);
      if Step(f, s).events != s.events {
        var e: Event :| !e.DacByte? && Step(f, s).events == s.events + [e];
        DacNext(s.events, e);
      }
    }
  }

  /** n of them in a row, with as many bytes left in the bank, hand out exactly these bytes, in order. */
  lemma {:induction false} BytesInARow(f: File, s: Vgm, n: nat)
    requires f.Valid() && f.ym2612 && InARow(f, s.pos, n, 0x80, 0x8F) && s.bankPos + n <= |s.bank|
    ensures var t := Iterate(f, s, n);
            && t.pos == s.pos + n && t.bank == s.bank && t.bankPos == s.bankPos + n
            && t.events == s.events + seq(n, (i: nat) requires i < n => DacByte(s.bank[s.bankPos + i]))
  {
    hide Step;
    if n > 0 {
      BytesInARow(f, s, n - 1);
      ByteStep(f, Iterate(f, s, n - 1));
    }
  }

  /** None of the next k commands moves to another place in the bank. */
  ghost predicate NoSeek(f: File, s: Vgm, k: nat)
    requires f.Valid()
  {
    forall i: nat :: i < k ==> !Seeks(f, Iterate(f, s, i))
  }

  /** Each of them that hands out a byte finds one. */
  ghost predicate NeverDry(f: File, s: Vgm, k: nat)
    requires f.Valid()
  {
    forall i: nat :: i < k && PlaysByte(f, Iterate(f, s, i)) ==> Iterate(f, s, i).bankPos < |Iterate(f, s, i).bank|
  }

  /** How many of them hand out a byte. */
  ghost function BytesPlayed(f: File, s: Vgm, k: nat): nat
    requires f.Valid()
  {
    if k == 0 then 0 else BytesPlayed(f, s, k - 1) + if PlaysByte(f, Iterate(f, s, k - 1)) then 1 else 0
  }

  /** Between two seeks the bytes handed out are one consecutive stretch of the bank, however the commands
      are spread over the file and whatever is loaded meanwhile. */
  lemma {:induction false} StretchHeard(f: File, s: Vgm, k: nat)
    requires f.Valid() && f.ym2612 && NoSeek(f, s, k) && NeverDry(f, s, k)
    ensures var n, t := BytesPlayed(f, s, k), Iterate(f, s, k);
            && s.bank <= t.bank && t.bankPos == s.bankPos + n && (n > 0 ==> t.bankPos <= |t.bank|)
            && DacBytes(t.events) == DacBytes(s.events) + if n > 0 then t.bank[s.bankPos..t.bankPos] else []
  {
    hide Step, DacBytes;
    if k > 0 {
      StretchHeard(f, s, k - 1);
      var u := Iterate(f, s, k - 1);
      BankStep(f, u);
      if PlaysByte(f, u) {
        ByteStep(f, u);
        DacNext(u.events, DacByte(u.bank[u.bankPos]));
      }
    }
  }

  /** What the bank gives from place p on: its bytes, and 0x80 for ever once they are used up. */
  function FromBank(bank: seq<nat>, p: nat, n: nat): seq<nat> {
    seq<nat>(n, (i: nat) => if p + i < |bank| then bank[p + i] else 0x80)
  }

  /** With no block loaded between the seeks, that is what is heard even if the bank runs dry. */
  lemma {:induction false} RunsDry(f: File, s: Vgm, k: nat)
    requires f.Valid() && f.ym2612 && NoSeek(f, s, k) && Iterate(f, s, k).bank == s.bank
    ensures var n, t := BytesPlayed(f, s, k), Iterate(f, s, k);
            && DacBytes(t.events) == DacBytes(s.events) + FromBank(s.bank, s.bankPos, n)
            && t.bankPos == if s.bankPos + n <= |s.bank| then s.bankPos + n
                            else if s.bankPos <= |s.bank| then |s.bank| else s.bankPos
  {
    hide Step, DacBytes;
    if k > 0 {
      var u := Iterate(f, s, k - 1);
      BankStep(f, u);
      BankGrows(f, s, k - 1);
      RunsDry(f, s, k - 1);
      if PlaysByte(f, u) {
        ByteStep(f, u);
        DacNext(u.events, DacByte(if u.bankPos < |u.bank| then u.bank[u.bankPos] else 0x80));
      }
    }
  }

  lemma {:induction false} BankGrows(f: File, s: Vgm, k: nat)
    requires f.Valid()
    ensures s.bank <= Iterate(f, s, k).bank
  {
    hide Step;
    if k > 0 {
      BankGrows(f, s, k - 1);
      BankStep(f, Iterate(f, s, k - 1));
    }
  }

  // ---------------------------------------------------------------- where the bank comes from

  /** The sample data of the blocks from a position of the file to the end of the pass, one after the other;
      table is where the value table in force was loaded. */
  ghost function FileBank(f: File, pos: nat, table: nat): seq<nat>
    decreases f.eof - pos
  {
    if pos >= f.eof || f.Byte(pos) == 0x66 || Length(f, pos) == 0 then []
    else BlockSamples(f, pos, table) + FileBank(f, pos + Length(f, pos), TableFrom(f, pos, table))
  }

  predicate IsBlock(f: File, pos: nat, kind: nat) {
    f.Byte(pos) == 0x67 && f.Byte(pos + 2) == kind
  }

  /** The samples of the block at pos, if there is one for bank 0: stored as they are, or unpacked. */
  ghost function BlockSamples(f: File, pos: nat, table: nat): seq<nat> {
    if IsBlock(f, pos, 0x00) then seq<nat>(BlockSize(f, pos), (i: nat) => f.Byte(pos + 7 + i))
    else if IsBlock(f, pos, 0x40) then f.unpacked(pos, table)
    else []
  }

  ghost function TableFrom(f: File, pos: nat, table: nat): nat {
    if IsBlock(f, pos, 0x7F) then pos else table
  }

  /** The top bit of the size names the second chip. */
  function BlockSize(f: File, pos: nat): nat {
    f.Byte(pos + 3) + f.Byte(pos + 4) * 0x100 + f.Byte(pos + 5) * 0x1_0000 + f.Byte(pos + 6) % 0x80 * 0x100_0000
  }

  lemma SizeIs(f: File, pos: nat)
    requires Bytes(f)
    ensures f.LE32(pos + 3) % 0x8000_0000 == BlockSize(f, pos)
  {
    var b := f.Byte(pos + 6);
    assert b == b / 0x80 * 0x80 + b % 0x80;
    assert f.Byte(pos + 3) < 0x100 && f.Byte(pos + 4) < 0x100 && f.Byte(pos + 5) < 0x100 && b < 0x100;
    DivIs(f.LE32(pos + 3), 0x8000_0000, b / 0x80);
  }

  /** A data block is seven bytes of header and its data, and takes no time. */
  lemma BlockCommand(f: File, s: Vgm)
    requires f.Valid() && Bytes(f) && f.Byte(s.pos) == 0x67
    ensures var t := Execute(f, s);
            t.pos == s.pos + 7 + BlockSize(f, s.pos) && t.smplPos == s.smplPos && !(t.end && !s.end)
  {
    SizeIs(f, s.pos);
    hide File.LE32, BlockSize, BlockData;
  }

  /** In the first pass every block is new. */
  ghost predicate FirstPass(s: Vgm) {
    s.curLoop == 0 && s.blockPos == s.blockCount
  }

  lemma DataIs(f: File, pos: nat, size: nat)
    ensures BlockData(f, pos + 7, size) == seq<nat>(size, (i: nat) => f.Byte(pos + 7 + i))
  {
  }

  lemma LoadIs(f: File, s: Vgm)
    requires f.Valid() && Bytes(f) && f.Byte(s.pos) == 0x67
    ensures var t := LoadBlock(f, s);
      if s.curLoop > 0 then t.bank == s.bank
      else FirstPass(s) ==>
        FirstPass(t) && t.bank == s.bank + BlockSamples(f, s.pos, s.table) && t.table == TableFrom(f, s.pos, s.table)
  {
    SizeIs(f, s.pos);
    hide File.LE32, BlockSize, BlockData;
    DataIs(f, s.pos, BlockSize(f, s.pos));
  }

  lemma NoLoad(f: File, s: Vgm)
    requires f.Valid() && f.Byte(s.pos) != 0x67
    ensures var t := Step(f, s);
            t.bank == s.bank && t.table == s.table && t.blockPos == s.blockPos && t.blockCount == s.blockCount
  {
    hide File.ToPlayback, File.LE32, Length, Wait, Effect;
    EffectLoadsNothing(f, s);
  }

  lemma EffectLoadsNothing(f: File, s: Vgm)
    requires f.Byte(s.pos) != 0x67
    ensures var t := Effect(f, s);
            t.bank == s.bank && t.table == s.table && t.blockPos == s.blockPos && t.blockCount == s.blockCount
  {
    hide File.LE32;
  }

  lemma LoadStep(f: File, s: Vgm)
    requires f.Valid() && !s.end && s.pos < f.eof && Bytes(f)
    ensures var t := Step(f, s);
      && (FirstPass(s) && f.Byte(s.pos) != 0x66 && Length(f, s.pos) > 0 ==>
            && FirstPass(t)
            && t.bank == s.bank + BlockSamples(f, s.pos, s.table) && t.table == TableFrom(f, s.pos, s.table))
      && (f.Byte(s.pos) == 0x66 || Length(f, s.pos) == 0 || s.curLoop > 0 ==> t.bank == s.bank)
  {
    FadeKept(f, s);
    hide Length, Wait, LoadBlock;
    if f.Byte(s.pos) == 0x67 {
      LoadIs(f, s);
      assert Length(f, s.pos) > 0 ==> Step(f, s).bank == LoadBlock(f, s).bank;
    } else {
      NoLoad(f, s);
    }
  }

  /** The bank and what the rest of the file still brings are together the blocks of the whole file; once
      the pass is over the bank is complete, and looping adds nothing. */
  ghost predicate BankIsFile(f: File, s: Vgm) {
    if s.curLoop == 0 && !s.end then FirstPass(s) && s.bank + FileBank(f, s.pos, s.table) == FileBank(f, f.dataOffset, 0)
    else s.bank == FileBank(f, f.dataOffset, 0)
  }

  lemma FileBankStep(f: File, pos: nat, table: nat)
    requires pos < f.eof
    ensures FileBank(f, pos, table) ==
            if f.Byte(pos) == 0x66 || Length(f, pos) == 0 then []
            else BlockSamples(f, pos, table) + FileBank(f, pos + Length(f, pos), TableFrom(f, pos, table))
  {
  }

  lemma PassStep(f: File, s: Vgm)
    requires f.Valid() && Bytes(f) && !s.end && s.pos < f.eof && BankIsFile(f, s)
    ensures BankIsFile(f, Step(f, s)) && (!Step(f, s).end ==> Step(f, s).pos < f.eof)
  {
    hide Step, FileBank, BlockSamples, TableFrom, Length, Wait, LoopGain;
    LoadStep(f, s);
    LeadStep(f, s, 0);
    FadeKept(f, s);
    FileBankStep(f, s.pos, s.table);
    FileBankEnd(f, Step(f, s).pos, Step(f, s).table);
    if s.curLoop == 0 && f.Byte(s.pos) != 0x66 && Length(f, s.pos) > 0 {
      assert s.bank + (BlockSamples(f, s.pos, s.table) + FileBank(f, Step(f, s).pos, Step(f, s).table))
             == Step(f, s).bank + FileBank(f, Step(f, s).pos, Step(f, s).table);
    }
  }

  lemma FileBankEnd(f: File, pos: nat, table: nat)
    ensures pos >= f.eof ==> FileBank(f, pos, table) == []
  {
  }

  /** Every command keeps that. */
  lemma {:induction false} BankKept(f: File, s: Vgm, k: nat)
    requires f.Valid() && Bytes(f) && BankIsFile(f, s) && (!s.end ==> s.pos < f.eof)
    requires forall i: nat :: i < k ==> !Iterate(f, s, i).end
    ensures BankIsFile(f, Iterate(f, s, k)) && (!Iterate(f, s, k).end ==> Iterate(f, s, k).pos < f.eof)
  {
    hide Step, BankIsFile;
    if k > 0 {
      BankKept(f, s, k - 1);
      PassStep(f, Iterate(f, s, k - 1));
    }
  }

  lemma BankAtStart(f: File)
    ensures BankIsFile(f, Start(f))
  {
    FileBankEnd(f, f.dataOffset, 0);
  }

  /** So whatever has been executed of a file from its start, its bank and what is still to come of the
      first pass are exactly the file's blocks in file order. */
  lemma BankOfFile(f: File, count: nat, k: nat)
    requires f.Valid() && Bytes(f) && RunsFor(f, Start(f), count, k)
    ensures BankIsFile(f, Interpreted(f, Start(f), count, k))
  {
    hide Iterate, Running, BankIsFile;
    BankAtStart(f);
    forall i: nat | i < k
      ensures !Iterate(f, Start(f), i).end
    {
      RunningNotEnded(f, Iterate(f, Start(f), i), count);
    }
    BankKept(f, Start(f), k);
    SameBank(f, Iterate(f, Start(f), k), count);
  }

  lemma SameBank(f: File, s: Vgm, count: int)
    ensures BankIsFile(f, Shift(s, count)) == BankIsFile(f, s)
  {
  }

  function Sum(counts: seq<nat>): nat {
    if counts == [] then 0 else Sum(counts[..|counts| - 1]) + counts[|counts| - 1]
  }

  /** A file that does not hang, played from its start in any pieces: the same commands have been executed as
      for all the samples at once, and the bank is the file's. */
  method PlayInPieces(file: File, counts: seq<nat>) returns (player: Player, ghost k: nat)
    requires file.Valid() && Bytes(file) && !Hangs(file)
    ensures player.Valid() && RunsFor(file, Start(file), Sum(counts), k)
    ensures player.State() == Interpreted(file, Start(file), Sum(counts), k)
    ensures BankIsFile(file, player.State())
  {
    hide Hangs, Iterate, Running, BankIsFile;
    TerminatesExactly(file);
    player := new Player(file);
    k := player.InterpretFile(0);
    for i := 0 to |counts|
      invariant player.Valid() && player.file == file && fresh(player)
      invariant RunsFor(file, Start(file), Sum(counts[..i]), k)
      invariant player.State() == Interpreted(file, Start(file), Sum(counts[..i]), k)
    {
      assert counts[..i + 1][..i] == counts[..i];
      KeepsComingBack(file, Sum(counts[..i]), k, counts[i]);
      ghost var j := player.InterpretFile(counts[i]);
      SeekIsPlay(file, Start(file), Sum(counts[..i]), k, counts[i], j);
      k := k + j;
    }
    assert counts[..|counts|] == counts;
    BankOfFile(file, Sum(counts), k);
  }
}
