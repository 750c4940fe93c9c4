/** The OPL shadow registers of ChipMapper at full volume: writes that would not change the chip are
    suppressed, and while seeking nothing is written at all until StopSkipping catches up. */
module OplCache {

  const REGS: nat := 0x200

  /** Frequency registers of channels that do not exist, which StopSkipping leaves out. */
  predicate Sent(r: int) {
    var low := r % 0x100;
    r == 0xBD || !(0xA9 <= low < 0xB0 || 0xB9 <= low < 0xC0)
  }

  class Cache {
    const reg: array<int>        // OPLReg
    const bak: array<int>        // OPLRegBak
    const force: array<bool>     // OPLRegForce
    var skipMode: bool
    ghost var chip: seq<int>     // what the chip's registers hold

    ghost predicate Shape()
      reads this
    {
      reg.Length == bak.Length == force.Length == |chip| == REGS && reg != bak
    }

    /** Outside skip mode an unforced shadow register holds what the chip holds; in skip mode the
        backup does. */
    ghost predicate CoherentAt(r: nat)
      requires Shape() && r < REGS
      reads this, reg, bak, force
    {
      !force[r] ==> chip[r] == if skipMode then bak[r] else reg[r]
    }

    ghost predicate Valid()
      reads this, reg, bak, force
    {
      Shape() && forall r: nat :: r < REGS && Sent(r) ==> CoherentAt(r)
    }

    constructor ()
      ensures Valid() && !skipMode && fresh(reg) && fresh(bak) && fresh(force)
      ensures forall r: nat :: r < REGS ==> CoherentAt(r)
    {
      reg := new int[REGS](_ => 0);
      bak := new int[REGS](_ => 0);
      force := new bool[REGS](_ => true);
      skipMode := false;
      chip := seq(REGS, _ => 0);
    }

    /** OPL_HW_WriteReg. A suppressed write cannot be told from one that was sent. */
    method WriteReg(r: nat, data: int)
      requires Shape() && r < REGS
      modifies this`chip, reg, force
      ensures Shape() && reg[..] == old(reg[..])[r := data]
      ensures skipMode ==> chip == old(chip) && force[..] == old(force[..])
      ensures !skipMode && !old(force[r]) && old(reg[r]) == data ==> chip == old(chip) && force[..] == old(force[..])
      ensures !skipMode && (old(force[r]) || old(reg[r]) != data) ==>
                chip == old(chip)[r := data] && force[..] == old(force[..])[r := false]
      ensures !skipMode && old(CoherentAt(r)) ==> chip == old(chip)[r := data]
      ensures old(Valid()) ==> Valid()
    {
      if skipMode {
        reg[r] := data;
        return;
      }
      if data == reg[r] && !force[r] {
        return;
      }
      reg[r] := data;
      force[r] := false;
      chip := chip[r := data];
    }

    method StartSkipping()
      requires Valid()
      modifies this`skipMode, bak
      ensures Valid() && skipMode
      ensures !old(skipMode) ==> bak[..] == reg[..]
      ensures old(skipMode) ==> bak[..] == old(bak[..])
    {
      if skipMode {
        return;
      }
      skipMode := true;
      for i := 0 to REGS
        invariant forall j :: 0 <= j < i ==> bak[j] == reg[j]
        modifies bak
      {
        bak[i] := reg[i];
      }
    }

    /** The registers done have been sent again; the rest is as it was. */
    ghost predicate Resent(done: set<int>, want: seq<int>, chip0: seq<int>, force0: seq<bool>)
      reads this, reg, bak, force
    {
      && Shape() && !skipMode && reg[..] == want && |chip0| == |force0| == REGS
      && (forall r: nat :: r < REGS ==>
            if r in done then chip[r] == want[r] && !force[r] else chip[r] == chip0[r] && force[r] == force0[r])
      && (forall r: nat :: r < REGS && Sent(r) && !force0[r] && want[r] == bak[r] ==> chip0[r] == want[r])
    }

    /** Sends a register if it changed during skipping or the chip is not known to hold it. */
    method Resend(r: nat, ghost done: set<int>, ghost want: seq<int>, ghost chip0: seq<int>, ghost force0: seq<bool>)
      requires r < REGS && Sent(r) && Resent(done, want, chip0, force0)
      modifies this`chip, reg, force
      ensures Resent(done + {r}, want, chip0, force0)
    {
      force[r] := force[r] || reg[r] != bak[r];
      WriteReg(r, reg[r]);
    }

    predicate ReleaseReg(r: int) {
      0x80 <= r % 0x100 < 0xA0
    }

    /** The state between writes of the first part: the release registers may hold a fast release for
        the time being, and are then forced; everything else is as wanted. */
    ghost predicate Silencing(want: seq<int>, chip0: seq<int>, force0: seq<bool>)
      reads this, reg, bak, force
    {
      && Shape() && !skipMode && |want| == |chip0| == |force0| == REGS
      && (forall i: nat :: i < REGS && Sent(i) && !force[i] && want[i] == bak[i] ==> chip[i] == want[i])
      && (forall i: nat :: i < REGS && (!ReleaseReg(i) || !force[i]) ==> reg[i] == want[i])
      && (forall i: nat :: i < REGS && !Sent(i) ==> chip[i] == chip0[i] && force[i] == force0[i])
    }

    /** The chip is as it was, but for the registers given. */
    ghost predicate Untouched(before: seq<int>, touched: set<int>)
      reads this`chip
    {
      |chip| == |before| && forall i :: 0 <= i < |before| && i !in touched ==> chip[i] == before[i]
    }

    /** Sets the fastest release rate of one operator, to be undone later. The chip gets it unless the
        cache takes the write for a repetition: then the rate was the fastest already, or has become so
        while skipping, and in that case the chip keeps its old one. */
    method FastRelease(r: nat, ghost want: seq<int>, ghost chip0: seq<int>, ghost force0: seq<bool>)
      requires r < REGS && ReleaseReg(r) && Silencing(want, chip0, force0)
      modifies this`chip, reg, force
      ensures Silencing(want, chip0, force0) && Untouched(old(chip), {r})
      ensures force[r] && reg[r] == old(reg[r]) / 0x10 * 0x10 + 0x0F
      ensures forall i :: 0 <= i < REGS && i != r ==> reg[i] == old(reg[i]) && force[i] == old(force[i])
      ensures if old(force[r]) || old(reg[r]) % 0x10 != 0x0F then chip[r] % 0x10 == 0x0F else chip[r] == old(chip[r])
    {
      WriteReg(r, reg[r] / 0x10 * 0x10 + 0x0F);
      force[r] := true;
    }

    method KeyOff(r: nat, ghost want: seq<int>, ghost chip0: seq<int>, ghost force0: seq<bool>)
      requires r < REGS && 0xB0 <= r % 0x100 < 0xB9 && Silencing(want, chip0, force0)
      modifies this`chip, reg, force
      ensures Silencing(want, chip0, force0) && Untouched(old(chip), {r}) && chip[r] == want[r]
    {
      force[r] := force[r] || reg[r] != bak[r];
      WriteReg(r, reg[r]);
    }

    /** The operators' release registers of the channel whose key register is r. */
    function OpReg(r: nat): (op: nat)
      requires 0xB0 <= r < 0xB9
      ensures op <= 0x12
    {
      var c := r % 0x10;
      assert c == r - 0xB0 && 0 <= c / 3 <= 2;
      c / 3 * 8 + c % 3
    }

    /** The nine channels' first operators; the second one is three further on. */
    lemma OperatorTable(c: nat)
      requires c < 9
      ensures OpReg(0xB0 + c) == [0x00, 0x01, 0x02, 0x08, 0x09, 0x0A, 0x10, 0x11, 0x12][c]
    {
      assert (0xB0 + c) % 0x10 == c;
    }

    /** No two channels share an operator, so releasing one never touches another. */
    lemma OperatorsApart(c: nat, d: nat)
      requires c < d < 9
      ensures OpReg(0xB0 + c) != OpReg(0xB0 + d) && OpReg(0xB0 + c) + 3 != OpReg(0xB0 + d)
      ensures OpReg(0xB0 + c) != OpReg(0xB0 + d) + 3
    {
      hide OpReg;
      OperatorTable(c);
      OperatorTable(d);
    }

    /** The chip has the fastest release rate in register o, as far as the cache let it through. */
    ghost predicate Released(o: nat, wasForced: bool, was: int)
      requires o < |chip|
      reads this`chip
    {
      wasForced || was % 0x10 != 0x0F ==> chip[o] % 0x10 == 0x0F
    }

    /** Releases the note of one channel as fast as possible if it is off by now. */
    method SilenceChannel(port: nat, r: nat, ghost want: seq<int>, ghost chip0: seq<int>, ghost force0: seq<bool>)
      requires (port == 0 || port == 0x100) && 0xB0 <= r < 0xB9 && Silencing(want, chip0, force0)
      modifies this`chip, reg, force
      ensures Silencing(want, chip0, force0)
      ensures Untouched(old(chip), {port + r, port + 0x80 + OpReg(r), port + 0x83 + OpReg(r)})
      ensures if old(NoteOff(port + r, want, chip0, force0)) then
                && chip[port + r] == want[port + r]
                && var o := port + 0x80 + OpReg(r);
                   Released(o, old(force[o]), old(reg[o])) && Released(o + 3, old(force[o + 3]), old(reg[o + 3]))
              else chip == old(chip)
    {
      hide Silencing, ReleaseReg, OpReg;
      OperatorRegs(port, r);
      SilencingKeys(port + r, want, chip0, force0);
      var opReg := OpReg(r);
      if NoteOff(port + r, want, chip0, force0) {
        var o := port + 0x80 + opReg;
        FastRelease(o, want, chip0, force0);
        assert Released(o, old(force[o]), old(reg[o]));
        FastRelease(o + 3, want, chip0, force0);
        assert Released(o + 3, old(force[o + 3]), old(reg[o + 3]));
        KeyOff(port + r, want, chip0, force0);
      }
    }

    /** Both operators of a channel have their release rates among registers 0x80 to 0x9F. */
    lemma OperatorRegs(port: nat, r: nat)
      requires (port == 0 || port == 0x100) && 0xB0 <= r < 0xB9
      ensures var opReg := OpReg(r);
              && ReleaseReg(port + 0x80 + opReg) && ReleaseReg(port + 0x83 + opReg)
              && 0xB0 <= (port + r) % 0x100 < 0xB9
    {
      hide ReleaseReg;
      var c := r - 0xB0;
      assert r % 0x10 == c;
      assert 0 <= c / 3 <= 2 && 0 <= c % 3 <= 2;
      ReleaseRange(port, c / 3, c % 3);
      assert OpReg(r) == c / 3 * 8 + c % 3;
      assert (port + r) % 0x100 == r;
    }

    lemma ReleaseRange(port: nat, slot: int, rest: int)
      requires (port == 0 || port == 0x100) && 0 <= slot <= 2 && 0 <= rest <= 2
      ensures ReleaseReg(port + 0x80 + (slot * 8 + rest)) && ReleaseReg(port + 0x83 + (slot * 8 + rest))
    {
    }

    predicate NoteOff(r: nat, ghost want: seq<int>, ghost chip0: seq<int>, ghost force0: seq<bool>)
      requires r < REGS && Silencing(want, chip0, force0)
      reads this, reg, bak, force
    {
      reg[r] / 0x20 % 2 == 0
    }

    /** First part of StopSkipping: all channels of both ports. Notes that are off now are off on the
        chip before anything else is sent. */
    method SilenceNotes(ghost want: seq<int>, ghost chip0: seq<int>, ghost force0: seq<bool>)
      requires Silencing(want, chip0, force0)
      modifies this`chip, reg, force
      ensures Silencing(want, chip0, force0)
      ensures forall q: nat :: IsKey(q) ==> KeyedOff(q, want)
    {
      hide Silencing, KeyedOff, ReleaseReg, OpReg, Untouched, Released;
      for r := 0xB0 to 0xB9
        invariant Silencing(want, chip0, force0)
        invariant forall q: nat :: IsKey(q) && q % 0x100 < r ==> KeyedOff(q, want)
      {
        SilenceOne(0x100, r, want, chip0, force0);
        SilenceOne(0, r, want, chip0, force0);
      }
    }

    predicate IsKey(r: nat) {
      r < REGS && 0xB0 <= r % 0x100 < 0xB9
    }

    ghost predicate KeyedOff(r: nat, want: seq<int>)
      reads this`chip
    {
      r < |want| == |chip| && (want[r] / 0x20 % 2 == 0 ==> chip[r] == want[r])
    }

    /** Silencing one channel leaves those before it as they are. */
    method SilenceOne(port: nat, r: nat, ghost want: seq<int>, ghost chip0: seq<int>, ghost force0: seq<bool>)
      requires (port == 0 || port == 0x100) && 0xB0 <= r < 0xB9 && Silencing(want, chip0, force0)
      modifies this`chip, reg, force
      ensures Silencing(want, chip0, force0) && KeyedOff(port + r, want)
      ensures forall q: nat :: IsKey(q) && old(KeyedOff(q, want)) ==> KeyedOff(q, want)
    {
      hide ReleaseReg, OpReg;
      SilencingKeys(port + r, want, chip0, force0);
      SilenceChannel(port, r, want, chip0, force0);
    }

    /** Key registers hold what is wanted throughout. */
    lemma SilencingKeys(r: nat, want: seq<int>, chip0: seq<int>, force0: seq<bool>)
      requires r < REGS && 0xB0 <= r % 0x100 < 0xB9 && Silencing(want, chip0, force0)
      ensures reg.Length == force.Length == |chip| == |want| == REGS && reg[r] == want[r]
    {
    }

    /** The two memcpys around the first part. */
    method RestoreReleases(rrBuffer: array<int>, ghost want: seq<int>, ghost chip0: seq<int>, ghost force0: seq<bool>)
      requires Silencing(want, chip0, force0) && rrBuffer.Length == 0x40 && rrBuffer != bak && rrBuffer != reg
      requires forall i :: 0 <= i < 0x20 ==> rrBuffer[i] == want[0x80 + i]
      requires forall i :: 0x20 <= i < 0x40 ==> rrBuffer[i] == want[0x160 + i]
      modifies reg
      ensures Silencing(want, chip0, force0) && reg[..] == want
    {
      for i := 0 to 0x20
        invariant Silencing(want, chip0, force0)
        invariant forall j :: 0x80 <= j < 0x80 + i ==> reg[j] == want[j]
        invariant forall j :: 0x180 <= j < 0x180 + i ==> reg[j] == want[j]
      {
        reg[0x80 + i] := rrBuffer[i];
        reg[0x180 + i] := rrBuffer[0x20 + i];
      }
    }

    method SaveReleases() returns (rrBuffer: array<int>)
      requires Shape()
      ensures fresh(rrBuffer) && rrBuffer.Length == 0x40
      ensures forall i :: 0 <= i < 0x20 ==> rrBuffer[i] == reg[0x80 + i]
      ensures forall i :: 0x20 <= i < 0x40 ==> rrBuffer[i] == reg[0x160 + i]
    {
      rrBuffer := new int[0x40];
      for i := 0 to 0x20
        invariant forall j :: 0 <= j < i ==> rrBuffer[j] == reg[0x80 + j]
        invariant forall j :: 0x20 <= j < 0x20 + i ==> rrBuffer[j] == reg[0x160 + j]
      {
        rrBuffer[i] := reg[0x80 + i];
        rrBuffer[0x20 + i] := reg[0x180 + i];
      }
    }

    ghost predicate Only(done: set<int>) {
      forall r :: r in done ==> 0 <= r < REGS && Sent(r)
    }

    /** The scan from the top down, which jumps over the frequency registers and those already sent. */
    method SendDown(ghost before: set<int>, ghost want: seq<int>, ghost chip0: seq<int>, ghost force0: seq<bool>)
      returns (ghost done: set<int>)
      requires Resent(before, want, chip0, force0) && Only(before)
      modifies this`chip, reg, force
      ensures Resent(done, want, chip0, force0) && Only(done) && before <= done
      ensures forall r: nat :: r < REGS && InScan(r) ==> r in done
    {
      hide Resent, InScan, Sent;
      done := before;
      var r := 0x200;
      AfterJump(r);
      while r > 0
        invariant 0 <= r <= 0x200 && (r == 0 || InScan(r - 1))
        invariant Resent(done, want, chip0, force0) && Only(done) && before <= done
        invariant forall i: nat :: r <= i < REGS && InScan(i) ==> i in done
      {
        r := r - 1;
        AfterJump(r);
        Resend(r, done, want, chip0, force0);
        done := done + {r};
        if r % 0x100 == 0xC0 {
          r := r - 0x20;
        }
        if r % 0x100 == 0x20 {
          r := r - 0x20;
        }
      }
    }

    /** Where the scan goes on after register r, and that it passes over nothing it should send. */
    lemma AfterJump(r: nat)
      requires r <= 0x200
      ensures InScan(r) ==> Sent(r)
      ensures r == 0x200 ==> InScan(r - 1)
      ensures InScan(r) ==>
        var s := if r % 0x100 == 0xC0 then r - 0x20 else r;
        var t := if s % 0x100 == 0x20 then s - 0x20 else s;
        && 0 <= t <= r && (t == 0 || InScan(t - 1)) && forall i: nat :: t <= i < r ==> !InScan(i)
    {
      var port := if r < 0x100 then 0 else 0x100;
      forall i: nat | port <= i < port + 0x100
        ensures i % 0x100 == i - port
      {
      }
    }

    predicate InScan(r: int) {
      0x20 <= r % 0x100 < 0xA0 || 0xC0 <= r % 0x100
    }

    /** Second part of StopSkipping: sends everything, in the order the chip needs. */
    method SendAll(ghost want: seq<int>, ghost chip0: seq<int>, ghost force0: seq<bool>) returns (ghost done: set<int>)
      requires Resent({}, want, chip0, force0)
      modifies this`chip, reg, force
      ensures Resent(done, want, chip0, force0) && Only(done)
      ensures forall r: nat :: r < REGS && Sent(r) ==> r in done
    {
      hide Resent;
      done := {};
      Resend(0x105, done, want, chip0, force0);
      done := SendFirst(done + {0x105}, want, chip0, force0);
      ghost var first := done;
      done := SendDown(done, want, chip0, force0);
      done := SendFrequencies(done, want, chip0, force0);
      Resend(0xBD, done, want, chip0, force0);
      done := done + {0xBD};
    }

    /** One register of both ports, the second port first. */
    method ResendBoth(r: nat, ghost before: set<int>, ghost want: seq<int>, ghost chip0: seq<int>,
        ghost force0: seq<bool>)
      returns (ghost done: set<int>)
      requires r < 0x100 && Sent(r) && Sent(0x100 + r) && Resent(before, want, chip0, force0)
      modifies this`chip, reg, force
      ensures done == before + {0x100 + r, r} && Resent(done, want, chip0, force0)
    {
      hide Resent, Sent;
      Resend(0x100 + r, before, want, chip0, force0);
      done := before + {0x100 + r};
      Resend(r, done, want, chip0, force0);
      done := done + {r};
      assert done == before + {0x100 + r, r};
    }

    /** Registers 0x00 to 0x1F of both ports. */
    method SendFirst(ghost before: set<int>, ghost want: seq<int>, ghost chip0: seq<int>, ghost force0: seq<bool>)
      returns (ghost done: set<int>)
      requires Resent(before, want, chip0, force0) && Only(before)
      modifies this`chip, reg, force
      ensures Resent(done, want, chip0, force0) && Only(done) && before <= done
      ensures forall i: nat :: i < REGS && i % 0x100 < 0x20 ==> i in done
    {
      hide Resent;
      done := before;
      for r := 0 to 0x20
        invariant Resent(done, want, chip0, force0) && Only(done) && before <= done
        invariant forall i: nat :: i < r ==> i in done
        invariant forall i: nat :: 0x100 <= i < 0x100 + r ==> i in done
      {
        done := ResendBoth(r, done, want, chip0, force0);
      }
    }

    /** The frequency registers of the channels that exist. */
    method SendFrequencies(ghost before: set<int>, ghost want: seq<int>, ghost chip0: seq<int>, ghost force0: seq<bool>)
      returns (ghost done: set<int>)
      requires Resent(before, want, chip0, force0) && Only(before)
      modifies this`chip, reg, force
      ensures Resent(done, want, chip0, force0) && Only(done) && before <= done
      ensures forall i: nat :: i < REGS && 0xA0 <= i % 0x100 < 0xC0 && i % 0x10 < 9 ==> i in done
    {
      hide Resent;
      done := before;
      for r := 0xA0 to 0xC0
        invariant Resent(done, want, chip0, force0) && Only(done) && before <= done
        invariant forall i: nat :: 0xA0 <= i < r && i % 0x10 < 9 ==> i in done
        invariant forall i: nat :: 0x1A0 <= i < 0x100 + r && i % 0x10 < 9 ==> i in done
      {
        if r % 0x10 < 9 {
          done := ResendBoth(r, done, want, chip0, force0);
        }
      }
    }

    /** Ends seeking: the chip catches up with the shadow registers, which keep their values. The
        registers left out are not touched; one of them is coherent again exactly when seeking left
        it as it was, or its next write is forced. */
    method StopSkipping()
      requires Valid()
      modifies this`skipMode, this`chip, reg, force
      ensures Valid() && !skipMode && reg[..] == old(reg[..])
      ensures old(skipMode) ==> forall r: nat :: r < REGS && Sent(r) ==> chip[r] == reg[r] && !force[r]
      ensures old(skipMode) ==>
        forall r: nat :: r < 0x200 && (r % 0x100 < 0xA9 || 0xB0 <= r % 0x100 < 0xB9 || 0xC0 <= r % 0x100 || r == 0xBD) ==>
          chip[r] == reg[r]
      ensures forall r: nat :: r < REGS && !Sent(r) ==> chip[r] == old(chip[r]) && force[r] == old(force[r])
      ensures old(skipMode) ==> forall r: nat :: r < REGS && !Sent(r) && old(CoherentAt(r)) ==>
                (CoherentAt(r) <==> force[r] || reg[r] == bak[r])
      ensures !old(skipMode) ==> chip == old(chip) && force[..] == old(force[..])
    {
      if !skipMode {
        return;
      }
      skipMode := false;
      var rrBuffer := SaveReleases();
      ghost var want, chip0, force0 := reg[..], chip, force[..];
      SilenceNotes(want, chip0, force0);
      RestoreReleases(rrBuffer, want, chip0, force0);
      ghost var done := SendAll(want, chip, force[..]);
    }
  }

  /** A frequency register without a channel, written to while seeking: afterwards the cache takes a write
      of its value for a repetition, and the chip never gets it. */
  method LeftIncoherent() returns (cache: Cache)
    ensures cache.Valid() && !cache.skipMode && !cache.CoherentAt(0xA9)
    ensures cache.reg[0xA9] == 2 && cache.chip[0xA9] == 1
  {
    cache := new Cache();
    cache.WriteReg(0xA9, 1);
    cache.StartSkipping();
    cache.WriteReg(0xA9, 2);
    cache.StopSkipping();
    assert !cache.CoherentAt(0xA9);
    cache.WriteReg(0xA9, 2);
  }

  /** A release rate that became the fastest while seeking: StopSkipping's write of the fastest rate is
      held back, and the chip still has the slow one. */
  method HeldBack() returns (cache: Cache)
    ensures cache.Shape() && cache.reg[0x80] == 0x0F && cache.chip[0x80] == 0x05
  {
    cache := new Cache();
    cache.WriteReg(0x80, 0x05);
    cache.StartSkipping();
    cache.WriteReg(0x80, 0x0F);
    cache.skipMode := false;
    cache.FastRelease(0x80, cache.reg[..], cache.chip, cache.force[..]);
  }
}
