/** The clock of Sap_Cpu: time is kept relative to the moment the CPU must stop at, so that one sign test
    an instruction is enough. The stopping moment moves with the I flag. */
module SapCpu {

  /** What the clock sees of an instruction; the rest of its effect is not modelled. */
  datatype Op =
    | Other(extra: int)            // page crossings and branches taken add a clock, branches not taken lose one
    | Cli
    | Sei
    | Plp(inhibit: bool)           // with the I flag found on the stack
    | Rti(inhibit: bool)
    | Brk
    | Idle                         // BRK at or above the idle address
    | Halt                         // an unimplemented opcode

  datatype Instr = Instr(clocks: nat, op: Op)
  {
    /** Facts about the clock table: BRK is charged later, everything else takes two clocks or more. */
    predicate Valid() {
      match op
      case Other(extra) => clocks >= 2 && extra >= -1
      case Brk => clocks == 0
      case Idle => clocks == 0
      case _ => clocks >= 2
    }
  }

  ghost predicate ValidProgram(program: nat -> Instr) {
    forall i :: program(i).Valid()
  }

  // ---------------------------------------------------------------- absolute time

  /** The CPU on an absolute clock. at counts instructions; stopped means idle or halted. */
  datatype Machine = Machine(time: int, inhibit: bool, irq: int, at: nat, stopped: bool, illegal: bool)
  {
    /** The moment the CPU may not start an instruction at: the end, or an interrupt if those are let in. */
    function Limit(end: int): int {
      if !inhibit && irq < end then irq else end
    }

    /** Clearing the I flag when an interrupt is already due lets one more instruction run first. */
    function LetIn(end: int): Machine {
      this.(inhibit := false, irq := if irq <= time < end then time + 1 else irq)
    }

    function SetInhibit(i: bool, end: int): Machine {
      if i == inhibit then this else if i then this.(inhibit := true) else LetIn(end)
    }

    function Exec(instr: Instr, end: int): Machine {
      var m := this.(time := time + instr.clocks, at := at + 1);
      match instr.op
      case Other(extra) => m.(time := m.time + extra)
      case Cli => m.SetInhibit(false, end)
      case Sei => m.SetInhibit(true, end)
      case Plp(i) => m.SetInhibit(i, end)
      case Rti(i) => m.(inhibit := i)
      case Brk => m.(time := m.time + 7, inhibit := true)
      case Idle => m.(at := at, stopped := true)
      case Halt => m.(at := at, stopped := true, illegal := true)
    }

    /** Starts instructions while the limit allows. */
    ghost function Run(program: nat -> Instr, end: int): Machine
      requires ValidProgram(program)
      decreases if stopped then 0 else 1, end - time
    {
      if stopped || time >= Limit(end) then this
      else Exec(program(at), end).Run(program, end)
    }
  }

  /** The instruction clears the I flag after mid and before end, with an interrupt already due. */
  predicate ClearsLate(m: Machine, instr: Instr, mid: int, end: int) {
    && m.inhibit && (instr.op == Cli || instr.op == Plp(false))
    && m.irq <= m.time + instr.clocks && mid <= m.time + instr.clocks < end
  }

  /** The run to mid executes such an instruction; it can only be its last one. */
  ghost predicate LosesDelay(m: Machine, program: nat -> Instr, mid: int, end: int)
    requires ValidProgram(program)
    decreases if m.stopped then 0 else 1, mid - m.time
  {
    !m.stopped && m.time < m.Limit(mid)
    && (ClearsLate(m, program(m.at), mid, end) || LosesDelay(m.Exec(program(m.at), mid), program, mid, end))
  }

  /** Stopping on the way changes nothing, unless the run stops with an instruction that lets in an
      interrupt already due: a longer run would have started one more instruction first. */
  lemma {:induction false} RunSplit(m: Machine, program: nat -> Instr, mid: int, end: int)
    requires ValidProgram(program) && mid <= end
    ensures m.Run(program, mid).Run(program, end) == m.Run(program, end) <==> !LosesDelay(m, program, mid, end)
    decreases if m.stopped then 0 else 1, mid - m.time
  {
    if !m.stopped && m.time < m.Limit(mid) {
      var instr := program(m.at);
      assert instr.Valid();
      var next, whole := m.Exec(instr, mid), m.Exec(instr, end);
      assert m.Run(program, mid) == next.Run(program, mid);
      if ClearsLate(m, instr, mid, end) {
        assert next.Run(program, mid) == next == next.Run(program, end);
        IrqOnlyLater(whole, program, end);
      } else {
        assert next == whole;
        RunSplit(next, program, mid, end);
      }
    }
  }

  /** Nothing is lost while no interrupt is due before the end, as for a CPU that is never told of one. */
  lemma {:induction false} NoIrqNoLoss(m: Machine, program: nat -> Instr, mid: int, end: int)
    requires ValidProgram(program) && end <= m.irq
    ensures !LosesDelay(m, program, mid, end)
    decreases if m.stopped then 0 else 1, mid - m.time
  {
    if !m.stopped && m.time < m.Limit(mid) {
      assert program(m.at).Valid();
      NoIrqNoLoss(m.Exec(program(m.at), mid), program, mid, end);
    }
  }

  lemma {:induction false} IrqOnlyLater(m: Machine, program: nat -> Instr, end: int)
    requires ValidProgram(program)
    ensures m.Run(program, end).irq >= m.irq
    decreases if m.stopped then 0 else 1, end - m.time
  {
    if !m.stopped && m.time < m.Limit(end) {
      assert program(m.at).Valid();
      IrqOnlyLater(m.Exec(program(m.at), end), program, end);
    }
  }

  /** A run that loses it: the instruction after CLI, which ends the run, is started in the longer one only. */
  lemma SplitCanLoseDelay()
    ensures var program := (i: nat) => if i == 0 then Instr(2, Cli) else Instr(2, Other(0));
            var m := Machine(0, true, 1, 0, false, false);
            && ValidProgram(program)
            && m.Run(program, 2).Run(program, 10).time == 2
            && m.Run(program, 10).time == 4
  {
    var program := (i: nat) => if i == 0 then Instr(2, Cli) else Instr(2, Other(0));
    var m := Machine(0, true, 1, 0, false, false);
    var late := m.Exec(program(0), 2);
    assert m.Run(program, 2) == late.Run(program, 2) == late == late.Run(program, 10);
    var kept := m.Exec(program(0), 10);
    var next := kept.Exec(program(1), 10);
    assert m.Run(program, 10) == kept.Run(program, 10) == next.Run(program, 10) == next;
  }

  /** A run that has not idled or halted ends at its limit, at most one instruction late. */
  lemma {:induction false} RunEnds(m: Machine, program: nat -> Instr, end: int)
    requires ValidProgram(program)
    ensures var r := m.Run(program, end);
            && (r.stopped || r.time >= r.Limit(end))
            && r.time >= m.time && r.at >= m.at
    decreases if m.stopped then 0 else 1, end - m.time
  {
    if !m.stopped && m.time < m.Limit(end) {
      assert program(m.at).Valid();
      RunEnds(m.Exec(program(m.at), end), program, end);
    }
  }

  /** What n instructions take: the clocks of the table, one more or less as branches and page crossings have
      it, and seven for BRK, whose entry in the table is none. */
  function Clocks(program: nat -> Instr, at: nat, n: nat): int
    decreases n
  {
    if n == 0 then 0
    else
      var instr := program(at);
      (match instr.op
       case Other(extra) => instr.clocks + extra
       case Brk => 7
       case _ => instr.clocks)
      + Clocks(program, at + 1, n - 1)
  }

  /** The I flag after n instructions: as the last one that sets it left it. */
  function FlagAfter(program: nat -> Instr, inhibit: bool, at: nat, n: nat): bool
    decreases n
  {
    if n == 0 then inhibit
    else
      var next := match program(at).op
        case Cli => false
        case Sei => true
        case Plp(i) => i
        case Rti(i) => i
        case Brk => true
        case _ => inhibit;
      FlagAfter(program, next, at + 1, n - 1)
  }

  /** A run of any program takes exactly the clocks of the instructions it executes, interrupts due or not, and
      leaves the flag they leave; it stops before its time only at an instruction that idles or halts. */
  lemma {:induction false} ClocksAddUp(m: Machine, program: nat -> Instr, end: int)
    requires ValidProgram(program) && !m.stopped && !m.illegal
    ensures var r := m.Run(program, end);
      && r.at >= m.at
      && r.time == m.time + Clocks(program, m.at, r.at - m.at) + (if r.illegal then program(r.at).clocks else 0)
      && r.inhibit == FlagAfter(program, m.inhibit, m.at, r.at - m.at)
      && (r.stopped ==> program(r.at).op == Idle || program(r.at).op == Halt)
      && (r.illegal <==> r.stopped && program(r.at).op == Halt)
    decreases end - m.time
  {
    if m.time < m.Limit(end) {
      var instr := program(m.at);
      assert instr.Valid();
      var next := m.Exec(instr, end);
      if next.stopped {
        assert m.Run(program, end) == next.Run(program, end) == next;
      } else {
        ClocksAddUp(next, program, end);
        assert m.Run(program, end) == next.Run(program, end);
      }
    }
  }

  // ---------------------------------------------------------------- relative time

  class Cpu {
    var base: int                  // state.base
    var time: int                  // state.time, relative to base
    var irqTime: int
    var endTime: int
    var inhibit: bool              // the I flag of r.status
    var at: nat

    /** The check at the head of the loop. */
    ghost predicate Aligned()
      reads this`base, this`irqTime, this`endTime, this`inhibit
    {
      base == if !inhibit && irqTime < endTime then irqTime else endTime
    }

    ghost function Abs(t: int): Machine
      reads this`base, this`irqTime, this`inhibit, this`at
    {
      Machine(t + base, inhibit, irqTime, at, false, false)
    }

    /** reset. */
    constructor ()
      ensures time == 0 && base == 0 && inhibit && irqTime == endTime == 0x4000_0000 && at == 0
    {
      base, time := 0, 0;
      irqTime, endTime := 0x4000_0000, 0x4000_0000;
      inhibit, at := true, 0;
    }

    /** update_end_time: moves the base; what it returns keeps the absolute time. */
    method UpdateEndTime(end: int, irq: int) returns (delta: int)
      modifies this`base
      ensures base == (if irq < end && !inhibit then irq else end) && delta + base == old(base)
    {
      var t := end;
      if irq < t && !inhibit {
        t := irq;
      }
      delta := base - t;
      base := t;
    }

    method SetIrqTime(t: int)
      modifies this`irqTime, this`base, this`time
      ensures Aligned() && irqTime == t && time + base == old(time + base)
    {
      irqTime := t;
      var delta := UpdateEndTime(endTime, t);
      time := time + delta;
    }

    method SetEndTime(t: int)
      modifies this`endTime, this`base, this`time
      ensures Aligned() && endTime == t && time + base == old(time + base)
    {
      endTime := t;
      var delta := UpdateEndTime(t, irqTime);
      time := time + delta;
    }

    /** handle_cli, entered with the flag just cleared. */
    method HandleCli(sTime: int) returns (t: int)
      requires inhibit && Aligned()
      modifies this`inhibit, this`base, this`irqTime
      ensures Aligned() && Abs(t) == old(Abs(sTime)).LetIn(endTime)
    {
      inhibit, t := false, sTime;
      var delta := base - irqTime;
      if delta <= 0 {
        return;
      }
      base := irqTime;
      t := t + delta;
      if t < 0 {
        return;
      }
      if delta >= t + 1 {
        // the interrupt has to wait for one more instruction
        base := base + t + 1;
        t := -1;
        irqTime := base;
      }
    }

    /** handle_sei, entered with the flag just set. */
    method HandleSei(sTime: int) returns (t: int)
      modifies this`inhibit, this`base
      ensures Aligned() && Abs(t) == old(Abs(sTime)).(inhibit := true)
    {
      inhibit := true;
      var delta := base - endTime;
      base := endTime;
      t := sTime + delta;
    }

    /** RTI takes the flag as it is, and has no delay. */
    method HandleRti(sTime: int, i: bool) returns (t: int)
      requires Aligned()
      modifies this`inhibit, this`base
      ensures Aligned() && Abs(t) == old(Abs(sTime)).(inhibit := i)
    {
      t := sTime;
      var changed := i != inhibit;
      inhibit := i;
      if changed {
        var newTime := endTime;
        if !inhibit && newTime > irqTime {
          newTime := irqTime;
        }
        var delta := base - newTime;
        base := newTime;
        t := t + delta;
      }
    }

    /** The switch: one instruction, its table clocks already added. */
    method Execute(op: Op, sTime: int) returns (t: int, stop: bool, illegal: bool)
      requires Aligned()
      modifies this`base, this`irqTime, this`inhibit, this`at
      ensures Aligned()
      ensures old(Abs(sTime)).Exec(Instr(0, op), endTime) == Abs(t).(stopped := stop, illegal := illegal)
    {
      t, stop, illegal := sTime, false, false;
      at := at + 1;
      match op {
        case Other(extra) =>
          t := t + extra;
        case Cli =>
          if inhibit {
            t := HandleCli(t);
          }
        case Sei =>
          if !inhibit {
            t := HandleSei(t);
          }
        case Plp(i) =>
          if i != inhibit {
            if i {
              t := HandleSei(t);
            } else {
              t := HandleCli(t);
            }
          }
        case Rti(i) =>
          t := HandleRti(t, i);
        case Brk =>
          t := t + 7;
          t := HandleSei(t);
        case Idle =>
          at := at - 1;
          stop := true;
        case Halt =>
          at := at - 1;
          stop, illegal := true, true;
      }
    }

    /** From the head of the loop: the instruction is started if and only if its time is before the base. */
    method Step(instr: Instr, sTime: int) returns (t: int, started: bool, stop: bool, illegal: bool)
      requires Aligned() && instr.Valid()
      modifies this`base, this`irqTime, this`inhibit, this`at
      ensures Aligned() && started == (sTime + old(base) < old(Abs(sTime)).Limit(endTime))
      ensures if started then old(Abs(sTime)).Exec(instr, endTime) == Abs(t).(stopped := stop, illegal := illegal)
              else Abs(t) == old(Abs(sTime)) && !stop && !illegal
    {
      t, started, stop, illegal := sTime, true, false, false;
      var data: int := instr.clocks;
      t := t + data;
      if t >= 0 && t >= data {
        t := t - data;
        started := false;          // out_of_time
        return;
      }
      t, stop, illegal := Execute(instr.op, t);
    }

    /** run: the relative clock does what the absolute one does, and is aligned again whenever an
        instruction can start. */
    method Run(program: nat -> Instr, end: int) returns (illegal: bool, ghost stopped: bool)
      requires ValidProgram(program)
      modifies this
      ensures Aligned() && endTime == end
      ensures Abs(time).(stopped := stopped, illegal := illegal)
              == Machine(old(time + base), old(inhibit), old(irqTime), old(at), false, false).Run(program, end)
    {
      hide Machine.Run, Machine.Exec, Machine.Limit, Aligned;
      SetEndTime(end);
      var sTime := time;
      illegal, stopped := false, false;
      ghost var start := Abs(sTime);
      var running := true;
      while running
        invariant Aligned() && endTime == end
        invariant running ==> !stopped && !illegal && start.Run(program, end) == Abs(sTime).Run(program, end)
        invariant !running ==> start.Run(program, end) == Abs(sTime).(stopped := stopped, illegal := illegal)
        decreases running, end - (sTime + base)
      {
        ghost var before := Abs(sTime);
        RunOnce(before, program, end);
        var stop;
        sTime, running, stop, illegal := Step(program(at), sTime);
        stopped := stop;
        if stop {
          RunStopped(before.Exec(program(before.at), end), program, end);
          running := false;
        }
      }
      time := sTime;
    }
  }

  lemma RunOnce(m: Machine, program: nat -> Instr, end: int)
    requires ValidProgram(program) && !m.stopped
    ensures program(m.at).Valid()
    ensures if m.time < m.Limit(end) then
              && m.Run(program, end) == m.Exec(program(m.at), end).Run(program, end)
              && m.time < end
              && (m.Exec(program(m.at), end).stopped || m.Exec(program(m.at), end).time > m.time)
              && (m.Exec(program(m.at), end).illegal ==> m.illegal || m.Exec(program(m.at), end).stopped)
            else m.Run(program, end) == m
  {
    assert program(m.at).Valid();
  }

  lemma RunStopped(m: Machine, program: nat -> Instr, end: int)
    requires ValidProgram(program) && m.stopped
    ensures m.Run(program, end) == m
  {
  }
}
