/** How many data accesses a command takes, although one access may cross several phases. */
module FdcTermination {
  import opened Bytes
  import opened Floppy
  import opened FdcModel
  import opened FdcInvariant
  import opened FdcProtocol

  /** The accesses a command still needs outside its execution phase. */
  function Owed(s: Fdc): int {
    match s.c.phase
    case Cmd => 0
    case Args => s.x.rwmax - s.x.rwcount + s.c.op.GetOr(Invalid).ResultLen()
    case Exec => s.c.op.GetOr(Invalid).ResultLen()
    case Result => s.x.rwmax - s.x.rwcount
  }

  function Rank(p: Phase): nat {
    match p
    case Args => 2
    case Exec => 1
    case Result | Cmd => 0
  }

  /** What one access does to a command that is under way. */
  predicate Counts(s: Fdc, t: Fdc) {
    && t.c.op == s.c.op
    && Rank(t.c.phase) <= Rank(s.c.phase)
    && Owed(t) == Owed(s) - (if s.Is(Exec) then 0 else 1)
    && (t.Is(Cmd) <==> Owed(t) == 0)
  }

  lemma PostKeepsControl(s: Fdc, op: Op)
    requires !s.fault && !PostExec(s, op).fault
    ensures PostExec(s, op).c == s.c
  {
    if op.FormatTrack? {
      FieldsKeep(s, s.Spt());
    }
  }

  lemma LeaveCounts(s: Fdc, op: Op)
    requires !s.fault && s.c.op == Some(op) && s.Is(Exec) && !Leave(s, op).fault
    ensures var t := Leave(s, op);
      && t.c.op == s.c.op && Owed(t) == op.ResultLen() && (t.Is(Cmd) <==> Owed(t) == 0)
      && Rank(t.c.phase) <= 1 && (t.Is(Exec) <==> op.HasExec() && !s.x.tc)
  {
    hide PostExec;
    var e := s.(c := s.c.(dio := true), x := s.x.(tc := false));
    if s.x.tc || !op.HasExec() {
      PostKeepsControl(e, op);
    }
  }

  lemma ArgsCount(s: Fdc, op: Op)
    requires Good(s) && !s.fault && s.Is(Args) && s.c.op == Some(op) && !NextStatus(s).fault
    ensures Counts(s, NextStatus(s))
  {
    var s1 := EnterArgs(s, op);
    if s1.x.rwcount == s1.x.rwmax {
      Starts(s1.(c := s1.c.(phase := Exec)), op);
      LeaveCounts(EnterExec(s1, op), op);
    }
  }

  lemma ExecCounts(s: Fdc, value: byte)
    requires Good(s) && !s.fault && s.Is(Exec) && !ExecStep(s, s.c.op.value, value).s.fault
    ensures Counts(s, NextStatus(ExecStep(s, s.c.op.value, value).s))
  {
    var op := s.c.op.value;
    ExecAccess(s, value);
    ExecKeeps(s, op, value);
    LeaveCounts(ExecStep(s, op, value).s, op);
  }

  /**
   * Every access to a command under way brings it closer to its end: outside the execution phase
   * it settles exactly one owed access; in the execution phase it settles none, and never goes
   * back to an earlier phase. The command is over exactly when nothing is owed.
   */
  lemma AccessCounts(s: Fdc, e: Option<byte>)
    requires Good(s) && !s.fault && !s.Is(Cmd) && !Access(s, e).fault
    ensures Counts(s, Access(s, e)) && Good(Access(s, e))
  {
    DataAccess(s, e.GetOr(0));
    match s.c.phase
    case Args =>
      ArgsCount(if e.None? then Calm(s) else OutPhase(Calm(s), e.value), s.c.op.value);
    case Exec => ExecCounts(Calm(s), e.GetOr(0));
    case Result =>
  }

  /** A command under way that will not enter an execution phase any more. */
  predicate Straight(s: Fdc) {
    Good(s) && !s.fault && (s.Is(Result) || s.Is(Cmd) || (s.Is(Args) && !s.c.op.value.HasExec()))
  }

  lemma StraightStep(s: Fdc, e: Option<byte>)
    requires Straight(s) && !s.Is(Cmd)
    ensures var t := Access(s, e);
      Straight(t) && Owed(t) == Owed(s) - 1 && (t.Is(Cmd) <==> Owed(t) == 0)
  {
    DataAccess(s, e.GetOr(0));
    AccessCounts(s, e);
    if s.Is(Args) {
      NoExecution(if e.None? then Calm(s) else OutPhase(Calm(s), e.value), s.c.op.value);
    }
  }

  lemma NoExecution(s: Fdc, op: Op)
    requires Good(s) && !s.fault && s.Is(Args) && s.c.op == Some(op) && !op.HasExec()
    ensures !NextStatus(s).Is(Exec)
  {
    var s1 := EnterArgs(s, op);
    if s1.x.rwcount == s1.x.rwmax {
      Starts(s1.(c := s1.c.(phase := Exec)), op);
      LeaveCounts(EnterExec(s1, op), op);
    }
  }

  /** Without an execution phase, exactly the owed accesses end the command: no more and no fewer. */
  lemma {:induction false} Countdown(s: Fdc, es: seq<Option<byte>>)
    requires Straight(s) && !s.Is(Cmd) && |es| <= Owed(s)
    ensures var t := Accesses(s, es);
      Straight(t) && Owed(t) == Owed(s) - |es| && (t.Is(Cmd) <==> |es| == Owed(s))
    decreases |es|
  {
    hide Access;
    if es != [] {
      StraightStep(s, es[0]);
      if |es| > 1 {
        Countdown(Access(s, es[0]), es[1..]);
      }
    }
  }

  /** The operation that a command byte selects: unknown and out-of-sequence commands are invalid. */
  function Selected(s: Fdc, value: byte): Op {
    if Unwelcome(s, value) then Invalid
    else match value % 32
         case 0x02 => ReadTrack
         case 0x03 => Specify
         case 0x05 => WriteData
         case 0x06 => ReadData
         case 0x07 => Recalibrate
         case 0x08 => SenseInterrupt
         case 0x09 => WriteDeleted
         case 0x0C => ReadDeleted
         case 0x0D => FormatTrack
         case _ => Seek
  }

  /** After its command byte a command owes all its arguments and results, whatever went before it. */
  lemma CommandOwes(s: Fdc, value: byte)
    requires Good(s) && !s.fault && s.Is(Cmd)
    ensures var op, t := Selected(s, value), Out(s, value);
      && Good(t) && !t.fault && t.c.op == Some(op) && (if op.ArgsLen() > 0 then t.Is(Args) else t.Is(Result))
      && Owed(t) == op.ArgsLen() + op.ResultLen() > 0
  {
    hide Select, Selected, Unwelcome, SetBit;
    CmdAccess(s, value);
    var op := Selected(s, value);
    var c := Select(Calm(s), value);
    SelectPicks(s, value);
    assert Out(s, value) == NextStatus(c);
    SelectedOwes(c, op);
  }

  lemma SelectPicks(s: Fdc, value: byte)
    requires !s.fault && s.Is(Cmd)
    ensures var c := Select(Calm(s), value);
      !c.fault && c.Is(Cmd) && c.c.op == Some(Selected(s, value))
  {
  }

  lemma SelectedOwes(s: Fdc, op: Op)
    requires !s.fault && s.Is(Cmd) && s.c.op == Some(op) && !NextStatus(s).fault && Inv(NextStatus(s))
    ensures var t := NextStatus(s);
      && t.c.op == Some(op) && (if op.ArgsLen() > 0 then t.Is(Args) else t.Is(Result))
      && Owed(t) == op.ArgsLen() + op.ResultLen() > 0
  {
    if op.ArgsLen() == 0 {
      LeaveCounts(EnterExec(EnterArgs(s, op), op), op);
    }
  }

  /**
   * In every reachable command phase, whatever byte is written and whether the accesses after it
   * read or write: a command without an execution phase is over after exactly its
   * `args_len + result_len` further accesses, and not before.
   */
  lemma ShortCommand(s: Fdc, value: byte, es: seq<Option<byte>>)
    requires Good(s) && !s.fault && s.Is(Cmd)
    requires var op := Selected(s, value); !op.HasExec() && |es| <= op.ArgsLen() + op.ResultLen()
    ensures var op, t := Selected(s, value), Accesses(Out(s, value), es);
      !t.fault && (t.Is(Cmd) <==> |es| == op.ArgsLen() + op.ResultLen())
  {
    hide Accesses, Out;
    CommandOwes(s, value);
    Countdown(Out(s, value), es);
  }

  lemma TerminateCounts(s: Fdc)
    requires Good(s) && !s.fault && s.Is(Exec) && !Terminate(s).fault
    ensures var t := Terminate(s);
      Straight(t) && t.Is(Result) && Owed(t) == 7
  {
    var e := s.(x := s.x.(tc := true));
    Settles(e, s.c.op.value);
    LeaveCounts(e, s.c.op.value);
    assert Terminate(s) == Leave(e, s.c.op.value);
  }

  /** Terminal count ends the execution phase, and then exactly `result_len` accesses the command. */
  lemma DataCommandEnds(s: Fdc, es: seq<Option<byte>>)
    requires Good(s) && !s.fault && s.Is(Exec) && !Terminate(s).fault && |es| <= 7
    ensures Terminate(s).Is(Result)
    ensures var t := Accesses(Terminate(s), es);
      !t.fault && (t.Is(Cmd) <==> |es| == 7)
  {
    hide Accesses, Terminate;
    TerminateCounts(s);
    Countdown(Terminate(s), es);
  }

  /** The arguments of a data command: after the last one it executes, or already reports an error. */
  lemma {:induction false} ArgumentsEnd(s: Fdc, es: seq<Option<byte>>)
    requires Good(s) && !s.fault && s.Is(Args) && s.c.op.value.HasExec() && |es| == s.x.rwmax - s.x.rwcount
    ensures var t := Accesses(s, es);
      t.fault || (Good(t) && (t.Is(Exec) || t.Is(Result)) && Owed(t) == 7)
    decreases |es|
  {
    var t := Access(s, es[0]);
    DataAccess(s, es[0].GetOr(0));
    if !t.fault {
      AccessCounts(s, es[0]);
      if |es| > 1 {
        ArgumentsGo(s, es[0]);
        ArgumentsEnd(t, es[1..]);
      } else {
        assert Accesses(t, es[1..]) == t;
      }
    } else {
      FaultStays(t, es[1..]);
    }
  }

  lemma ArgumentsGo(s: Fdc, e: Option<byte>)
    requires Good(s) && !s.fault && s.Is(Args) && s.x.rwcount + 1 < s.x.rwmax
    ensures var t := Access(s, e);
      t.Is(Args) && t.x.rwmax == s.x.rwmax && t.x.rwcount == s.x.rwcount + 1
  {
  }

  lemma {:induction false} FaultStays(s: Fdc, es: seq<Option<byte>>)
    requires s.fault
    ensures Accesses(s, es) == s
    decreases |es|
  {
    if es != [] {
      FaultStays(Access(s, es[0]), es[1..]);
    }
  }

  /**
   * The interrupt line after a data access: down while arguments or results are exchanged, up
   * after every access to a read transfer, and up after a write access unless it was ignored
   * for want of a disk.
   */
  lemma InterruptLine(s: Fdc, e: Option<byte>)
    requires Good(s) && !s.fault && !Access(s, e).fault
    ensures s.Is(Result) ==> !Access(s, e).x.irq
    ensures s.Is(Args) && s.x.rwcount + 1 < s.x.rwmax ==> !Access(s, e).x.irq
    ensures s.Is(Exec) && s.c.op.value.IsRead() ==> Access(s, e).x.irq
    ensures s.Is(Exec) && s.c.op.value.IsWrite() ==>
      (Access(s, e).x.irq <==> s.m.canWrite && (s.x.rwcount < s.x.rwmax || WriteOutcome(s) != Stall))
  {
    if s.Is(Exec) && !s.c.op.value.FormatTrack? {
      TransferInterrupts(Calm(s), s.c.op.value, e.GetOr(0));
    }
  }

  lemma ExecInterrupts(s: Fdc, op: Op, value: byte)
    requires !s.x.irq && !s.fault && ExecBounds(op, s.x, s.Spt()) && (op.IsRead() || op.IsWrite())
    requires !ExecStep(s, op, value).s.fault
    ensures ExecStep(s, op, value).s.x.irq <==>
      op.IsRead() || (s.m.canWrite && (s.x.rwcount < s.x.rwmax || WriteOutcome(s) != Stall))
  {
    hide SetBit, FindForRead, FindForWrite, Ask, Advance;
  }

  lemma LeaveKeepsIrq(s: Fdc, op: Op)
    requires !s.fault && s.Is(Exec) && (op.IsRead() || op.IsWrite())
    ensures Leave(s, op).x.irq == s.x.irq
  {
    hide TransferResult;
  }

  lemma TransferInterrupts(s: Fdc, op: Op, value: byte)
    requires Good(s) && !s.fault && s.Is(Exec) && s.c.op == Some(op) && (op.IsRead() || op.IsWrite()) && !s.x.irq
    requires !ExecStep(s, op, value).s.fault
    ensures var t := NextStatus(ExecStep(s, op, value).s);
      t.x.irq <==> op.IsRead() || (s.m.canWrite && (s.x.rwcount < s.x.rwmax || WriteOutcome(s) != Stall))
  {
    hide ExecRead, ExecWrite, WriteOutcome, Leave;
    ExecKeeps(s, op, value);
    ExecInterrupts(s, op, value);
    LeaveKeepsIrq(ExecStep(s, op, value).s, op);
  }

  /**
   * A restart after any history: no drive is busy, every head is on track 0, the interrupt line is
   * down, the disks stay, and the next command byte is taken as after power-on.
   */
  lemma ResetRecovers(events: seq<Event>, value: byte)
    requires (forall e :: e in events ==> e.Ok()) && !Run(POWER_ON, events).fault
    ensures var s := Run(POWER_ON, events);
      var t := Step(s, Reset);
      && Idle(t) && t.busy == {} && t.track == [0, 0, 0, 0] && !t.x.irq && t.m == s.m
      && (Out(t, value).Is(Args) <==> value % 32 in [0x02, 0x03, 0x05, 0x06, 0x07, 0x09, 0x0C, 0x0D, 0x0F])
  {
    hide Run, Out;
    PowerOnIsGood();
    RunKeepsInvariant(POWER_ON, events);
    var s := Run(POWER_ON, events);
    StepKeepsInvariant(s, Reset);
    CommandOwes(Restart(s), value);
  }
}
