/** What holds in every reachable state of the controller, and exactly when an access ends the emulator. */
module FdcInvariant {
  import opened Bytes
  import opened Floppy
  import opened FdcModel

  /** The phase bits of the main status register tell the phase. */
  predicate BitsMatch(c: Control) {
    && (c.exm <==> c.phase.Exec?)
    && (c.cb <==> !c.phase.Cmd?)
    && (!c.phase.Cmd? ==> c.op.Some?)
    && (c.dio <==> c.phase.Result? || (c.phase.Exec? && c.op.value.IsRead()))
    && (c.phase.Exec? ==> c.op.value.HasExec())
  }

  /**
   * The counters of an execution phase stay inside the sector buffer, and a transfer never waits
   * for record 0: every accepted record is at most 16, so its successor does not overflow.
   */
  predicate ExecBounds(op: Op, x: Xfer, spt: byte) {
    && x.rwcount <= 1024 && x.rwmax <= 1024
    && (x.tc ==> op.ReadData? || op.WriteData?)
    && (if op.FormatTrack? then x.rwmax == 4 * spt
        else x.rwcount <= Max(x.rwmax, 1) && x.idr.record != 0 && x.next.record != 0)
  }

  predicate Good(s: Fdc) {
    && s.busy <= {0, 1, 2, 3}
    && BitsMatch(s.c)
    && (s.Is(Args) ==> s.x.rwcount < s.x.rwmax == s.c.op.value.ArgsLen() <= 8)
    && (s.Is(Result) ==> s.x.rwcount < s.x.rwmax == s.c.op.value.ResultLen() <= 7)
    && (s.Is(Exec) ==> ExecBounds(s.c.op.value, s.x, s.Spt()))
  }

  predicate Inv(s: Fdc) {
    s.fault || Good(s)
  }

  function Max(a: nat, b: nat): nat {
    if a < b then b else a
  }

  /** What the main status register tells the host, bit by bit. */
  lemma StatusTells(s: Fdc)
    requires Good(s)
    ensures Msr(s) == 128
      + (if s.Is(Result) || (s.Is(Exec) && s.c.op.value.IsRead()) then 64 else 0)
      + (if s.Is(Exec) then 32 else 0) + (if s.Is(Cmd) then 0 else 16) + BusyNibble(s.busy)
  {
  }

  /** The low nibble: one bit for each busy drive. */
  function BusyNibble(busy: set<nat>): (n: nat)
    ensures n < 16
  {
    (if 3 in busy then 8 else 0) + (if 2 in busy then 4 else 0) + (if 1 in busy then 2 else 0) + (if 0 in busy then 1 else 0)
  }

  // ---- When an access ends the emulator ----

  /** What the last argument of a command runs into: record 0, or FORMAT with nothing to call. */
  predicate StartFaults(s: Fdc, op: Op) {
    match op
    case ReadData | ReadDeleted | WriteData | WriteDeleted => s.args[3] == 0
    case FormatTrack => s.x.tc && !s.m.canWrite && s.Spt() > 0
    case _ => false
  }

  predicate DataFaults(s: Fdc, isRead: bool) {
    match s.c.phase
    case Cmd => isRead && s.Runs(SenseInterrupt) && s.busy == {}
    case Args => s.x.rwcount + 1 == s.x.rwmax && StartFaults(s, s.c.op.GetOr(Invalid))
    case Exec => s.Runs(FormatTrack) && s.x.rwcount == 1024
    case Result => false
  }

  predicate Faults(s: Fdc, e: Event)
    requires e.Ok()
  {
    match e
    case DataOut(_) => DataFaults(s, false)
    case DataIn => DataFaults(s, true)
    case TerminalCount => s.Is(Exec) && s.Runs(FormatTrack) && !s.m.canWrite && s.Spt() > 0
    case KickImage(_, _) | LoadImage(_, _) | UnloadImage(_) | StatusAccess | Reset => false
  }

  /** The access `e` ends the emulator; an argument byte counts as already stored. */
  predicate Ends(s: Fdc, e: Event)
    requires e.Ok() && Good(s)
  {
    Faults(if e.DataOut? && s.Is(Args) then s.(args := s.args[s.x.rwcount := e.value]) else s, e)
  }

  /** Some access of the run, none before it having ended the emulator, is a listed fault. */
  predicate FaultAt(s: Fdc, events: seq<Event>)
    requires forall e :: e in events ==> e.Ok()
    decreases |events|
  {
    events != [] && Good(s) && (Ends(s, events[0]) || FaultAt(Step(s, events[0]), events[1..]))
  }

  // ---- Proof, routine by routine ----

  lemma FieldsKeep(s: Fdc, sec: nat)
    requires !s.fault && sec <= 256
    ensures var f := FormatFields(s, sec);
      && (f.fault <==> !s.m.canWrite && sec > 0)
      && f.c == s.c && f.args == s.args && f.track == s.track && f.busy == s.busy && f.m.canWrite == s.m.canWrite
    decreases sec
  {
    if sec > 0 {
      FieldsKeep(s, sec - 1);
    }
  }

  /** What an attempt at a sector does to the transfer. */
  lemma SettleBounds(s: Fdc, o: Outcome)
    requires o.Accept? ==> |o.data| <= 1024 && o.len <= 1024 && 1 <= s.x.next.record <= 16
    ensures var x := Attempt(s, o).x;
      && x.rwcount == 0 && x.rwmax <= 1024 && (s.x.idr.record != 0 ==> x.idr.record != 0)
      && (s.x.next.record != 0 ==> x.next.record != 0)
      && (o.Accept? ==> x.tc == s.x.tc)
  {
  }

  predicate Started(s: Fdc, op: Op, t: Fdc) {
    && t.c.phase == s.c.phase && t.c.op == s.c.op && t.c.exm == s.c.exm && t.c.cb == s.c.cb
    && t.busy <= {0, 1, 2, 3} && t.x.rwmax <= Max(s.x.rwmax, 1024) && t.m == s.m
    && (op.HasExec() ==> (t.c.dio <==> op.IsRead()))
    && (!op.HasExec() ==> t.x.tc == s.x.tc)
    && (op.SenseInterrupt? ==> t == s)
    && (op.FormatTrack? ==> t.x.rwmax == 4 * t.Spt() && t.Spt() == s.Spt() && (t.x.tc && !s.x.tc ==> s.m.canWrite))
    && (op.IsRead() || op.IsWrite() ==> t.x.idr.record != 0 && t.x.next.record != 0 && t.x.rwmax <= 1024)
  }

  lemma Transfers(s: Fdc, op: Op)
    requires !s.fault && s.busy <= {0, 1, 2, 3} && (op.IsRead() || op.IsWrite())
    ensures PreExec(s, op).fault <==> StartFaults(s, op)
    ensures !PreExec(s, op).fault ==> Started(s, op, PreExec(s, op))
  {
    var s1 := StartId(if op.ReadTrack? then s.(args := s.args[3 := 1]) else s, op.IsRead());
    var o := if op.IsRead() then ReadOutcome(s1) else WriteOutcome(s1);
    assert PreExec(s, op) == Attempt(s1, o);
    SettleBounds(s1, o);
  }

  lemma Starts(s: Fdc, op: Op)
    requires !s.fault && s.busy <= {0, 1, 2, 3} && !s.c.dio
    ensures PreExec(s, op).fault <==> (op.IsRead() || op.IsWrite()) && StartFaults(s, op)
    ensures !PreExec(s, op).fault ==> Started(s, op, PreExec(s, op))
  {
    if op.IsRead() || op.IsWrite() {
      Transfers(s, op);
    }
  }

  /** The end of `NextStatus`, from the execution phase. */
  lemma Settles(s: Fdc, op: Op)
    requires !s.fault && s.Is(Exec) && s.c.op == Some(op) && s.busy <= {0, 1, 2, 3}
    requires op.SenseInterrupt? ==> s.busy != {}
    requires op.HasExec() && !s.x.tc ==> (s.c.dio <==> op.IsRead()) && ExecBounds(op, s.x, s.Spt())
    ensures var t := EnterResult(s, op);
      && (t.fault <==> op.FormatTrack? && s.x.tc && !s.m.canWrite && s.Spt() > 0)
      && (!t.fault ==> Good(EnterCmd(t)) && !EnterCmd(t).fault)
  {
    if op.FormatTrack? {
      FieldsKeep(s.(c := s.c.(dio := true), x := s.x.(tc := false)), s.Spt());
    }
  }

  /** `NextStatus` when the selected operation starts. */
  lemma Opens(s: Fdc, op: Op)
    requires !s.fault && s.Is(Cmd) && s.c.op == Some(op) && s.busy <= {0, 1, 2, 3}
    ensures Inv(NextStatus(s))
    ensures NextStatus(s).fault <==> op.SenseInterrupt? && s.busy == {}
  {
    var s1 := EnterArgs(s, op);
    if op.ArgsLen() == 0 {
      if !op.SenseInterrupt? || s.busy != {} {
        Settles(EnterExec(s1, op), op);
      }
    }
  }

  lemma CmdAccess(s: Fdc, value: byte)
    requires Good(s) && !s.fault && s.Is(Cmd)
    ensures Inv(Out(s, value)) && !Out(s, value).fault
    ensures Inv(In(s).s)
    ensures In(s).s.fault <==> DataFaults(s, true)
  {
    var s1 := Select(Calm(s), value);
    Opens(s1, s1.c.op.value);
    var s2 := InPhase(Calm(s)).s;
    if s.c.op.Some? {
      Opens(s2, s.c.op.value);
    }
  }

  lemma ArgsNext(s: Fdc, op: Op)
    requires Good(s) && !s.fault && s.Is(Args) && s.c.op == Some(op)
    ensures Inv(NextStatus(s))
    ensures NextStatus(s).fault <==> DataFaults(s, false)
  {
    var s1 := EnterArgs(s, op);
    if s1.x.rwcount == s1.x.rwmax {
      var s2 := s1.(c := s1.c.(phase := Exec));
      Starts(s2, op);
      var t := EnterExec(s1, op);
      if !t.fault {
        Settles(t, op);
      }
    }
  }

  lemma ArgsAccess(s: Fdc, value: byte)
    requires Good(s) && !s.fault && s.Is(Args)
    ensures Inv(Out(s, value)) && Inv(In(s).s)
    ensures Out(s, value).fault <==> DataFaults(s.(args := s.args[s.x.rwcount := value]), false)
    ensures In(s).s.fault <==> DataFaults(s, true)
  {
    ArgsNext(Calm(s), s.c.op.value);
    ArgsNext(OutPhase(Calm(s), value), s.c.op.value);
  }

  predicate Served(s: Fdc, op: Op, t: Fdc) {
    && t.c == s.c && t.busy == s.busy && t.args == s.args && t.m.canWrite == s.m.canWrite
    && ExecBounds(op, t.x.(tc := false), t.Spt()) && (op.FormatTrack? ==> !t.x.tc)
  }

  lemma ReadKeeps(s: Fdc, op: Op)
    requires !s.fault && op.IsRead() && ExecBounds(op, s.x, s.Spt())
    ensures var t := ExecRead(s).s;
      !t.fault && Served(s, op, t)
  {
    SettleBounds(s, ReadOutcome(s));
  }

  lemma PutKeeps(s: Fdc, op: Op, value: byte)
    requires !s.fault && op.IsWrite() && ExecBounds(op, s.x.(tc := false), s.Spt())
    requires s.x.rwcount < s.x.rwmax || s.x.rwcount == 0
    ensures var t := PutByte(s, value);
      !t.fault && Served(s, op, t)
  {
  }

  lemma WriteKeeps(s: Fdc, op: Op, value: byte)
    requires !s.fault && op.IsWrite() && ExecBounds(op, s.x, s.Spt())
    ensures var t := ExecWrite(s, value);
      !t.fault && Served(s, op, t)
  {
    var o := WriteOutcome(s);
    SettleBounds(s, o);
    if s.x.rwcount < s.x.rwmax {
      PutKeeps(s, op, value);
    } else if o.Accept? {
      PutKeeps(Attempt(s, o), op, value);
    }
  }

  lemma ExecKeeps(s: Fdc, op: Op, value: byte)
    requires Good(s) && !s.fault && s.Is(Exec) && s.c.op == Some(op)
    ensures var t := ExecStep(s, op, value).s;
      (t.fault <==> op.FormatTrack? && s.x.rwcount == 1024) && (!t.fault ==> Served(s, op, t))
  {
    if op.IsRead() {
      ReadKeeps(s, op);
    } else if op.IsWrite() {
      WriteKeeps(s, op, value);
    }
  }

  lemma ExecAccess(s: Fdc, value: byte)
    requires Good(s) && !s.fault && s.Is(Exec)
    ensures var t := ExecStep(s, s.c.op.value, value).s;
      && (t.fault <==> DataFaults(s, false))
      && (!t.fault ==> Inv(NextStatus(t)) && !NextStatus(t).fault)
  {
    ExecKeeps(s, s.c.op.value, value);
    var t := ExecStep(s, s.c.op.value, value).s;
    if !t.fault {
      Settles(t, s.c.op.value);
    }
  }

  lemma KickKeeps(s: Fdc, canRead: bool, canWrite: bool)
    requires Good(s) && !s.fault
    ensures Good(Kick(s, canRead, canWrite)) && !Kick(s, canRead, canWrite).fault
  {
    var s1 := s.(m := s.m.(canRead := canRead, canWrite := canWrite));
    if s.Is(Exec) {
      SettleBounds(s1, if s.Runs(ReadData) then ReadOutcome(s1) else WriteOutcome(s1));
    }
  }

  /**
   * The controller invariant is kept by every access, and an access ends the emulator exactly in
   * the listed cases: record 0 as an argument, more than 1024 ID bytes, FORMAT without a callback,
   * or the data register read before any command after a completed SENSE INTERRUPT.
   */
  lemma StepKeepsInvariant(s: Fdc, e: Event)
    requires Inv(s) && e.Ok()
    ensures Inv(Step(s, e))
    ensures !s.fault ==> (Step(s, e).fault <==> Ends(s, e))
  {
    if !s.fault {
      match e
      case DataOut(v) => DataAccess(s, v);
      case DataIn => DataAccess(s, 0);
      case TerminalCount =>
        if s.Is(Exec) {
          Settles(s.(x := s.x.(tc := true)), s.c.op.value);
        }
      case KickImage(r, w) => KickKeeps(s, r, w);
      case LoadImage(u, f) => LoadKeeps(s, u, f);
      case UnloadImage(u) => UnloadKeeps(s, u);
      case StatusAccess =>
      case Reset =>
    }
  }

  lemma DataAccess(s: Fdc, value: byte)
    requires Good(s) && !s.fault
    ensures Inv(Out(s, value)) && Inv(In(s).s)
    ensures Out(s, value).fault <==>
      DataFaults(if s.Is(Args) then s.(args := s.args[s.x.rwcount := value]) else s, false)
    ensures In(s).s.fault <==> DataFaults(s, true)
  {
    match s.c.phase
    case Cmd => CmdAccess(s, value);
    case Args => ArgsAccess(s, value);
    case Exec =>
      ExecAccess(Calm(s), value);
      ExecAccess(Calm(s), 0);
    case Result =>
  }

  lemma UnloadKeeps(s: Fdc, unit: nat)
    requires Good(s) && !s.fault && unit < UNITS
    ensures Good(Unload(s, unit)) && !Unload(s, unit).fault
  {
    KickKeeps(SetUnit(s, unit, None), false, false);
  }

  lemma LoadKeeps(s: Fdc, unit: nat, file: Option<File>)
    requires Good(s) && !s.fault && unit < UNITS
    ensures Good(Load(s, unit, file)) && !Load(s, unit, file).fault
  {
    UnloadKeeps(s, unit);
    KickKeeps(SetUnit(Unload(s, unit), unit, file), true, true);
  }

  /** Every state reached from power-on satisfies the invariant, whatever the host does. */
  lemma {:induction false} RunKeepsInvariant(s: Fdc, events: seq<Event>)
    requires Inv(s) && forall e :: e in events ==> e.Ok()
    ensures Inv(Run(s, events))
    decreases |events|
  {
    if events != [] {
      StepKeepsInvariant(s, events[0]);
      RunKeepsInvariant(Step(s, events[0]), events[1..]);
    }
  }

  lemma PowerOnIsGood()
    ensures Good(POWER_ON) && !POWER_ON.fault
  {
  }

  /**
   * From power-on, whatever the host has done: a READ or WRITE in its execution phase never waits
   * for record 0, so no access, disk change or terminal count ends the emulator there; a disk
   * change never does so in any phase.
   */
  lemma TransfersSurvive(events: seq<Event>, e: Event)
    requires e.Ok() && forall d :: d in events ==> d.Ok()
    requires !Run(POWER_ON, events).fault
    ensures var s := Run(POWER_ON, events);
      && (s.Is(Exec) && !s.Runs(FormatTrack) ==> s.x.next.record != 0 && !Step(s, e).fault)
      && (e.KickImage? || e.LoadImage? || e.UnloadImage? ==> !Step(s, e).fault)
  {
    hide Run, Step;
    PowerOnIsGood();
    RunKeepsInvariant(POWER_ON, events);
    StepKeepsInvariant(Run(POWER_ON, events), e);
  }

  /**
   * An argument byte ends the emulator exactly if it is the last one of a transfer from record 0
   * (READ TRACK excepted), or of a FORMAT of at least one sector that a terminal count left over
   * stops at once, without a callback to call.
   */
  lemma LastArgument(s: Fdc, value: byte)
    requires Good(s) && !s.fault && s.Is(Args)
    ensures var a, op := s.args[s.x.rwcount := value], s.c.op.value;
      Out(s, value).fault <==>
      && s.x.rwcount + 1 == op.ArgsLen()
      && (((op.ReadData? || op.ReadDeleted? || op.IsWrite()) && a[3] == 0)
          || (op.FormatTrack? && s.x.tc && !s.m.canWrite && a[2] > 0))
  {
    hide Out;
    ArgsAccess(s, value);
  }

  /** A run ends the emulator exactly if one of its accesses is a listed fault when it is made. */
  lemma {:induction false} RunEnds(s: Fdc, events: seq<Event>)
    requires Good(s) && !s.fault && forall e :: e in events ==> e.Ok()
    ensures Run(s, events).fault <==> FaultAt(s, events)
    decreases |events|
  {
    hide Faults, Good, Step;
    if events != [] {
      StepKeepsInvariant(s, events[0]);
      var t := Step(s, events[0]);
      if t.fault {
        FaultIsFinal(t, events[1..]);
      } else {
        RunEnds(t, events[1..]);
      }
    }
  }

  /** A stopped emulator stays stopped. */
  lemma {:induction false} FaultIsFinal(s: Fdc, events: seq<Event>)
    requires s.fault && forall e :: e in events ==> e.Ok()
    ensures Run(s, events) == s
    decreases |events|
  {
    if events != [] {
      FaultIsFinal(Step(s, events[0]), events[1..]);
    }
  }
}
