/** Inserting a disk while READ DATA or WRITE DATA waits for it is as good as inserting it first. */
module FdcInsert {
  import opened Bytes
  import opened Floppy
  import opened FdcModel
  import opened FdcProtocol

  /** The commands that a newly inserted disk wakes up. */
  predicate Wakes(value: byte, op: Op) {
    (op.ReadData? && value % 32 == 0x06) || (op.WriteData? && value % 32 == 0x05)
  }

  /** The drive has no image the command could use. */
  predicate NoImage(m: Media, op: Op, unit: nat)
    requires unit < UNITS
  {
    m.disk[unit].None? || (if op.ReadData? then !m.canRead else !m.canWrite)
  }

  /** The controller waiting for a disk, since it was in state `s`. */
  function Waiting(s: Fdc, op: Op, mt: bool, a: ArgBytes, irq: bool): Fdc {
    var id := Idr(a[0], a[1], a[2], a[3]);
    s.(c := Control(Exec, Some(op), mt, op.IsRead(), true, true), args := a,
       x := s.x.(irq := irq, rwcount := 0, rwmax := 0, st0 := a[0] % 4, st1 := 0, st2 := 0, idr := id, next := id))
  }

  function Search(s: Fdc, op: Op): Outcome {
    if op.IsRead() then ReadOutcome(s) else WriteOutcome(s)
  }

  function Inserted(s: Fdc, unit: nat, file: File): Fdc
    requires unit < UNITS
  {
    s.(m := Media(true, true, s.m.disk[unit := Some(file)]))
  }

  /** The transfer at the start of the command, before it looks for its first sector. */
  lemma StartsBy(s: Fdc, value: byte, op: Op, a: ArgBytes)
    requires Idle(s) && Wakes(value, op) && a[3] != 0
    ensures var w := Waiting(s, op, Bit(value, 128), a, false);
      Outs(s, [value] + a) == Leave(Attempt(w, Search(w, op)), op)
  {
    hide Out;
    Issue(s, value, op, a);
    var r := Ready(s, op, Bit(value, 128), a);
    assert r.args == a;
    var e := StartId(r.(c := r.c.(phase := Exec)), op.IsRead());
    var w := Waiting(s, op, Bit(value, 128), a, false);
    var o := Search(w, op);
    assert PreExec(r.(c := r.c.(phase := Exec)), op) == Attempt(e, o);
    assert Attempt(e, o).x == Attempt(w, o).x;
    LeaveIgnoresExm(EnterExec(r, op), op);
    assert EnterExec(r, op).(c := w.c) == Attempt(w, o);
  }

  /** `Leave` computes the phase bits anew. */
  lemma LeaveIgnoresExm(s: Fdc, op: Op)
    requires s.Is(Exec) && (op.ReadData? || op.WriteData?)
    ensures s.fault || Leave(s, op) == Leave(s.(c := s.c.(exm := true)), op)
  {
  }

  /** One access while waiting: nothing is transferred; only a read command raises the interrupt line. */
  lemma AccessWaits(s: Fdc, op: Op, mt: bool, a: ArgBytes, irq: bool, value: byte)
    requires !s.fault && !s.x.tc && (op.ReadData? || op.WriteData?) && a[3] != 0 && NoImage(s.m, op, a[0] % 4)
    ensures var w := Waiting(s, op, mt, a, irq);
      && Out(w, value) == Waiting(s, op, mt, a, op.ReadData?)
      && In(w) == Reply(Waiting(s, op, mt, a, op.ReadData?), 0)
  {
    var w := Calm(Waiting(s, op, mt, a, irq));
    assert Search(w, op).Stall?;
    assert w.x.exec[0..] == w.x.exec;
    ExecutionGoesOn(Waiting(s, op, mt, a, op.ReadData?));
  }

  lemma {:induction false} AccessesWait(s: Fdc, op: Op, mt: bool, a: ArgBytes, irq: bool, es: seq<Option<byte>>)
    requires !s.fault && !s.x.tc && (op.ReadData? || op.WriteData?) && a[3] != 0 && NoImage(s.m, op, a[0] % 4)
    ensures Accesses(Waiting(s, op, mt, a, irq), es) ==
      Waiting(s, op, mt, a, if es == [] then irq else op.ReadData?)
    decreases |es|
  {
    hide Out, In, Waiting;
    if es != [] {
      AccessWaits(s, op, mt, a, irq, es[0].GetOr(0));
      AccessesWait(s, op, mt, a, op.ReadData?, es[1..]);
    }
  }

  lemma KickSearches(s: Fdc, op: Op, mt: bool, a: ArgBytes, irq: bool, canRead: bool, canWrite: bool)
    requires !s.fault && (op.ReadData? || op.WriteData?)
    ensures var w := Waiting(s.(m := s.m.(canRead := canRead, canWrite := canWrite)), op, mt, a, irq);
      Kick(Waiting(s, op, mt, a, irq), canRead, canWrite) == Attempt(w, Search(w, op))
  {
  }

  /** Loading an image while waiting looks for the sector again. */
  lemma LoadWakes(s: Fdc, op: Op, mt: bool, a: ArgBytes, irq: bool, file: File)
    requires !s.fault && !s.x.tc && (op.ReadData? || op.WriteData?) && a[3] != 0 && NoImage(s.m, op, a[0] % 4)
    ensures var w := Waiting(Inserted(s, a[0] % 4, file), op, mt, a, irq);
      Load(Waiting(s, op, mt, a, irq), a[0] % 4, Some(file)) == Attempt(w, Search(w, op))
  {
    var unit := a[0] % 4;
    var w := Waiting(s, op, mt, a, irq);
    var s0 := if s.m.disk[unit].None? then s else s.(m := Media(false, false, s.m.disk[unit := None]));
    var w0 := Waiting(s0, op, mt, a, irq);
    if s.m.disk[unit].Some? {
      KickSearches(s.(m := s.m.(disk := s.m.disk[unit := None])), op, mt, a, irq, false, false);
      assert Search(w0, op).Stall?;
      assert w0.x.exec[0..] == w0.x.exec;
      assert Attempt(w0, Stall) == w0;
    }
    assert Unload(w, unit) == w0;
    KickSearches(s0.(m := s0.m.(disk := s0.m.disk[unit := Some(file)])), op, mt, a, irq, true, true);
    assert s0.m.disk[unit := Some(file)] == s.m.disk[unit := Some(file)];
  }

  lemma LoadWhenIdle(s: Fdc, unit: nat, file: File)
    requires Idle(s) && unit < UNITS
    ensures Load(s, unit, Some(file)) == Inserted(s, unit, file) && Idle(Inserted(s, unit, file))
  {
    assert s.m.disk[unit := None][unit := Some(file)] == s.m.disk[unit := Some(file)];
  }

  /**
   * An accepted sector leaves no trace of the interrupt line before it, and a rejected one is still
   * to be followed by the phase change. A file too short for the sector keeps the line as it was.
   */
  lemma AttemptThenLeave(s: Fdc, op: Op, mt: bool, a: ArgBytes, irq: bool)
    requires !s.fault && !s.x.tc && (op.ReadData? || op.WriteData?)
    ensures var w, v := Waiting(s, op, mt, a, irq), Waiting(s, op, mt, a, false);
      && Search(w, op) == Search(v, op)
      && (Search(v, op).Accept? ==>
            Attempt(w, Search(w, op)) == Attempt(v, Search(v, op)) == Leave(Attempt(v, Search(v, op)), op))
      && (Search(v, op).Reject? ==> Attempt(w, Search(w, op)) == Attempt(v, Search(v, op)))
      && (Search(v, op).Stall? ==>
            Attempt(w, Search(w, op)).x.irq == irq && !Leave(Attempt(v, Search(v, op)), op).x.irq
            && Attempt(w, Search(w, op)) == Leave(Attempt(v, Search(v, op)), op).(x := Attempt(w, Search(w, op)).x)
            && Calm(Attempt(w, Search(w, op))) == Leave(Attempt(v, Search(v, op)), op))
  {
    var v := Waiting(s, op, mt, a, false);
    if Search(v, op).Accept? || Search(v, op).Stall? {
      ExecutionGoesOn(Attempt(v, Search(v, op)));
    }
  }

  /** A rejected sector is looked for again by the next access, which then ends the execution phase. */
  lemma RejectedAgain(s: Fdc, op: Op, mt: bool, a: ArgBytes, e: Option<byte>)
    requires !s.fault && (op.ReadData? || op.WriteData?) && s.m.canRead && s.m.canWrite
    requires var v := Waiting(s, op, mt, a, false); Search(v, op).Reject?
    ensures var v := Waiting(s, op, mt, a, false);
      var late := Attempt(v, Reject);
      late.Is(Exec) && Leave(late, op).Is(Result) && Access(late, e) == Leave(late, op) == Terminate(late)
  {
    hide TransferResult, SetBit, Ask;
    var late := Attempt(Waiting(s, op, mt, a, false), Reject);
    assert Search(Calm(late), op) == Reject;
    assert Attempt(Calm(late), Reject).x == late.x;
  }

  /** The outcome of the search for the first sector once `file` is in the drive. */
  function FirstSector(s: Fdc, value: byte, op: Op, a: ArgBytes, file: File): Outcome {
    Search(Waiting(Inserted(s, a[0] % 4, file), op, Bit(value, 128), a, false), op)
  }

  /** The command, any accesses, then the disk. */
  function Late(s: Fdc, value: byte, a: ArgBytes, es: seq<Option<byte>>, file: File): Fdc {
    Load(Accesses(Outs(s, [value] + a), es), a[0] % 4, Some(file))
  }

  /** The disk, then the command. */
  function Early(s: Fdc, value: byte, a: ArgBytes, file: File): Fdc {
    Outs(Load(s, a[0] % 4, Some(file)), [value] + a)
  }

  /**
   * Issue the command, make any accesses, insert the disk; or insert the disk and issue the
   * command. Both orders reach the same controller state if and only if the first sector is
   * accepted, or the file is too short to hold any of it and no access was made in between.
   */
  lemma InsertCommutes(s: Fdc, value: byte, op: Op, a: ArgBytes, es: seq<Option<byte>>, file: File)
    requires Idle(s) && Wakes(value, op) && a[3] != 0 && NoImage(s.m, op, a[0] % 4)
    ensures Late(s, value, a, es, file) == Early(s, value, a, file) <==>
      FirstSector(s, value, op, a, file).Accept? || (FirstSector(s, value, op, a, file).Stall? && es == [])
  {
    hide Out, In, Attempt, Search, Load, Waiting, Access, Leave;
    LateAndEarly(s, value, op, a, es, file);
    var t := Inserted(s, a[0] % 4, file);
    var mt := Bit(value, 128);
    AttemptThenLeave(t, op, mt, a, if es == [] then false else op.ReadData?);
    Outcomes(t, op, mt, a);
    if FirstSector(s, value, op, a, file).Reject? {
      RejectedAgain(t, op, mt, a, None);
    }
  }

  /** With an image there, only a read can find its sector missing from the file. */
  lemma Outcomes(s: Fdc, op: Op, mt: bool, a: ArgBytes)
    requires (op.ReadData? || op.WriteData?) && a[3] != 0 && s.m.canRead && s.m.canWrite && s.m.disk[a[0] % 4].Some?
    ensures var o := Search(Waiting(s, op, mt, a, false), op);
      !o.Zero? && (o.Stall? ==> op.ReadData?)
  {
  }

  /**
   * How the two orders differ when they do. After a rejection the late controller is still in its
   * execution phase, and one more access of either kind, or terminal count, brings it to the early
   * one's result phase. With a file too short only the interrupt line differs: it is up.
   */
  lemma InsertDiffers(s: Fdc, value: byte, op: Op, a: ArgBytes, es: seq<Option<byte>>, file: File, e: Option<byte>)
    requires Idle(s) && Wakes(value, op) && a[3] != 0 && NoImage(s.m, op, a[0] % 4)
    requires Late(s, value, a, es, file) != Early(s, value, a, file)
    ensures var late, early := Late(s, value, a, es, file), Early(s, value, a, file);
      if FirstSector(s, value, op, a, file).Reject? then
        late.Is(Exec) && early.Is(Result) && Access(late, e) == early == Terminate(late)
      else
        late.Is(Exec) && late.x.irq && !early.x.irq && Calm(late) == early
  {
    hide Out, In, Attempt, Search, Load, Access, Leave, Terminate;
    InsertCommutes(s, value, op, a, es, file);
    LateAndEarly(s, value, op, a, es, file);
    var t := Inserted(s, a[0] % 4, file);
    var mt := Bit(value, 128);
    AttemptThenLeave(t, op, mt, a, if es == [] then false else op.ReadData?);
    Outcomes(t, op, mt, a);
    if FirstSector(s, value, op, a, file).Reject? {
      RejectedAgain(t, op, mt, a, e);
    } else {
      StillExecutes(Waiting(t, op, mt, a, true), Search(Waiting(t, op, mt, a, true), op));
    }
  }

  lemma StillExecutes(s: Fdc, o: Outcome)
    requires o.Accept? ==> |o.data| <= 1024
    ensures Attempt(s, o).c == s.c
  {
  }

  /** Both orders, by what they do last. */
  lemma LateAndEarly(s: Fdc, value: byte, op: Op, a: ArgBytes, es: seq<Option<byte>>, file: File)
    requires Idle(s) && Wakes(value, op) && a[3] != 0 && NoImage(s.m, op, a[0] % 4)
    ensures var t, mt := Inserted(s, a[0] % 4, file), Bit(value, 128);
      var w := Waiting(t, op, mt, a, if es == [] then false else op.ReadData?);
      var v := Waiting(t, op, mt, a, false);
      && Late(s, value, a, es, file) == Attempt(w, Search(w, op))
      && Early(s, value, a, file) == Leave(Attempt(v, Search(v, op)), op)
  {
    hide Out, In, Attempt, Search, Load;
    var mt := Bit(value, 128);
    StartsWaiting(s, value, op, a);
    AccessesWait(s, op, mt, a, false, es);
    LoadWakes(s, op, mt, a, if es == [] then false else op.ReadData?, file);
    LoadWhenIdle(s, a[0] % 4, file);
    StartsBy(Inserted(s, a[0] % 4, file), value, op, a);
  }

  lemma StartsWaiting(s: Fdc, value: byte, op: Op, a: ArgBytes)
    requires Idle(s) && Wakes(value, op) && a[3] != 0 && NoImage(s.m, op, a[0] % 4)
    ensures Outs(s, [value] + a) == Waiting(s, op, Bit(value, 128), a, false)
  {
    hide Out;
    StartsBy(s, value, op, a);
    var w := Waiting(s, op, Bit(value, 128), a, false);
    assert Search(w, op).Stall?;
    assert Attempt(w, Stall) == w;
    ExecutionGoesOn(w);
  }
}
