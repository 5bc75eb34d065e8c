/** Reading the data register in the command phase: the last command is selected once more. */
module FdcStrayRead {
  import opened Bytes
  import opened FdcModel
  import opened FdcInvariant
  import opened FdcProtocol

  /** The arguments of `op` are expected from the first one on. */
  function Reopened(s: Fdc, op: Op): Fdc {
    s.(c := Control(Args, Some(op), s.c.mt, false, false, true),
       x := s.x.(irq := false, rwcount := 0, rwmax := op.ArgsLen()))
  }

  /** The result phase of `op` has just begun. */
  predicate Answers(s: Fdc, op: Op) {
    && !s.fault && s.c == Control(Result, Some(op), s.c.mt, true, false, true)
    && s.x.rwcount == 0 && s.x.rwmax == op.ResultLen()
  }

  /**
   * A read in the command phase returns ST0. Only if no command has been issued since the last
   * restart does the controller stay in the command phase; otherwise its last command goes on:
   * one with arguments expects them again, SENSE INTERRUPT takes another drive (and ends the
   * emulator if there is none), and an invalid one answers again.
   */
  lemma StrayRead(s: Fdc)
    requires Good(s) && !s.fault && s.Is(Cmd)
    ensures var t := In(s).s;
      && In(s).value == s.x.st0
      && (t.Is(Cmd) && !t.fault <==> s.c.op.None?)
      && (t.fault <==> s.Runs(SenseInterrupt) && s.busy == {})
      && t.m == s.m && t.track == s.track
    ensures s.c.op.None? ==> In(s).s == Calm(s)
    ensures s.c.op.Some? && s.c.op.value.ArgsLen() > 0 ==> In(s).s == Reopened(s, s.c.op.value)
    ensures s.Runs(SenseInterrupt) && s.busy != {} ==>
      var t, drive := In(s).s, FirstBusy(s.busy);
      && Answers(t, SenseInterrupt) && t.busy == s.busy - {drive}
      && t.result[..2] == [SetBit(s.x.st0, 32), s.track[drive]]
    ensures s.Runs(Invalid) ==> Answers(In(s).s, Invalid) && In(s).s.result == s.result && In(s).s.busy == s.busy
  {
    var c := InPhase(Calm(s)).s;
    if s.c.op.Some? {
      Opens(c, s.c.op.value);
      if s.c.op.value.ArgsLen() > 0 {
        ArgumentsGoOn(EnterArgs(c, s.c.op.value), s.c.op.value);
      }
    }
  }

  /**
   * The byte that the host takes for its next command is then the first argument of the old one,
   * whatever it is; RECALIBRATE, which has only one, even starts.
   */
  lemma NextByteIsArgument(s: Fdc, op: Op, value: byte)
    requires Good(s) && !s.fault && s.Is(Cmd) && s.c.op == Some(op) && op.ArgsLen() > 0
    ensures var t := Out(In(s).s, value);
      && !t.fault && t.c.op == Some(op) && t.args == s.args[0 := value]
      && (op.ArgsLen() > 1 ==> t.Is(Args) && t.x.rwcount == 1)
      && (op.Recalibrate? ==> t.Is(Cmd) && t.track == s.track[value % 4 := 0] && t.busy == s.busy + {value % 4})
  {
    hide In;
    StrayRead(s);
    OneArgument(Reopened(s, op), op, value);
  }

  /**
   * For a command in sequence the read does what its command byte would do. It does so out of
   * sequence as well, where the byte itself would be refused.
   */
  lemma ReadRepeatsCommand(s: Fdc, op: Op, value: byte)
    requires Good(s) && !s.fault && s.Is(Cmd) && s.c.op == Some(op) && op.ArgsLen() > 0
    requires Commands(value, op) && Bit(value, 128) == s.c.mt
    ensures In(s).s == Out(s, value) <==> !OutOfSequence(s, value % 32)
    ensures OutOfSequence(s, value % 32) ==> Out(s, value).Runs(Invalid)
  {
    hide In;
    StrayRead(s);
    if OutOfSequence(s, value % 32) {
      var s1 := Select(Calm(s), value);
      Opens(s1, Invalid);
      assert NextStatus(s1).c.op == Some(Invalid);
    } else {
      CommandByte(s, value, op);
    }
  }

  /** SENSE INTERRUPT goes on by reads alone: each further read and its two bytes take one more drive. */
  lemma SenseByRead(s: Fdc)
    requires Good(s) && !s.fault && s.Is(Cmd) && s.Runs(SenseInterrupt) && s.busy != {}
    ensures var t := Ins(In(s).s, 2);
      && t.values == [SetBit(s.x.st0, 32), s.track[FirstBusy(s.busy)]]
      && t.s.Is(Cmd) && t.s.Runs(SenseInterrupt) && !t.s.fault && t.s.busy == s.busy - {FirstBusy(s.busy)}
  {
    hide In;
    StrayRead(s);
    Drain(In(s).s, 2);
  }

  /** A read where an argument is expected returns 0 and keeps the byte left there by an earlier command. */
  lemma ReadSkipsArgument(s: Fdc)
    requires Good(s) && !s.fault && s.Is(Args)
    ensures In(s).value == 0 && In(s).s == Out(s, s.args[s.x.rwcount])
  {
    hide NextStatus;
    assert s.args[s.x.rwcount := s.args[s.x.rwcount]] == s.args;
  }

  /** A write where a result is to be read discards that result byte and nothing else. */
  lemma WriteSkipsResult(s: Fdc, value: byte)
    requires Good(s) && !s.fault && s.Is(Result)
    ensures In(s).value == s.result[s.x.rwcount] && Out(s, value) == In(s).s
  {
    hide NextStatus;
  }

  /** Terminal count outside an execution phase does nothing: no count is left over for the next one. */
  lemma StrayTerminalCount(s: Fdc, values: seq<byte>)
    requires Good(s) && !s.Is(Exec)
    ensures Terminate(s) == s && Outs(Terminate(s), values) == Outs(s, values)
  {
  }

  /**
   * Reading the status register lowers the interrupt line, and that is all the host can notice:
   * every later data access goes as if the status had not been read.
   */
  lemma StatusPolls(s: Fdc, value: byte)
    requires !s.fault
    ensures !TouchStatus(s).x.irq && Msr(TouchStatus(s)) == Msr(s)
    ensures Out(TouchStatus(s), value) == Out(s, value) && In(TouchStatus(s)) == In(s)
  {
    hide OutPhase, InPhase, NextStatus;
    assert Calm(TouchStatus(s)) == Calm(s);
  }
}
