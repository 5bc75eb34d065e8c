/** Whole command and result phases: what a series of data register accesses amounts to. */
module FdcProtocol {
  import opened Bytes
  import opened FdcModel

  /** Waiting for a command, with no seek to be sensed and no terminal count left over. */
  predicate Idle(s: Fdc) {
    && !s.fault && s.Is(Cmd) && s.busy == {} && !s.x.tc
    && !s.c.dio && !s.c.exm && !s.c.cb
  }

  lemma {:induction false} OutsConcat(s: Fdc, a: seq<byte>, b: seq<byte>)
    ensures Outs(s, a + b) == Outs(Outs(s, a), b)
    decreases |a|
  {
    if a == [] {
      assert a + b == b;
    } else {
      assert (a + b)[0] == a[0] && (a + b)[1..] == a[1..] + b;
      OutsConcat(Out(s, a[0]), a[1..], b);
    }
  }

  /** In an execution phase that is not being terminated, an access changes nothing but the transfer. */
  predicate Executing(s: Fdc) {
    !s.fault && s.Is(Exec) && s.c.op.Some? && s.c.op.value.HasExec() && s.c.exm && s.c.cb && !s.x.tc
  }

  lemma ExecutionGoesOn(s: Fdc)
    requires Executing(s)
    ensures NextStatus(s) == s
  {
  }

  /** The state in which all arguments of `op` have arrived. */
  function Ready(s: Fdc, op: Op, mt: bool, a: seq<byte>): Fdc
    requires |a| == op.ArgsLen() <= 8
  {
    s.(c := Control(Args, Some(op), mt, false, false, true),
       x := s.x.(irq := false, rwcount := |a|, rwmax := |a|),
       args := a + s.args[|a|..])
  }

  /** The command byte, without its option bits, of an operation that takes arguments. */
  predicate Commands(value: byte, op: Op) {
    match op
    case ReadTrack => value % 32 == 0x02
    case Specify => value % 32 == 0x03
    case WriteData => value % 32 == 0x05
    case ReadData => value % 32 == 0x06
    case Recalibrate => value % 32 == 0x07
    case WriteDeleted => value % 32 == 0x09
    case ReadDeleted => value % 32 == 0x0C
    case FormatTrack => value % 32 == 0x0D
    case Seek => value % 32 == 0x0F
    case SenseInterrupt | Invalid => false
  }

  /**
   * A command byte that is refused: while a drive is busy all but SEEK, RECALIBRATE and SENSE
   * INTERRUPT, otherwise SENSE INTERRUPT; and always one that is not in the table.
   */
  predicate Unwelcome(s: Fdc, value: byte) {
    var cmd := value % 32;
    if s.busy != {} then cmd != 0x07 && cmd != 0x08 && cmd != 0x0F
    else cmd !in [0x02, 0x03, 0x05, 0x06, 0x07, 0x09, 0x0C, 0x0D, 0x0F]
  }

  /** What a byte written in the command phase selects. */
  lemma Dispatch(s: Fdc, value: byte)
    ensures Unwelcome(s, value) <==> Select(s, value).Runs(Invalid)
    ensures Select(s, value).c.op.Some?
    ensures !Unwelcome(s, value) ==>
      if value % 32 == 0x08 then Select(s, value).Runs(SenseInterrupt)
      else Commands(value, Select(s, value).c.op.value)
  {
  }

  /** More arguments to come: nothing happens. */
  lemma ArgumentsGoOn(s: Fdc, op: Op)
    requires !s.fault && s.Is(Args) && s.x.rwcount < s.x.rwmax
    ensures Leave(EnterExec(s, op), op) == s.(c := s.c.(exm := false, cb := true))
  {
  }

  lemma CommandByte(s: Fdc, value: byte, op: Op)
    requires !s.fault && s.Is(Cmd) && !s.c.exm && Commands(value, op)
    requires s.busy == {} || op.Seek? || op.Recalibrate?
    ensures Out(s, value) ==
      s.(c := Control(Args, Some(op), Bit(value, 128), false, false, true),
         x := s.x.(irq := false, rwcount := 0, rwmax := op.ArgsLen()))
  {
    var s1 := Select(Calm(s), value);
    ArgumentsGoOn(EnterArgs(s1, op), op);
  }

  lemma OneArgument(s: Fdc, op: Op, value: byte)
    requires !s.fault && s.Is(Args) && s.c.op == Some(op) && s.c.cb && !s.c.exm && !s.x.irq
    requires s.x.rwcount < s.x.rwmax <= 8
    ensures var s1 := s.(args := s.args[s.x.rwcount := value], x := s.x.(rwcount := s.x.rwcount + 1));
      Out(s, value) == if s1.x.rwcount < s1.x.rwmax then s1 else Leave(EnterExec(s1, op), op)
  {
    var s1 := EnterArgs(OutPhase(Calm(s), value), op);
    if s1.x.rwcount < s1.x.rwmax {
      ArgumentsGoOn(s1, op);
    }
  }

  function WithArgument(s: Fdc, value: byte): Fdc
    requires s.x.rwcount < 8
  {
    s.(args := s.args[s.x.rwcount := value], x := s.x.(rwcount := s.x.rwcount + 1))
  }

  /** The buffer already holds the first `i` of the arguments `a`. */
  predicate Collecting(s: Fdc, op: Op, a: seq<byte>) {
    && !s.fault && s.c == Control(Args, Some(op), s.c.mt, false, false, true) && !s.x.irq
    && |a| == op.ArgsLen() == s.x.rwmax <= 8 && s.x.rwcount <= |a| && s.args[..s.x.rwcount] == a[..s.x.rwcount]
  }

  lemma CollectOne(s: Fdc, op: Op, a: seq<byte>)
    requires Collecting(s, op, a) && s.x.rwcount < |a|
    ensures var t := WithArgument(s, a[s.x.rwcount]);
      Collecting(t, op, a) && Ready(t, op, s.c.mt, a) == Ready(s, op, s.c.mt, a)
  {
    var i := s.x.rwcount;
    var args := s.args[i := a[i]];
    assert args[..i + 1] == a[..i + 1];
    assert args[|a|..] == s.args[|a|..];
  }

  lemma CollectedAll(s: Fdc, op: Op, a: seq<byte>)
    requires Collecting(s, op, a) && s.x.rwcount == |a|
    ensures s == Ready(s, op, s.c.mt, a)
  {
    assert s.args == a + s.args[|a|..];
  }

  lemma {:induction false} Arguments(s: Fdc, op: Op, a: seq<byte>)
    requires Collecting(s, op, a) && s.x.rwcount < |a|
    ensures Outs(s, a[s.x.rwcount..]) == Leave(EnterExec(Ready(s, op, s.c.mt, a), op), op)
    decreases |a| - s.x.rwcount
  {
    var i := s.x.rwcount;
    var s1 := WithArgument(s, a[i]);
    OneArgument(s, op, a[i]);
    CollectOne(s, op, a);
    assert a[i..][1..] == a[i + 1..];
    if i + 1 < |a| {
      Arguments(s1, op, a);
    } else {
      CollectedAll(s1, op, a);
    }
  }

  /** A command byte and its arguments bring the controller to the start of the operation. */
  lemma Issue(s: Fdc, value: byte, op: Op, a: seq<byte>)
    requires !s.fault && s.Is(Cmd) && !s.c.exm && Commands(value, op) && |a| == op.ArgsLen()
    requires s.busy == {} || op.Seek? || op.Recalibrate?
    ensures Outs(s, [value] + a) == Leave(EnterExec(Ready(s, op, Bit(value, 128), a), op), op)
  {
    CommandByte(s, value, op);
    assert ([value] + a)[1..] == a;
    var s1 := Out(s, value);
    assert s1.args[..0] == a[..0] && a[0..] == a;
    Arguments(s1, op, a);
    assert Ready(s1, op, Bit(value, 128), a) == Ready(s, op, Bit(value, 128), a);
  }

  /** A data access: `None` reads, `Some` writes. */
  function Access(s: Fdc, e: Option<byte>): Fdc {
    match e
    case None => In(s).s
    case Some(v) => Out(s, v)
  }

  function Accesses(s: Fdc, es: seq<Option<byte>>): Fdc
    decreases |es|
  {
    if es == [] then s else Accesses(Access(s, es[0]), es[1..])
  }

  /** The controller after the last result byte. */
  function Drained(s: Fdc): Fdc {
    s.(c := s.c.(phase := Cmd, dio := false, exm := false, cb := false),
       x := s.x.(irq := false, rwcount := 0, rwmax := 0))
  }

  lemma OneResult(s: Fdc)
    requires !s.fault && s.Is(Result) && s.c.op.Some? && s.c.cb && !s.c.exm && s.x.rwcount < s.x.rwmax <= 7
    ensures In(s) ==
      Reply(if s.x.rwcount + 1 < s.x.rwmax then s.(x := s.x.(irq := false, rwcount := s.x.rwcount + 1)) else Drained(s),
            s.result[s.x.rwcount])
  {
  }

  /** Reading the result phase returns the result bytes in order and ends the command. */
  lemma {:induction false} Drain(s: Fdc, n: nat)
    requires !s.fault && s.Is(Result) && s.c.op.Some? && s.c.cb && !s.c.exm
    requires 0 < n && s.x.rwcount + n == s.x.rwmax <= 7
    ensures Ins(s, n) == Stream(Drained(s), s.result[s.x.rwcount..s.x.rwmax])
    decreases n
  {
    hide In;
    OneResult(s);
    var i := s.x.rwcount;
    assert s.result[i..i + n] == [s.result[i]] + s.result[i + 1..i + n];
    if n > 1 {
      Drain(s.(x := s.x.(irq := false, rwcount := i + 1)), n - 1);
    } else {
      assert Ins(Drained(s), 0) == Stream(Drained(s), []);
    }
  }
}
