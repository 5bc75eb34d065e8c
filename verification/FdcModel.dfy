/**
 * The floppy disk controller as a state machine over port accesses.
 *
 * Every function below takes the whole controller state and returns the next one. A failed
 * assertion (or an access outside a buffer, or a call through a missing callback) ends the
 * emulator; it is modelled by `fault`, which no later access changes.
 */
module FdcModel {
  import opened Bytes
  import opened Floppy

  datatype Phase = Cmd | Args | Exec | Result

  /** The operation descriptors; `Invalid` is the dummy one that answers unknown commands. */
  datatype Op =
    | ReadTrack | Specify | WriteData | ReadData | Recalibrate | SenseInterrupt
    | WriteDeleted | ReadDeleted | FormatTrack | Seek | Invalid
  {
    function ArgsLen(): nat {
      match this
      case ReadTrack | WriteData | ReadData | WriteDeleted | ReadDeleted => 8
      case FormatTrack => 5
      case Specify | Seek => 2
      case Recalibrate => 1
      case SenseInterrupt | Invalid => 0
    }

    function ResultLen(): nat {
      match this
      case ReadTrack | WriteData | ReadData | WriteDeleted | ReadDeleted | FormatTrack => 7
      case SenseInterrupt => 2
      case Invalid => 1
      case Specify | Seek | Recalibrate => 0
    }

    predicate IsRead() { ReadTrack? || ReadData? || ReadDeleted? }

    predicate IsWrite() { WriteData? || WriteDeleted? }

    predicate HasExec() { IsRead() || IsWrite() || FormatTrack? }
  }

  function Decode(cmd: byte): Option<Op> {
    match cmd
    case 0x02 => Some(ReadTrack)
    case 0x03 => Some(Specify)
    case 0x05 => Some(WriteData)
    case 0x06 => Some(ReadData)
    case 0x07 => Some(Recalibrate)
    case 0x08 => Some(SenseInterrupt)
    case 0x09 => Some(WriteDeleted)
    case 0x0C => Some(ReadDeleted)
    case 0x0D => Some(FormatTrack)
    case 0x0F => Some(Seek)
    case _ => None
  }

  /** The ID register: the raw unit/head byte, and the cylinder, head and record of a sector. */
  datatype Idr = Idr(phyHead: byte, cylinder: byte, head: byte, record: byte) {
    predicate Side() { Bit(phyHead, 4) }
  }

  type ArgBytes = a: seq<byte> | |a| == 8 witness [0, 0, 0, 0, 0, 0, 0, 0]
  type ResultBytes = a: seq<byte> | |a| == 7 witness [0, 0, 0, 0, 0, 0, 0]
  type ExecBytes = a: seq<byte> | |a| == 1024 witness seq(1024, _ => 0)
  type Tracks = a: seq<byte> | |a| == 4 witness [0, 0, 0, 0]

  /** The protocol: phase, selected operation, MT option and the phase bits of the status register. */
  datatype Control = Control(phase: Phase, op: Option<Op>, mt: bool, dio: bool, exm: bool, cb: bool)

  /** The transfer: access counters, sector buffer, TC and INT lines, status registers, ID registers. */
  datatype Xfer = Xfer(
    rwcount: nat, rwmax: nat, exec: ExecBytes, tc: bool, irq: bool,
    st0: byte, st1: byte, st2: byte, idr: Idr, next: Idr)

  /** The registered callbacks and the images behind them. */
  datatype Media = Media(canRead: bool, canWrite: bool, disk: Disk)

  datatype Fdc = Fdc(
    c: Control, x: Xfer, m: Media, args: ArgBytes, result: ResultBytes,
    track: Tracks, busy: set<nat>, fault: bool)
  {
    predicate Is(phase: Phase) { c.phase == phase }
    predicate Runs(op: Op) { c.op == Some(op) }
    function Drive(): nat { args[0] % 4 }
    function SizeFactor(): byte { args[4] }
    function Eot(): byte { args[5] }
    function Spt(): byte { args[2] }
    function Filler(): byte { args[4] }
  }

  datatype Reply = Reply(s: Fdc, value: byte)

  function Abort(s: Fdc): Fdc {
    s.(fault := true)
  }

  // ---- Sector transfers ----

  /** The ID of the sector after `id`: next record, else record 1 of the next side or cylinder. */
  function Advance(id: Idr, mt: bool, eot: byte): Idr {
    var record := Inc(id.record);
    if record <= eot then id.(record := record)
    else if !mt then id.(record := 1, cylinder := Inc(id.cylinder))
    else
      var phyHead := if Bit(id.phyHead, 4) then ClearBit(id.phyHead, 4) else SetBit(id.phyHead, 4);
      Idr(phyHead, if Bit(phyHead, 4) then id.cylinder else Inc(id.cylinder), Bool(id.head == 0), 1)
  }

  /** What the controller asks the disk for when it wants sector `id` (records count from 1). */
  function RequestFor(args: ArgBytes, track: Tracks, id: Idr): Request {
    Request(args[0] % 4, id.Side(), track[args[0] % 4], id.head != 0, id.cylinder, Dec(id.record))
  }

  /** How many bytes of a sector of `len` bytes are transferred: `dtl` at most when `n` is 0. */
  function Cap(n: byte, dtl: byte, len: nat): nat {
    if n == 0 && dtl < len then dtl else len
  }

  /**
   * The outcomes of looking for the next sector: nothing to do yet, an error, record 0, or a
   * sector of `len` bytes, whose contents (for a read) go to the buffer.
   */
  datatype Outcome = Stall | Reject | Zero | Accept(data: seq<byte>, len: nat)

  function FindForRead(id: Idr, args: ArgBytes, track: Tracks, m: Media): (o: Outcome)
    ensures o.Accept? ==> 0 < |o.data| == o.len <= 1024 && 1 <= id.record <= 16
  {
    if id.record == 0 then Zero
    else if !m.canRead then Stall
    else match Ask(m.disk, RequestFor(args, track, id))
         case NoMedium => Stall
         case BadGeometry => Reject
         case At(_) =>
           var data := Fetch(m.disk, RequestFor(args, track, id));
           if data == [] then Stall else Accept(data, |data|)
  }

  function FindForWrite(id: Idr, args: ArgBytes, track: Tracks, m: Media): (o: Outcome)
    ensures o.Accept? ==> o.data == [] && o.len <= 1024 && 1 <= id.record <= 16
  {
    if id.record == 0 then Zero
    else if !m.canWrite then Stall
    else match Ask(m.disk, RequestFor(args, track, id))
         case NoMedium => Stall
         case BadGeometry => Reject
         case At(r) => Accept([], r.len)
  }

  function ReadOutcome(s: Fdc): Outcome {
    FindForRead(s.x.next, s.args, s.track, s.m)
  }

  function WriteOutcome(s: Fdc): Outcome {
    FindForWrite(s.x.next, s.args, s.track, s.m)
  }

  function Rejected(x: Xfer): Xfer {
    x.(irq := true, tc := true, st0 := SetBit(x.st0, 64), st1 := SetBit(x.st1, 32), st2 := SetBit(x.st2, 32))
  }

  /** The counters and status registers restart with every sector; an accepted one moves the ID registers. */
  function Settle(x: Xfer, args: ArgBytes, mt: bool, o: Outcome): Xfer
    requires o.Accept? ==> |o.data| <= 1024
  {
    var x1 := x.(rwcount := 0, rwmax := 0, st0 := args[0] % 4, st1 := 0, st2 := 0);
    match o
    case Stall | Zero => x1
    case Reject => Rejected(x1)
    case Accept(data, len) =>
      x1.(irq := true, rwmax := Cap(args[4], args[7], len), exec := data + x.exec[|data|..],
          idr := x.next, next := Advance(x.next, mt, args[5]))
  }

  function Attempt(s: Fdc, o: Outcome): Fdc
    requires o.Accept? ==> |o.data| <= 1024
  {
    s.(x := Settle(s.x, s.args, s.c.mt, o), fault := o.Zero?)
  }

  function PrepareRead(s: Fdc): Fdc {
    Attempt(s, ReadOutcome(s))
  }

  function CommitWrite(s: Fdc): Fdc {
    Attempt(s, WriteOutcome(s))
  }

  function ServeByte(s: Fdc): Reply {
    if s.x.rwcount >= 1024 then Reply(Abort(s), 0)
    else Reply(s.(x := s.x.(rwcount := s.x.rwcount + 1, irq := true)), s.x.exec[s.x.rwcount])
  }

  function ExecRead(s: Fdc): Reply {
    if s.x.rwcount < s.x.rwmax then ServeByte(s)
    else
      var o := ReadOutcome(s);
      var s1 := Attempt(s, o);
      if o.Accept? then ServeByte(s1)
      else if s1.fault then Reply(s1, 0)
      else Reply(s1.(x := s1.x.(irq := true)), 0)
  }

  /** Hands the full buffer to the disk as the sector named by the ID register. */
  function Flush(s: Fdc): Fdc {
    if s.x.idr.record == 0 then Abort(s)
    else
      var q := RequestFor(s.args, s.track, s.x.idr);
      match Ask(s.m.disk, q)
      case NoMedium | BadGeometry => s.(x := Rejected(s.x))
      case At(r) => s.(m := s.m.(disk := Store(s.m.disk, q, s.x.exec[..r.len])))
  }

  function PutByte(s: Fdc, value: byte): Fdc {
    if s.x.rwcount >= 1024 then Abort(s)
    else
      var x := s.x.(exec := s.x.exec[s.x.rwcount := value], rwcount := s.x.rwcount + 1, irq := true);
      if x.rwcount == x.rwmax then Flush(s.(x := x)) else s.(x := x)
  }

  function ExecWrite(s: Fdc, value: byte): Fdc {
    if !s.m.canWrite then s
    else if s.x.rwcount < s.x.rwmax then PutByte(s, value)
    else
      var o := WriteOutcome(s);
      var s1 := Attempt(s, o);
      if o.Accept? then PutByte(s1, value) else s1
  }

  function ExecFormat(s: Fdc, value: byte): Fdc {
    if s.x.rwcount >= 1024 then Abort(s)
    else s.(x := s.x.(exec := s.x.exec[s.x.rwcount := value], rwcount := s.x.rwcount + 1))
  }

  function ExecStep(s: Fdc, op: Op, value: byte): Reply {
    if op.IsRead() then ExecRead(s)
    else if op.IsWrite() then Reply(ExecWrite(s, value), 0)
    else if op.FormatTrack? then Reply(ExecFormat(s, value), 0)
    else Reply(s, 0)
  }

  // ---- Start of the execution phase ----

  function StartId(s: Fdc, dio: bool): Fdc {
    var id := Idr(s.args[0], s.args[1], s.args[2], s.args[3]);
    s.(c := s.c.(dio := dio), x := s.x.(idr := id, next := id))
  }

  function PreRead(s: Fdc): Fdc {
    PrepareRead(StartId(s, true))
  }

  function PreWrite(s: Fdc): Fdc {
    CommitWrite(StartId(s, false))
  }

  /** The head is on the new track at once; the drive stays busy until it is sensed. */
  function MoveHead(s: Fdc, cylinder: byte): Fdc {
    s.(track := s.track[s.Drive() := cylinder], busy := s.busy + {s.Drive()},
       x := s.x.(irq := true, st0 := s.Drive()))
  }

  /** FORMAT addresses the drive's current track, on the side named by the command. */
  function FormatRequest(s: Fdc, head: bool, cylinder: byte, sector: byte): Request {
    Request(s.Drive(), Bit(s.args[0], 4), s.track[s.Drive()], head, cylinder, sector)
  }

  function PreFormat(s: Fdc): Fdc {
    var x := s.x.(st0 := s.args[0], st1 := 0, st2 := 0, rwcount := 0, rwmax := 4 * s.Spt());
    if !s.m.canWrite then s.(x := x)
    else match Ask(s.m.disk, FormatRequest(s, Bit(s.args[0], 4), s.track[s.Drive()], 0))
         case NoMedium | BadGeometry => s.(x := Rejected(x))
         case At(_) => s.(x := x.(irq := true))
  }

  function PreExec(s: Fdc, op: Op): Fdc {
    match op
    case ReadTrack => PreRead(s.(args := s.args[3 := 1]))
    case ReadData | ReadDeleted => PreRead(s)
    case WriteData | WriteDeleted => PreWrite(s)
    case Recalibrate => MoveHead(s, 0)
    case Seek => MoveHead(s, s.args[1])
    case FormatTrack => PreFormat(s)
    case Specify | SenseInterrupt | Invalid => s
  }

  // ---- End of the execution phase ----

  /** After an error the result names the last sector transferred, otherwise the next one. */
  function TransferResult(x: Xfer, n: byte): ResultBytes {
    var id := if x.st0 < 64 then x.next else x.idr;
    [if id.Side() then SetBit(x.st0, 4) else ClearBit(x.st0, 4), x.st1, x.st2, id.cylinder, id.head, id.record, n]
  }

  /** The lowest numbered busy drive. */
  function FirstBusy(busy: set<nat>): nat {
    if 0 in busy then 0 else if 1 in busy then 1 else if 2 in busy then 2 else 3
  }

  function PostSense(s: Fdc): Fdc {
    if s.busy == {} then Abort(s)
    else
      var drive := FirstBusy(s.busy);
      var rest := s.busy - {drive};
      s.(busy := rest, x := s.x.(irq := s.x.irq || rest != {}),
         result := s.result[0 := SetBit(s.x.st0, 32)][1 := s.track[drive]])
  }

  /** The sector named by the `sec`-th ID field received by FORMAT. */
  function FieldRequest(s: Fdc, sec: nat): Request
    requires sec < 256
  {
    FormatRequest(s, s.x.exec[4 * sec + 1] != 0, s.x.exec[4 * sec], Dec(s.x.exec[4 * sec + 2]))
  }

  function Fill(n: nat, value: byte): (r: seq<byte>)
    ensures |r| == n && forall i :: 0 <= i < n ==> r[i] == value
  {
    seq(n, _ => value)
  }

  function FormatField(s: Fdc, sec: nat): Fdc
    requires sec < 256
  {
    if !s.m.canWrite then Abort(s)
    else
      var q := FieldRequest(s, sec);
      match Ask(s.m.disk, q)
      case NoMedium | BadGeometry => s.(x := Rejected(s.x))
      case At(r) => s.(m := s.m.(disk := Store(s.m.disk, q, Fill(r.len, s.Filler()))))
  }

  /** Formats fields `0..sec` in order. */
  function FormatFields(s: Fdc, sec: nat): Fdc
    requires sec <= 256
  {
    if sec == 0 then s
    else
      var s1 := FormatFields(s, sec - 1);
      if s1.fault then s1 else FormatField(s1, sec - 1)
  }

  function PostFormat(s: Fdc): Fdc {
    var s1 := FormatFields(s, s.Spt());
    if s1.fault then s1 else s1.(result := [s1.x.st0, s1.x.st1, s1.x.st2, 0, 0, 0, 0])
  }

  function PostExec(s: Fdc, op: Op): Fdc {
    match op
    case ReadTrack | ReadData | ReadDeleted | WriteData | WriteDeleted =>
      s.(result := TransferResult(s.x, s.SizeFactor()))
    case SenseInterrupt => PostSense(s)
    case FormatTrack => PostFormat(s)
    case Specify | Recalibrate | Seek | Invalid => s
  }

  // ---- Phase changes ----

  function EnterArgs(s: Fdc, op: Op): Fdc {
    match s.c.phase
    case Exec => s
    case Cmd => s.(c := s.c.(dio := false, phase := Args), x := s.x.(rwmax := op.ArgsLen(), rwcount := 0))
    case Args | Result => s.(x := s.x.(rwcount := s.x.rwcount + 1))
  }

  function EnterExec(s: Fdc, op: Op): Fdc {
    if s.Is(Args) && s.x.rwcount == s.x.rwmax then
      var s1 := PreExec(s.(c := s.c.(phase := Exec)), op);
      if s1.fault then s1 else s1.(x := s1.x.(rwcount := 0))
    else s
  }

  function EnterResult(s: Fdc, op: Op): Fdc {
    if s.Is(Exec) && (s.x.tc || !op.HasExec()) then
      var s1 := PostExec(s.(c := s.c.(dio := true), x := s.x.(tc := false)), op);
      if s1.fault then s1
      else s1.(c := s1.c.(phase := Result), x := s1.x.(rwmax := op.ResultLen(), rwcount := 0))
    else s
  }

  /** Back to the command phase after the last result byte, and the phase bits of the status register. */
  function EnterCmd(s: Fdc): Fdc {
    if s.Is(Result) && s.x.rwcount == s.x.rwmax then
      s.(c := s.c.(phase := Cmd, dio := false, exm := false, cb := false), x := s.x.(rwmax := 0, rwcount := 0))
    else s.(c := s.c.(exm := s.Is(Exec), cb := !s.Is(Cmd)))
  }

  function Leave(s: Fdc, op: Op): Fdc {
    if s.fault then s
    else
      var s1 := EnterResult(s, op);
      if s1.fault then s1 else EnterCmd(s1)
  }

  /** What happens after every access to the data register: one access may cross several phases. */
  function NextStatus(s: Fdc): Fdc {
    if s.c.op.None? then s
    else Leave(EnterExec(EnterArgs(s, s.c.op.value), s.c.op.value), s.c.op.value)
  }

  // ---- Port accesses ----

  /** SEEK and RECALIBRATE are always in sequence; SENSE INTERRUPT only when a drive is busy. */
  predicate OutOfSequence(s: Fdc, cmd: byte) {
    if cmd == 0x0F || cmd == 0x07 then false
    else if cmd == 0x08 then s.busy == {}
    else s.busy != {}
  }

  function Select(s: Fdc, value: byte): Fdc {
    var cmd := value % 32;
    var op := if OutOfSequence(s, cmd) then None else Decode(cmd);
    if op.Some? then s.(c := s.c.(mt := Bit(value, 128), op := op))
    else
      var st0 := SetBit(s.x.st0 - s.x.st0 % 4, 128);
      s.(c := s.c.(mt := Bit(value, 128), op := Some(Invalid)), x := s.x.(st0 := st0), result := s.result[0 := st0])
  }

  /** Any access drops the interrupt line first. */
  function Calm(s: Fdc): Fdc {
    s.(x := s.x.(irq := false))
  }

  function OutPhase(s: Fdc, value: byte): Fdc {
    match s.c.phase
    case Cmd => Select(s, value)
    case Args => if s.x.rwcount >= 8 then Abort(s) else s.(args := s.args[s.x.rwcount := value])
    case Exec => if s.c.op.Some? then ExecStep(s, s.c.op.value, value).s else s
    case Result => s
  }

  /** A write to the data register. */
  function Out(s: Fdc, value: byte): Fdc {
    if s.fault then s
    else
      var s1 := OutPhase(Calm(s), value);
      if s1.fault then s1 else NextStatus(s1)
  }

  function InPhase(s: Fdc): Reply {
    match s.c.phase
    case Cmd => Reply(s.(c := s.c.(dio := false)), s.x.st0)
    case Args => Reply(s, 0)
    case Exec => if s.c.op.Some? then ExecStep(s, s.c.op.value, 0) else Reply(s, 0)
    case Result => if s.x.rwcount >= 7 then Reply(Abort(s), 0) else Reply(s, s.result[s.x.rwcount])
  }

  /** A read of the data register. */
  function In(s: Fdc): Reply {
    if s.fault then Reply(s, 0)
    else
      var r := InPhase(Calm(s));
      if r.s.fault then r else Reply(NextStatus(r.s), r.value)
  }

  /** The main status register; RQM is always set. */
  function Msr(s: Fdc): int {
    128 + (if s.c.dio then 64 else 0) + (if s.c.exm then 32 else 0) + (if s.c.cb then 16 else 0)
    + (if 3 in s.busy then 8 else 0) + (if 2 in s.busy then 4 else 0)
    + (if 1 in s.busy then 2 else 0) + (if 0 in s.busy then 1 else 0)
  }

  /** An access to the status register only drops the interrupt line. */
  function TouchStatus(s: Fdc): Fdc {
    if s.fault then s else Calm(s)
  }

  /** The terminal count line. */
  function Terminate(s: Fdc): Fdc {
    if s.fault || !s.Is(Exec) then s else NextStatus(s.(x := s.x.(tc := true)))
  }

  /** Registers disk callbacks; a waiting READ DATA or WRITE DATA tries its sector again. */
  function Kick(s: Fdc, canRead: bool, canWrite: bool): Fdc {
    if s.fault then s
    else
      var s1 := s.(m := s.m.(canRead := canRead, canWrite := canWrite));
      if s.Is(Exec) && s.Runs(ReadData) then PrepareRead(s1)
      else if s.Is(Exec) && s.Runs(WriteData) then CommitWrite(s1)
      else s1
  }

  function SetUnit(s: Fdc, unit: nat, file: Option<File>): Fdc
    requires unit < UNITS
  {
    s.(m := s.m.(disk := s.m.disk[unit := file]))
  }

  function Unload(s: Fdc, unit: nat): Fdc
    requires unit < UNITS
  {
    if s.fault || s.m.disk[unit].None? then s else Kick(SetUnit(s, unit, None), false, false)
  }

  /** Loads an image into a drive; `None` is a file that cannot be opened. */
  function Load(s: Fdc, unit: nat, file: Option<File>): Fdc
    requires unit < UNITS
  {
    var s1 := Unload(s, unit);
    if s1.fault || file.None? then s1 else Kick(SetUnit(s1, unit, file), true, true)
  }

  function Restart(s: Fdc): Fdc {
    if s.fault then s
    else s.(c := Control(Cmd, None, s.c.mt, false, false, false),
            x := s.x.(rwmax := 0, tc := false, irq := false),
            result := [0, 0, 0, 0, 0, 0, 0], busy := {}, track := [0, 0, 0, 0])
  }

  // ---- Runs ----

  datatype Event =
    | DataOut(value: byte) | DataIn | StatusAccess | TerminalCount
    | KickImage(canRead: bool, canWrite: bool)
    | LoadImage(unit: nat, file: Option<File>) | UnloadImage(unit: nat) | Reset
  {
    predicate Ok() {
      (LoadImage? || UnloadImage?) ==> unit < UNITS
    }
  }

  function Step(s: Fdc, e: Event): Fdc
    requires e.Ok()
  {
    match e
    case DataOut(v) => Out(s, v)
    case DataIn => In(s).s
    case StatusAccess => TouchStatus(s)
    case TerminalCount => Terminate(s)
    case KickImage(r, w) => Kick(s, r, w)
    case LoadImage(u, f) => Load(s, u, f)
    case UnloadImage(u) => Unload(s, u)
    case Reset => Restart(s)
  }

  /** The controller after power-on: callbacks missing, no images, every buffer zero. */
  const POWER_ON: Fdc :=
    Fdc(Control(Cmd, None, false, false, false, false),
        Xfer(0, 0, seq(1024, _ => 0), false, false, 0, 0, 0, Idr(0, 0, 0, 0), Idr(0, 0, 0, 0)),
        Media(false, false, [None, None, None, None]),
        [0, 0, 0, 0, 0, 0, 0, 0], [0, 0, 0, 0, 0, 0, 0], [0, 0, 0, 0], {}, false)

  function Run(s: Fdc, events: seq<Event>): Fdc
    requires forall e :: e in events ==> e.Ok()
    decreases |events|
  {
    if events == [] then s else Run(Step(s, events[0]), events[1..])
  }

  /** A series of writes to the data register. */
  function Outs(s: Fdc, values: seq<byte>): Fdc
    decreases |values|
  {
    if values == [] then s else Outs(Out(s, values[0]), values[1..])
  }

  datatype Stream = Stream(s: Fdc, values: seq<byte>)

  /** A series of `n` reads of the data register. */
  function Ins(s: Fdc, n: nat): Stream
    decreases n
  {
    if n == 0 then Stream(s, [])
    else
      var r := In(s);
      var rest := Ins(r.s, n - 1);
      Stream(rest.s, [r.value] + rest.values)
  }
}
