/** The controller as the program has it: registers and buffers updated in place by every access. */
module FdcController {
  import opened Bytes
  import opened Floppy
  import opened FloppyUnits
  import M = FdcModel
  import opened FdcModel

  const OPERATIONS: seq<(byte, Op)> := [
    (0x02, ReadTrack), (0x03, Specify), (0x05, WriteData), (0x06, ReadData), (0x07, Recalibrate),
    (0x08, SenseInterrupt), (0x09, WriteDeleted), (0x0C, ReadDeleted), (0x0D, FormatTrack), (0x0F, Op.Seek)]

  class Controller {
    const floppy: Units
    const args: array<byte>
    const execBuffer: array<byte>
    const result: array<byte>
    const track: array<byte>
    var phase: Phase
    var currop: Option<Op>
    var mt: bool
    var rwcount: nat
    var rwcountMax: nat
    var tcStatus: bool
    var intStatus: bool
    var dio: bool
    var exm: bool
    var cb: bool
    var busy: set<nat>
    var st0: byte
    var st1: byte
    var st2: byte
    var idr: Idr
    var nextIdr: Idr
    var canRead: bool
    var canWrite: bool
    var fault: bool

    ghost predicate Valid()
      reads this`busy
    {
      && busy <= {0, 1, 2, 3}
      && args.Length == 8 && execBuffer.Length == 1024 && result.Length == 7 && track.Length == 4
    }

    ghost function X(): Xfer
      requires execBuffer.Length == 1024
      reads this`rwcount, this`rwcountMax, this`tcStatus, this`intStatus, this`st0, this`st1, this`st2, this`idr,
            this`nextIdr, execBuffer
    {
      Xfer(rwcount, rwcountMax, execBuffer[..], tcStatus, intStatus, st0, st1, st2, idr, nextIdr)
    }

    ghost function C(): Control
      reads this`phase, this`currop, this`mt, this`dio, this`exm, this`cb
    {
      Control(phase, currop, mt, dio, exm, cb)
    }

    /** The whole state, as the specification sees it. */
    ghost function State(): Fdc
      requires Valid()
      reads this, args, execBuffer, result, track, floppy
    {
      Fdc(C(), X(), Media(canRead, canWrite, floppy.fd), args[..], result[..], track[..], busy, fault)
    }

    constructor ()
      ensures Valid() && State() == POWER_ON
      ensures fresh(this) && fresh(floppy) && fresh(args) && fresh(execBuffer) && fresh(result) && fresh(track)
    {
      floppy := new Units();
      args := new byte[8](_ => 0);
      execBuffer := new byte[1024](_ => 0);
      result := new byte[7](_ => 0);
      track := new byte[4](_ => 0);
      phase, currop, mt, rwcount, rwcountMax := Cmd, None, false, 0, 0;
      tcStatus, intStatus, dio, exm, cb, busy := false, false, false, false, false, {};
      st0, st1, st2, idr, nextIdr := 0, 0, 0, Idr(0, 0, 0, 0), Idr(0, 0, 0, 0);
      canRead, canWrite, fault := false, false, false;
    }

    // ---- Sector transfers ----

    method Reject()
      modifies this`st0, this`st1, this`st2, this`tcStatus, this`intStatus
      ensures st0 == SetBit(old(st0), 64) && st1 == SetBit(old(st1), 32) && st2 == SetBit(old(st2), 32)
      ensures tcStatus && intStatus
    {
      st0 := SetBit(st0, 64);
      st1 := SetBit(st1, 32);
      st2 := SetBit(st2, 32);
      tcStatus := true;
      intStatus := true;
    }

    method Advance()
      requires Valid()
      modifies this`nextIdr
      ensures nextIdr == M.Advance(old(nextIdr), mt, args[5])
    {
      nextIdr := nextIdr.(record := Inc(nextIdr.record));
      if nextIdr.record > args[5] {
        nextIdr := nextIdr.(record := 1);
        if mt {
          nextIdr := nextIdr.(phyHead := if Bit(nextIdr.phyHead, 4) then ClearBit(nextIdr.phyHead, 4)
                                         else SetBit(nextIdr.phyHead, 4));
          nextIdr := nextIdr.(head := Bool(nextIdr.head == 0));
          if !Bit(nextIdr.phyHead, 4) {
            nextIdr := nextIdr.(cylinder := Inc(nextIdr.cylinder));
          }
        } else {
          nextIdr := nextIdr.(cylinder := Inc(nextIdr.cylinder));
        }
      }
    }

    /** The sector is accepted: `len` bytes will be transferred, or fewer with N = 0. */
    method Accept(len: nat)
      requires Valid()
      modifies this`rwcountMax, this`idr, this`nextIdr
      ensures rwcountMax == Cap(args[4], args[7], len)
      ensures idr == old(nextIdr) && nextIdr == M.Advance(old(nextIdr), mt, args[5])
    {
      if args[4] == 0 {
        rwcountMax := if args[7] < len then args[7] else len;
      } else {
        rwcountMax := len;
      }
      idr := nextIdr;
      Advance();
    }

    method Rewind()
      requires Valid()
      modifies this`rwcount, this`rwcountMax, this`st0, this`st1, this`st2
      ensures rwcount == rwcountMax == 0 && st0 == args[0] % 4 && st1 == st2 == 0
    {
      rwcount := 0;
      rwcountMax := 0;
      st0 := args[0] % 4;
      st1 := 0;
      st2 := 0;
    }

    /** The two calls of the disk: the first one only asks whether the sector exists. */
    method ReadSector() returns (ret: int)
      requires Valid() && canRead
      modifies execBuffer
      ensures var q := RequestFor(args[..], track[..], nextIdr);
        match Ask(floppy.fd, q)
        case NoMedium => ret == 0 && execBuffer[..] == old(execBuffer[..])
        case BadGeometry => ret < 0 && execBuffer[..] == old(execBuffer[..])
        case At(_) =>
          && ret == |Fetch(floppy.fd, q)|
          && execBuffer[..] == Fetch(floppy.fd, q) + old(execBuffer[..])[ret..]
    {
      hide Fetch;
      var q := RequestFor(args[..], track[..], nextIdr);
      ret := floppy.ReadBuffer(null, q);
      if ret > 0 {
        ret := floppy.ReadBuffer(execBuffer, q);
      }
    }

    method PrepareRead() returns (ok: bool)
      requires Valid() && !fault
      modifies this`rwcount, this`rwcountMax, this`st0, this`st1, this`st2, this`tcStatus, this`intStatus,
               this`idr, this`nextIdr, this`fault, execBuffer
      ensures var o := FindForRead(old(nextIdr), args[..], track[..], Media(canRead, canWrite, floppy.fd));
        X() == Settle(old(X()), args[..], mt, o) && ok == o.Accept? && fault == o.Zero?
    {
      hide M.Advance, SetBit, Fetch;
      Rewind();
      ok := false;
      if nextIdr.record == 0 {
        fault := true;
        return;
      }
      if !canRead {
        return;
      }
      var ret := ReadSector();
      if ret == 0 {
        return;
      }
      intStatus := true;
      if ret > 0 {
        Accept(ret);
        ok := true;
        return;
      }
      Reject();
    }

    method CommitWrite() returns (ok: bool)
      requires Valid() && !fault
      modifies this`rwcount, this`rwcountMax, this`st0, this`st1, this`st2, this`tcStatus, this`intStatus,
               this`idr, this`nextIdr, this`fault, floppy
      ensures floppy.fd == old(floppy.fd)
      ensures var o := FindForWrite(old(nextIdr), args[..], track[..], Media(canRead, canWrite, floppy.fd));
        X() == Settle(old(X()), args[..], mt, o) && ok == o.Accept? && fault == o.Zero?
    {
      hide M.Advance, SetBit;
      Rewind();
      ok := false;
      if nextIdr.record == 0 {
        fault := true;
        return;
      }
      if !canWrite {
        return;
      }
      var ret := floppy.WriteBuffer(null, RequestFor(args[..], track[..], nextIdr));
      if ret == 0 {
        return;
      }
      intStatus := true;
      if ret > 0 {
        Accept(ret);
        ok := true;
        assert [] + execBuffer[0..] == execBuffer[..];
        return;
      }
      Reject();
    }

    // ---- Execution callbacks ----

    /** `exec_read_data`: one byte to the host; loads the next sector when this one is used up. */
    method ExecRead() returns (value: byte)
      requires Valid() && !fault
      modifies this`rwcount, this`rwcountMax, this`st0, this`st1, this`st2, this`tcStatus, this`intStatus,
               this`idr, this`nextIdr, this`fault, execBuffer
      ensures var r := M.ExecRead(old(State()));
        X() == r.s.x && fault == r.s.fault && value == r.value
    {
      hide M.Advance, SetBit, Fetch;
      value := 0;
      if rwcount >= rwcountMax {
        var ok := PrepareRead();
        if fault {
          return;
        }
        if !ok {
          intStatus := true;
          return;
        }
      }
      if rwcount >= 1024 {
        fault := true;
        return;
      }
      value := execBuffer[rwcount];
      rwcount := rwcount + 1;
      intStatus := true;
    }

    /** Hands the full sector buffer to the disk. */
    method Flush()
      requires Valid() && !fault
      modifies this`st0, this`st1, this`st2, this`tcStatus, this`intStatus, this`fault, floppy
      ensures var t := M.Flush(old(State()));
        X() == t.x && floppy.fd == t.m.disk && fault == t.fault
    {
      hide SetBit, Overwrite;
      if idr.record == 0 {
        fault := true;
        return;
      }
      var ret := floppy.WriteBuffer(execBuffer, RequestFor(args[..], track[..], idr));
      if ret <= 0 {
        Reject();
      }
    }

    method PutByte(value: byte)
      requires Valid() && !fault
      modifies this`rwcount, this`st0, this`st1, this`st2, this`tcStatus, this`intStatus, this`fault, execBuffer, floppy
      ensures var t := M.PutByte(old(State()), value);
        X() == t.x && floppy.fd == t.m.disk && fault == t.fault
    {
      hide SetBit, M.Flush;
      if rwcount >= 1024 {
        fault := true;
        return;
      }
      ghost var s := State();
      execBuffer[rwcount] := value;
      rwcount := rwcount + 1;
      intStatus := true;
      assert execBuffer[..] == s.x.exec[s.x.rwcount := value];
      if rwcount == rwcountMax {
        Flush();
      }
    }

    /** `exec_write_data`: one byte into the buffer; claims the next sector when this one is full. */
    method ExecWrite(value: byte)
      requires Valid() && !fault
      modifies this`rwcount, this`rwcountMax, this`st0, this`st1, this`st2, this`tcStatus, this`intStatus,
               this`idr, this`nextIdr, this`fault, execBuffer, floppy
      ensures var t := M.ExecWrite(old(State()), value);
        X() == t.x && floppy.fd == t.m.disk && fault == t.fault
    {
      hide Settle, FindForWrite, M.PutByte;
      if !canWrite {
        return;
      }
      if rwcount >= rwcountMax {
        var ok := CommitWrite();
        if !ok {
          return;
        }
      }
      PutByte(value);
    }

    method ExecFormat(value: byte)
      requires Valid() && !fault
      modifies this`rwcount, this`fault, execBuffer
      ensures var t := M.ExecFormat(old(State()), value);
        X() == t.x && fault == t.fault
    {
      if rwcount >= 1024 {
        fault := true;
        return;
      }
      execBuffer[rwcount] := value;
      rwcount := rwcount + 1;
    }

    /** The exec callback of an operation, if it has one. */
    method ExecStep(op: Op, value: byte) returns (ret: byte)
      requires Valid() && !fault
      modifies this`rwcount, this`rwcountMax, this`st0, this`st1, this`st2, this`tcStatus, this`intStatus,
               this`idr, this`nextIdr, this`fault, execBuffer, floppy
      ensures var r := M.ExecStep(old(State()), op, value);
        X() == r.s.x && floppy.fd == r.s.m.disk && fault == r.s.fault && ret == r.value
    {
      hide M.ExecRead, M.ExecWrite, M.ExecFormat;
      ret := 0;
      ghost var s := State();
      if op.IsRead() {
        ret := ExecRead();
        ReadKeepsMedia(s);
      } else if op.IsWrite() {
        ExecWrite(value);
      } else if op.FormatTrack? {
        ExecFormat(value);
        ReadKeepsMedia(s);
      }
    }

    static lemma ReadKeepsMedia(s: Fdc)
      ensures M.ExecRead(s).s.m == s.m
      ensures forall value: byte :: M.ExecFormat(s, value).m == s.m
    {
    }

    // ---- Before and after the execution phase ----

    method LoadId()
      requires Valid()
      modifies this`idr, this`nextIdr
      ensures idr == nextIdr == Idr(args[0], args[1], args[2], args[3])
    {
      idr := Idr(args[0], args[1], args[2], args[3]);
      nextIdr := idr;
    }

    static lemma PreReadFinds(s: Fdc)
      ensures var e := StartId(s, true);
        var o := FindForRead(e.x.next, s.args, s.track, s.m);
        M.PreRead(s) == e.(x := Settle(e.x, s.args, s.c.mt, o), fault := o.Zero?)
    {
    }

    static lemma PreWriteFinds(s: Fdc)
      ensures var e := StartId(s, false);
        var o := FindForWrite(e.x.next, s.args, s.track, s.m);
        M.PreWrite(s) == e.(x := Settle(e.x, s.args, s.c.mt, o), fault := o.Zero?)
    {
    }

    method PreExecRead()
      requires Valid() && !fault
      modifies this`dio, this`rwcount, this`rwcountMax, this`st0, this`st1, this`st2, this`tcStatus, this`intStatus,
               this`idr, this`nextIdr, this`fault, execBuffer
      ensures var t := M.PreRead(old(State()));
        X() == t.x && C() == t.c && fault == t.fault
    {
      hide FindForRead, Settle, M.PreRead;
      PreReadFinds(State());
      dio := true;
      LoadId();
      var _ := PrepareRead();
    }

    method PreExecReadTrack()
      requires Valid() && !fault
      modifies this`dio, this`rwcount, this`rwcountMax, this`st0, this`st1, this`st2, this`tcStatus, this`intStatus,
               this`idr, this`nextIdr, this`fault, execBuffer, args
      ensures Valid()
      ensures State() == M.PreRead(old(State()).(args := old(args[..])[3 := 1]))
    {
      hide M.PreRead;
      args[3] := 1;
      PreKeeps(State());
      PreExecRead();
    }

    method PreExecWrite()
      requires Valid() && !fault
      modifies this`dio, this`rwcount, this`rwcountMax, this`st0, this`st1, this`st2, this`tcStatus, this`intStatus,
               this`idr, this`nextIdr, this`fault, floppy
      ensures floppy.fd == old(floppy.fd)
      ensures var t := M.PreWrite(old(State()));
        X() == t.x && C() == t.c && fault == t.fault
    {
      hide FindForWrite, Settle, M.PreWrite;
      PreWriteFinds(State());
      dio := false;
      LoadId();
      var _ := CommitWrite();
    }

    method MoveHead(cylinder: byte)
      requires Valid()
      modifies this`busy, this`st0, this`intStatus, track
      ensures Valid() && track[..] == old(track[..])[args[0] % 4 := cylinder] && busy == old(busy) + {args[0] % 4}
      ensures st0 == args[0] % 4 && intStatus
    {
      var drive := args[0] % 4;
      track[drive] := cylinder;
      intStatus := true;
      st0 := drive;
      busy := busy + {drive};
    }

    method PreExecFormat()
      requires Valid() && !fault
      modifies this`rwcount, this`rwcountMax, this`st0, this`st1, this`st2, this`tcStatus, this`intStatus, floppy
      ensures floppy.fd == old(floppy.fd)
      ensures X() == PreFormat(old(State())).x
    {
      hide SetBit, Ask, Rejected;
      StartFields();
      if canWrite {
        ProbeTrack();
      }
    }

    method StartFields()
      requires Valid()
      modifies this`rwcount, this`rwcountMax, this`st0, this`st1, this`st2
      ensures X() == old(X()).(st0 := args[0], st1 := 0, st2 := 0, rwcount := 0, rwmax := 4 * (args[2] as nat))
    {
      st0 := args[0];
      st1 := 0;
      st2 := 0;
      rwcount := 0;
      rwcountMax := 4 * (args[2] as nat);
    }

    /** Asks the disk for the first sector of the track to be formatted. */
    method ProbeTrack()
      requires Valid() && !fault && canWrite
      modifies this`st0, this`st1, this`st2, this`tcStatus, this`intStatus, floppy
      ensures floppy.fd == old(floppy.fd)
      ensures var s := old(State());
        X() == if Ask(s.m.disk, FormatRequest(s, Bit(s.args[0], 4), s.track[s.Drive()], 0)).At? then s.x.(irq := true)
               else Rejected(s.x)
    {
      var drive := args[0] % 4;
      var side := Bit(args[0], 4);
      var ret := floppy.WriteBuffer(null, Request(drive, side, track[drive], side, track[drive], 0));
      if ret <= 0 {
        Reject();
      }
      intStatus := true;
    }

    method PreExec(op: Op)
      requires Valid() && !fault
      modifies this, args, execBuffer, track, floppy
      ensures Valid()
      ensures State() == M.PreExec(old(State()), op)
    {
      hide M.PreRead, M.PreWrite, M.PreFormat;
      ghost var s := State();
      PreKeeps(s);
      match op
      case ReadTrack => PreExecReadTrack();
      case ReadData | ReadDeleted => PreExecRead();
      case WriteData | WriteDeleted => PreExecWrite();
      case Recalibrate => MoveHead(0);
      case Seek => MoveHead(args[1]);
      case FormatTrack => PreExecFormat();
      case Specify | SenseInterrupt | Invalid =>
    }

    static lemma PreKeeps(s: Fdc)
      requires !s.fault
      ensures var t := M.PreRead(s); t == s.(x := t.x, c := t.c, fault := t.fault)
      ensures var t := M.PreWrite(s); t == s.(x := t.x, c := t.c, fault := t.fault)
      ensures var t := M.PreFormat(s); t == s.(x := t.x)
    {
    }

    method PostExecTransfer()
      requires Valid()
      modifies result
      ensures result[..] == TransferResult(X(), args[4])
    {
      hide SetBit, ClearBit;
      result[0], result[1], result[2] := st0, st1, st2;
      if result[0] < 64 {
        result[0] := ClearBit(result[0], 4);
        if Bit(nextIdr.phyHead, 4) {
          result[0] := SetBit(result[0], 4);
        }
        result[3], result[4], result[5] := nextIdr.cylinder, nextIdr.head, nextIdr.record;
      } else {
        result[0] := ClearBit(result[0], 4);
        if Bit(idr.phyHead, 4) {
          result[0] := SetBit(result[0], 4);
        }
        result[3], result[4], result[5] := idr.cylinder, idr.head, idr.record;
      }
      result[6] := args[4];
      SetAfterClear(st0);
    }

    static lemma SetAfterClear(b: byte)
      ensures SetBit(ClearBit(b, 4), 4) == SetBit(b, 4)
    {
    }

    method PostExecSense()
      requires Valid() && !fault
      modifies this`busy, this`intStatus, this`fault, result
      ensures Valid()
      ensures var t := PostSense(old(State()));
        busy == t.busy && intStatus == t.x.irq && result[..] == t.result && fault == t.fault
    {
      hide SetBit;
      if busy == {} {
        fault := true;
        return;
      }
      var drive := 0;
      while drive !in busy
        invariant 0 <= drive <= 3 && forall d :: 0 <= d < drive ==> d !in busy
        decreases 4 - drive
      {
        assert drive == 3 ==> busy <= {};
        drive := drive + 1;
      }
      busy := busy - {drive};
      if busy != {} {
        intStatus := true;
      }
      result[0] := SetBit(st0, 32);
      result[1] := track[drive];
    }

    method PostExecFormat()
      requires Valid() && !fault
      modifies this`st0, this`st1, this`st2, this`tcStatus, this`intStatus, this`fault, result, floppy
      ensures var t := PostFormat(old(State()));
        X() == t.x && floppy.fd == t.m.disk && result[..] == t.result && fault == t.fault
    {
      hide FormatField;
      ghost var s := State();
      for sec := 0 to args[2]
        invariant Valid() && !fault
        invariant FormatFields(s, sec) == s.(x := X(), m := Media(canRead, canWrite, floppy.fd))
        invariant execBuffer[..] == s.x.exec && result[..] == s.result
      {
        FormatOne(sec);
        if fault {
          FaultSticks(s, sec + 1, args[2]);
          return;
        }
      }
      result[0], result[1], result[2] := st0, st1, st2;
      result[3], result[4], result[5], result[6] := 0, 0, 0, 0;
    }

    static lemma FaultSticks(s: Fdc, n: nat, m: nat)
      requires n <= m <= 256 && FormatFields(s, n).fault
      ensures FormatFields(s, m) == FormatFields(s, n)
      decreases m - n
    {
      if n < m {
        FaultSticks(s, n + 1, m);
      }
    }

    /** One ID field: probe the sector, then overwrite it with the filler. */
    method FormatOne(sec: nat)
      requires Valid() && !fault && sec < 256
      modifies this`st0, this`st1, this`st2, this`tcStatus, this`intStatus, this`fault, floppy
      ensures var t := FormatField(old(State()), sec);
        X() == t.x && floppy.fd == t.m.disk && fault == t.fault
        && t == old(State()).(x := t.x, m := t.m, fault := t.fault) && t.m == Media(canRead, canWrite, t.m.disk)
    {
      hide SetBit, Overwrite;
      if !canWrite {
        fault := true;
        return;
      }
      var drive := args[0] % 4;
      var q := Request(drive, Bit(args[0], 4), track[drive], execBuffer[4 * sec + 1] != 0, execBuffer[4 * sec],
                       Dec(execBuffer[4 * sec + 2]));
      var ret := floppy.WriteBuffer(null, q);
      if ret > 0 {
        var filler := args[4];
        var formatBuffer := new byte[ret](_ => filler);
        assert formatBuffer[..ret] == Fill(ret, filler);
        ret := floppy.WriteBuffer(formatBuffer, q);
      }
      if ret <= 0 {
        Reject();
      }
    }

    method PostExec(op: Op)
      requires Valid() && !fault
      modifies this, result, floppy
      ensures Valid()
      ensures State() == M.PostExec(old(State()), op)
    {
      hide M.PostSense, M.PostFormat, TransferResult;
      ghost var s := State();
      PostKeeps(s);
      match op
      case ReadTrack | ReadData | ReadDeleted | WriteData | WriteDeleted => PostExecTransfer();
      case SenseInterrupt => PostExecSense();
      case FormatTrack => PostExecFormat();
      case Specify | Recalibrate | Seek | Invalid =>
    }

    static lemma PostKeeps(s: Fdc)
      requires !s.fault && s.busy <= {0, 1, 2, 3}
      ensures var t := PostSense(s);
        t == s.(busy := t.busy, x := s.x.(irq := t.x.irq), result := t.result, fault := t.fault)
      ensures var t := PostFormat(s);
        t == s.(x := t.x, m := Media(s.m.canRead, s.m.canWrite, t.m.disk), result := t.result, fault := t.fault)
    {
      FieldsKeepRest(s, s.Spt());
    }

    static lemma {:induction false} FieldsKeepRest(s: Fdc, n: nat)
      requires n <= 256
      ensures var t := FormatFields(s, n);
        t == s.(x := t.x, m := Media(s.m.canRead, s.m.canWrite, t.m.disk), fault := t.fault)
    {
      if n > 0 {
        FieldsKeepRest(s, n - 1);
      }
    }

    // ---- Phase changes ----

    method EnterArgs(op: Op)
      requires Valid() && !fault
      modifies this`phase, this`dio, this`rwcount, this`rwcountMax
      ensures C() == M.EnterArgs(old(State()), op).c && X() == M.EnterArgs(old(State()), op).x
    {
      if phase != Exec {
        rwcount := rwcount + 1;
      }
      if phase == Cmd {
        dio := false;
        phase := Args;
        rwcountMax := op.ArgsLen();
        rwcount := 0;
      }
    }

    method EnterExec(op: Op)
      requires Valid() && !fault
      modifies this, args, execBuffer, track, floppy
      ensures Valid()
      ensures State() == M.EnterExec(old(State()), op)
    {
      hide M.PreExec;
      if phase == Args && rwcount == rwcountMax {
        phase := Exec;
        assert C() == old(C()).(phase := Exec);
        PreExec(op);
        if !fault {
          ResetCount();
        }
      }
    }

    method ResetCount()
      requires Valid()
      modifies this`rwcount
      ensures X() == old(X()).(rwcount := 0)
    {
      rwcount := 0;
    }

    method EnterResult(op: Op)
      requires Valid() && !fault
      modifies this, result, floppy
      ensures Valid()
      ensures State() == M.EnterResult(old(State()), op)
    {
      hide M.PostExec;
      if phase == Exec && (tcStatus || !op.HasExec()) {
        StopExec();
        PostExec(op);
        if !fault {
          OpenResult(op);
        }
      }
    }

    method StopExec()
      requires Valid()
      modifies this`tcStatus, this`dio
      ensures C() == old(C()).(dio := true) && X() == old(X()).(tc := false)
    {
      tcStatus := false;
      dio := true;
    }

    method OpenResult(op: Op)
      requires Valid()
      modifies this`phase, this`rwcountMax, this`rwcount
      ensures C() == old(C()).(phase := Result) && X() == old(X()).(rwmax := op.ResultLen(), rwcount := 0)
    {
      phase := Result;
      rwcountMax := op.ResultLen();
      rwcount := 0;
    }

    method EnterCmd()
      requires Valid() && !fault
      modifies this`phase, this`dio, this`exm, this`cb, this`rwcount, this`rwcountMax
      ensures C() == M.EnterCmd(old(State())).c && X() == M.EnterCmd(old(State())).x
    {
      if phase == Result && rwcount == rwcountMax {
        CloseResult();
      }
      exm := phase == Exec;
      cb := phase != Cmd;
    }

    method CloseResult()
      requires Valid()
      modifies this`phase, this`dio, this`rwcount, this`rwcountMax
      ensures C() == old(C()).(dio := false, phase := Cmd) && X() == old(X()).(rwmax := 0, rwcount := 0)
    {
      dio := false;
      phase := Cmd;
      rwcountMax := 0;
      rwcount := 0;
    }

    /** `fdc_compute_next_status`. */
    method ComputeNextStatus()
      requires Valid() && !fault
      modifies this, args, execBuffer, result, track, floppy
      ensures Valid()
      ensures State() == NextStatus(old(State()))
    {
      hide M.EnterArgs, M.EnterExec, M.EnterResult, M.EnterCmd;
      if currop == None {
        return;
      }
      var op := currop.value;
      ghost var s := State();
      EdgesKeep(s, op);
      EnterArgs(op);
      assert State() == M.EnterArgs(s, op);
      EnterExec(op);
      if fault {
        return;
      }
      EnterResult(op);
      if fault {
        return;
      }
      EdgesKeep(State(), op);
      EnterCmd();
    }

    static lemma EdgesKeep(s: Fdc, op: Op)
      ensures var t := M.EnterArgs(s, op); t == s.(c := t.c, x := t.x)
      ensures var t := M.EnterCmd(s); t == s.(c := t.c, x := t.x)
    {
    }

    // ---- Ports ----

    /** Looks the command up in the operation table, unless it is out of sequence. */
    method Select(value: byte)
      requires Valid() && !fault
      modifies this`mt, this`currop, this`st0, result
      ensures var t := M.Select(old(State()), value);
        C() == t.c && X() == t.x && result[..] == t.result
    {
      hide SetBit, Bit;
      var cmd := value % 32;
      mt := Bit(value, 128);
      currop := None;
      var outOfSequence := if cmd == 0x0F || cmd == 0x07 then false else if cmd == 0x08 then busy == {} else busy != {};
      if !outOfSequence {
        currop := FindOperation(cmd);
      }
      if currop == None {
        Refuse();
      }
    }

    /** The answer to an unknown command or one out of sequence. */
    method Refuse()
      requires Valid()
      modifies this`currop, this`st0, result
      ensures currop == Some(Invalid) && st0 == SetBit(old(st0) - old(st0) % 4, 128)
      ensures result[..] == old(result[..])[0 := st0]
    {
      currop := Some(Invalid);
      st0 := SetBit(st0 - st0 % 4, 128);
      result[0] := st0;
    }

    /** The scan of the operation table. */
    static method FindOperation(cmd: byte) returns (op: Option<Op>)
      ensures op == Decode(cmd)
    {
      TableDecodes(cmd);
      for i := 0 to |OPERATIONS|
        invariant forall k :: 0 <= k < i ==> OPERATIONS[k].0 != cmd
      {
        if OPERATIONS[i].0 == cmd {
          return Some(OPERATIONS[i].1);
        }
      }
      return None;
    }

    static lemma TableDecodes(cmd: byte)
      ensures forall k :: 0 <= k < |OPERATIONS| && OPERATIONS[k].0 == cmd ==> Decode(cmd) == Some(OPERATIONS[k].1)
      ensures Decode(cmd).Some? ==> exists k :: 0 <= k < |OPERATIONS| && OPERATIONS[k].0 == cmd
    {
      if Decode(cmd).Some? {
        assert OPERATIONS[0].0 == cmd || OPERATIONS[1].0 == cmd || OPERATIONS[2].0 == cmd || OPERATIONS[3].0 == cmd
            || OPERATIONS[4].0 == cmd || OPERATIONS[5].0 == cmd || OPERATIONS[6].0 == cmd || OPERATIONS[7].0 == cmd
            || OPERATIONS[8].0 == cmd || OPERATIONS[9].0 == cmd;
      }
    }

    /** Every access clears the interrupt line first. */
    method DropInterrupt()
      requires Valid()
      modifies this`intStatus
      ensures X() == old(X()).(irq := false)
    {
      intStatus := false;
    }

    /** `fdc_out`: a write to the data register. */
    method Out(value: byte)
      requires Valid() && !fault
      modifies this, args, execBuffer, result, track, floppy
      ensures Valid()
      ensures State() == M.Out(old(State()), value)
    {
      hide NextStatus, M.OutPhase;
      DropInterrupt();
      OutPhase(value);
      if !fault {
        ComputeNextStatus();
      }
    }

    method StoreArgument(value: byte)
      requires Valid() && !fault
      modifies this`fault, args
      ensures fault == (rwcount >= 8)
      ensures args[..] == if fault then old(args[..]) else old(args[..])[rwcount := value]
    {
      if rwcount >= 8 {
        fault := true;
      } else {
        args[rwcount] := value;
      }
    }

    method OutPhase(value: byte)
      requires Valid() && !fault
      modifies this, args, execBuffer, result, floppy
      ensures Valid()
      ensures State() == M.OutPhase(old(State()), value)
    {
      hide M.Select, M.ExecStep;
      ghost var s := State();
      SelectKeeps(s, value);
      match phase
      case Cmd =>
        Select(value);
      case Args =>
        StoreArgument(value);
      case Exec =>
        if currop.Some? {
          StepKeeps(s, currop.value, value);
          var _ := ExecStep(currop.value, value);
        }
      case Result =>
    }

    static lemma SelectKeeps(s: Fdc, value: byte)
      ensures var t := M.Select(s, value); t == s.(c := t.c, x := t.x, result := t.result)
    {
    }

    static lemma StepKeeps(s: Fdc, op: Op, value: byte)
      requires !s.fault
      ensures var t := M.ExecStep(s, op, value).s;
        t == s.(x := t.x, m := Media(s.m.canRead, s.m.canWrite, t.m.disk), fault := t.fault)
    {
      hide Settle, FindForRead, FindForWrite, Store, Rejected;
    }

    /** `fdc_in`: a read of the data register. */
    method In() returns (value: byte)
      requires Valid() && !fault
      modifies this, args, execBuffer, result, track, floppy
      ensures Valid()
      ensures Reply(State(), value) == M.In(old(State()))
    {
      hide NextStatus, M.InPhase;
      DropInterrupt();
      value := InPhase();
      if !fault {
        ComputeNextStatus();
      }
    }

    method InPhase() returns (value: byte)
      requires Valid() && !fault
      modifies this, execBuffer, floppy
      ensures Valid()
      ensures Reply(State(), value) == M.InPhase(old(State()))
    {
      hide M.ExecStep;
      ghost var s := State();
      value := 0;
      match phase
      case Cmd =>
        value := st0;
        dio := false;
      case Args =>
      case Exec =>
        if currop.Some? {
          StepKeeps(s, currop.value, 0);
          value := ExecStep(currop.value, 0);
        }
      case Result =>
        if rwcount >= 7 {
          fault := true;
          return;
        }
        value := result[rwcount];
    }

    /** `fdc_in` on the status register. */
    method ReadStatus() returns (value: int)
      requires Valid() && !fault
      modifies this`intStatus
      ensures value == Msr(old(State())) && X() == old(X()).(irq := false)
    {
      DropInterrupt();
      value := 128 + (if dio then 64 else 0) + (if exm then 32 else 0) + (if cb then 16 else 0)
        + (if 3 in busy then 8 else 0) + (if 2 in busy then 4 else 0)
        + (if 1 in busy then 2 else 0) + (if 0 in busy then 1 else 0);
    }

    /** `fdc_tc_out`. */
    method TcOut()
      requires Valid() && !fault
      modifies this, args, execBuffer, result, track, floppy
      ensures Valid()
      ensures State() == Terminate(old(State()))
    {
      hide NextStatus;
      if phase == Exec {
        tcStatus := true;
        assert X() == old(X()).(tc := true);
        ComputeNextStatus();
      }
    }

    /** `fdc_kickDiskImage`. */
    method KickDiskImage(read: bool, write: bool)
      requires Valid() && !fault
      modifies this, execBuffer, floppy
      ensures Valid()
      ensures State() == Kick(old(State()), read, write)
    {
      ghost var s := State();
      canRead := read;
      canWrite := write;
      RetryTransfer();
      KickTwice(s, read, write);
    }

    static lemma KickTwice(s: Fdc, read: bool, write: bool)
      requires !s.fault
      ensures Kick(s.(m := s.m.(canRead := read, canWrite := write)), read, write) == Kick(s, read, write)
    {
    }

    /** A READ DATA or WRITE DATA in its execution phase looks for its sector again. */
    method RetryTransfer()
      requires Valid() && !fault
      modifies this, execBuffer, floppy
      ensures Valid()
      ensures State() == Kick(old(State()), old(canRead), old(canWrite))
    {
      hide M.PrepareRead, M.CommitWrite;
      if phase == Exec && currop == Some(ReadData) {
        RetryRead();
      } else if phase == Exec && currop == Some(WriteData) {
        RetryWrite();
      }
    }

    method RetryRead()
      requires Valid() && !fault
      modifies this`rwcount, this`rwcountMax, this`st0, this`st1, this`st2, this`tcStatus, this`intStatus,
               this`idr, this`nextIdr, this`fault, execBuffer
      ensures Valid()
      ensures State() == M.PrepareRead(old(State()))
    {
      hide Settle, FindForRead;
      var _ := PrepareRead();
    }

    method RetryWrite()
      requires Valid() && !fault
      modifies this`rwcount, this`rwcountMax, this`st0, this`st1, this`st2, this`tcStatus, this`intStatus,
               this`idr, this`nextIdr, this`fault, floppy
      ensures Valid()
      ensures State() == M.CommitWrite(old(State()))
    {
      hide Settle, FindForWrite;
      var _ := CommitWrite();
    }

    /** `floppy_unload_image`. */
    method UnloadImage(unit: nat)
      requires Valid() && !fault && unit < UNITS
      modifies this, execBuffer, floppy
      ensures Valid()
      ensures State() == Unload(old(State()), unit)
    {
      hide Kick;
      if floppy.fd[unit] == None {
        return;
      }
      floppy.fd := floppy.fd[unit := None];
      KickDiskImage(false, false);
    }

    /** `floppy_load_image`; `None` is a file that cannot be opened. */
    method LoadImage(unit: nat, file: Option<File>)
      requires Valid() && !fault && unit < UNITS
      modifies this, execBuffer, floppy
      ensures Valid()
      ensures State() == Load(old(State()), unit, file)
    {
      hide Kick, Unload;
      UnloadImage(unit);
      if fault || file == None {
        return;
      }
      floppy.fd := floppy.fd[unit := file];
      KickDiskImage(true, true);
    }

    /** `fdc_restart`. */
    method Reset()
      requires Valid() && !fault
      modifies this, result, track
      ensures Valid()
      ensures State() == Restart(old(State()))
    {
      ResetControl();
      Clear(result);
      ResetTransfer();
      busy := {};
      Clear(track);
      assert track[..] == [0, 0, 0, 0];
      assert result[..] == [0, 0, 0, 0, 0, 0, 0];
    }

    static method Clear(a: array<byte>)
      modifies a
      ensures forall i :: 0 <= i < a.Length ==> a[i] == 0
    {
      forall i | 0 <= i < a.Length {
        a[i] := 0;
      }
    }

    method ResetControl()
      modifies this`phase, this`currop, this`dio, this`exm, this`cb
      ensures C() == Control(Cmd, None, mt, false, false, false)
    {
      phase, currop, dio, exm, cb := Cmd, None, false, false, false;
    }

    method ResetTransfer()
      requires Valid()
      modifies this`rwcountMax, this`tcStatus, this`intStatus
      ensures X() == old(X()).(rwmax := 0, tc := false, irq := false)
    {
      rwcountMax, tcStatus, intStatus := 0, false, false;
    }
  }
}
