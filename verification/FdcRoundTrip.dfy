/** What is written through the ports is read back through the ports, and nothing else changes. */
module FdcRoundTrip {
  import opened Bytes
  import opened Floppy
  import opened FdcModel
  import opened FdcAdvance
  import opened FdcProtocol
  import opened FdcReadStream
  import opened FdcWriteStream

  // ---- Sectors on the disk ----

  /** The disk has `k` sectors from `id` on, in advance order. */
  predicate Chain(j: Job, id: Idr, k: nat)
    decreases k
  {
    k == 0 || (Takes(j, id) && Chain(j, j.After(id), k - 1))
  }

  function Total(j: Job, id: Idr, k: nat): nat
    requires Chain(j, id, k)
    decreases k
  {
    if k == 0 then 0 else Room(j, id) + Total(j, j.After(id), k - 1)
  }

  /** A transfer that the disk accepts only moves forward in the image: accepted sectors never repeat. */
  lemma InOrder(j: Job, id: Idr)
    requires Takes(j, id) && Takes(j, j.After(id))
    ensures Target(j, id).offset + Target(j, id).len <= Target(j, j.After(id)).offset
  {
  }

  lemma {:induction false} ChainTakes(j: Job, id: Idr, k: nat)
    requires Chain(j, id, k) && Sized(j)
    ensures AllTake(j, id, Total(j, id, k)) && Reached(j, id, Total(j, id, k)) == k
    ensures k > 0 ==> Total(j, id, k) > 0
    decreases k
  {
    if k > 0 {
      ChainTakes(j, j.After(id), k - 1);
    }
  }

  function FileOf(j: Job, d: Disk): File
    requires HasDisk(j, d)
  {
    d[j.args[0] % 4].value
  }

  /** Byte `i` of the image lies in one of the sectors that `n` bytes from `id` on fill. */
  predicate Touches(j: Job, id: Idr, n: nat, i: nat)
    requires Sized(j) && AllTake(j, id, n)
    decreases n
  {
    n > 0 && n >= Room(j, id) &&
    (Target(j, id).Contains(i) || (n > Room(j, id) && Touches(j, j.After(id), n - Room(j, id), i)))
  }

  /** No file shrinks, and a file that holds a whole image does not grow. */
  predicate Grows(f: File, g: File) {
    |f| <= |g| && (|f| >= IMAGE_SIZE ==> |g| == |f|)
  }

  /** Writing touches only the drive of the command and, there, only the bytes of filled sectors. */
  lemma {:induction false} WriteFrame(j: Job, w: Written, id: Idr, data: seq<byte>, i: nat)
    requires Sized(j) && HasDisk(j, w.disk) && AllTake(j, id, |data|)
    ensures var d := WriteAll(j, w, id, data).disk;
      && HasDisk(j, d) && Grows(FileOf(j, w.disk), FileOf(j, d))
      && (forall u | 0 <= u < UNITS && u != j.args[0] % 4 :: d[u] == w.disk[u])
      && (!Touches(j, id, |data|, i) ==> ByteAt(FileOf(j, d), i) == ByteAt(FileOf(j, w.disk), i))
    decreases |data|
  {
    if data != [] {
      var n := Min(Room(j, id), |data|);
      SectorFrame(j, w, id, data[..n], i);
      if |data| > n {
        WriteFrame(j, WriteSector(j, w, id, data[..n]), j.After(id), data[n..], i);
      } else {
        assert data[..n] == data;
      }
    }
  }

  lemma SectorFrame(j: Job, w: Written, id: Idr, data: seq<byte>, i: nat)
    requires Takes(j, id) && HasDisk(j, w.disk) && |data| <= Room(j, id)
    ensures var d := WriteSector(j, w, id, data).disk;
      && HasDisk(j, d) && Grows(FileOf(j, w.disk), FileOf(j, d))
      && (forall u | 0 <= u < UNITS && u != j.args[0] % 4 :: d[u] == w.disk[u])
      && (|data| < Room(j, id) || !Target(j, id).Contains(i) ==>
            ByteAt(FileOf(j, d), i) == ByteAt(FileOf(j, w.disk), i))
  {
    var buf := data + w.buf[|data|..];
    RegionInImage(id.cylinder, id.head != 0, Dec(id.record));
    OverwriteBytes(FileOf(j, w.disk), Target(j, id).offset, buf[..Target(j, id).len], i);
  }

  /** No filled sector starts before the first one. */
  lemma {:induction false} TouchesForward(j: Job, id: Idr, n: nat, i: nat)
    requires Sized(j) && AllTake(j, id, n) && Touches(j, id, n, i)
    ensures Takes(j, id) && Target(j, id).offset <= i
    decreases n
  {
    if !Target(j, id).Contains(i) {
      InOrder(j, id);
      TouchesForward(j, j.After(id), n - Room(j, id), i);
    }
  }

  /** Writing from the next sector on leaves the bytes of sector `id` alone. */
  lemma LaterWritesElsewhere(j: Job, w: Written, id: Idr, rest: seq<byte>, i: nat)
    requires Sized(j) && HasDisk(j, w.disk) && Takes(j, id) && AllTake(j, j.After(id), |rest|)
    requires Target(j, id).Contains(i)
    ensures var d := WriteAll(j, w, j.After(id), rest).disk;
      HasDisk(j, d) && ByteAt(FileOf(j, d), i) == ByteAt(FileOf(j, w.disk), i)
  {
    hide WriteAll, Locate;
    WriteFrame(j, w, j.After(id), rest, i);
    if Touches(j, j.After(id), |rest|, i) {
      TouchesForward(j, j.After(id), |rest|, i);
      InOrder(j, id);
    }
  }

  lemma FetchIsSlice(j: Job, d: Disk, id: Idr)
    requires Takes(j, id) && HasDisk(j, d)
    ensures Ask(d, j.Request(id)).At?
    ensures Fetch(d, j.Request(id)) == Slice(FileOf(j, d), Target(j, id).offset, Target(j, id).len)
  {
  }

  /** What a sector holds once it has been filled: the data, and behind it what was in the buffer. */
  function Filled(j: Job, w: Written, id: Idr, data: seq<byte>): seq<byte>
    requires Takes(j, id) && |data| == Room(j, id)
  {
    (data + w.buf[|data|..])[..Target(j, id).len]
  }

  lemma SectorStored(j: Job, w: Written, id: Idr, data: seq<byte>)
    requires HasDisk(j, w.disk) && Takes(j, id) && |data| == Room(j, id)
    ensures var d := WriteSector(j, w, id, data).disk;
      && HasDisk(j, d) && Target(j, id).offset + Target(j, id).len <= |FileOf(j, d)|
      && Slice(FileOf(j, d), Target(j, id).offset, Target(j, id).len) == Filled(j, w, id, data)
  {
    var g := Target(j, id);
    ReadBack(FileOf(j, w.disk), g.offset, Filled(j, w, id, data));
    OverwriteBytes(FileOf(j, w.disk), g.offset, Filled(j, w, id, data), 0);
  }

  /** A filled sector is read back, whatever is written from the next sector on. */
  lemma SectorSurvives(j: Job, w: Written, id: Idr, first: seq<byte>, rest: seq<byte>)
    requires HasDisk(j, w.disk) && Sized(j) && Takes(j, id) && |first| == Room(j, id)
    requires AllTake(j, j.After(id), |rest|)
    ensures var d := WriteAll(j, WriteSector(j, w, id, first), j.After(id), rest).disk;
      Ask(d, j.Request(id)).At? && Fetch(d, j.Request(id)) == Filled(j, w, id, first)
  {
    hide WriteAll, WriteSector, Slice, Locate, Filled;
    SectorStored(j, w, id, first);
    var w1 := WriteSector(j, w, id, first);
    WriteFrame(j, w1, j.After(id), rest, 0);
    var d := WriteAll(j, w1, j.After(id), rest).disk;
    forall i | Target(j, id).Contains(i) ensures ByteAt(FileOf(j, d), i) == ByteAt(FileOf(j, w1.disk), i) {
      LaterWritesElsewhere(j, w1, id, rest, i);
    }
    SameSlice(FileOf(j, w1.disk), FileOf(j, d), Target(j, id));
    FetchIsSlice(j, d, id);
  }

  /** Reading a filled sector serves the data written to it. */
  lemma FilledServes(j: Job, w: Written, id: Idr, data: seq<byte>, j': Job)
    requires Takes(j, id) && |data| == Room(j, id) && data != [] && j' == j.(m := j'.m) && j'.m.canRead
    requires Ask(j'.m.disk, j'.Request(id)).At? && Fetch(j'.m.disk, j'.Request(id)) == Filled(j, w, id, data)
    ensures Loads(j', id) && Payload(j', id) == data
  {
  }

  /** The job of a later read of the same sectors. */
  function Later(j: Job, d: Disk): Job {
    j.(m := j.m.(canRead := true, disk := d))
  }

  /** `k` whole sectors, written and then read: the same bytes. */
  lemma {:induction false} SectorsReadBack(j: Job, w: Written, id: Idr, k: nat, data: seq<byte>)
    requires Sized(j) && HasDisk(j, w.disk)
    requires Chain(j, id, k) && |data| == Total(j, id, k) && AllTake(j, id, |data|)
    ensures var j' := Later(j, WriteAll(j, w, id, data).disk);
      AllLoad(j', id, k) && Sectors(j', id, k) == data
    decreases k
  {
    hide WriteSector, Locate, Slice, Filled, Loads, Payload;
    if k > 0 {
      var first, rest := data[..Room(j, id)], data[Room(j, id)..];
      assert data == first + rest;
      ChainTakes(j, j.After(id), k - 1);
      SectorStored(j, w, id, first);
      SplitWrite(j, w, id, k, data);
      SectorSurvives(j, w, id, first, rest);
      FilledServes(j, w, id, first, Later(j, WriteAll(j, w, id, data).disk));
      SectorsReadBack(j, WriteSector(j, w, id, first), j.After(id), k - 1, rest);
    }
  }

  /** Writing `k` sectors is writing the first one and then the rest. */
  lemma SplitWrite(j: Job, w: Written, id: Idr, k: nat, data: seq<byte>)
    requires Sized(j) && HasDisk(j, w.disk) && k > 0
    requires Chain(j, id, k) && |data| == Total(j, id, k) && AllTake(j, id, |data|)
    ensures AllTake(j, j.After(id), |data| - Room(j, id))
    ensures WriteAll(j, w, id, data) ==
      WriteAll(j, WriteSector(j, w, id, data[..Room(j, id)]), j.After(id), data[Room(j, id)..])
  {
    if |data| == Room(j, id) {
      assert data[..Room(j, id)] == data;
    }
  }

  // ---- Through the ports ----

  function StartOf(a: seq<byte>): Idr
    requires |a| == 8
  {
    Idr(a[0], a[1], a[2], a[3])
  }

  predicate WriteCommand(value: byte) {
    value % 32 == 0x05 || value % 32 == 0x09
  }

  predicate ReadCommand(value: byte) {
    value % 32 == 0x06 || value % 32 == 0x0C
  }

  /** The transfer selected by a read or write command byte. */
  function TransferOp(value: byte): Op {
    match value % 32
    case 0x05 => WriteData
    case 0x06 => ReadData
    case 0x09 => WriteDeleted
    case _ => ReadDeleted
  }

  lemma TransferOps(value: byte)
    requires WriteCommand(value) || ReadCommand(value)
    ensures var op := TransferOp(value);
      && Commands(value, op) && op.ArgsLen() == 8 && op.HasExec() && !op.ReadTrack?
      && (if WriteCommand(value) then op.IsWrite() && !op.IsRead() else op.IsRead() && !op.IsWrite())
  {
  }

  function JobFor(s: Fdc, value: byte, a: seq<byte>): Job
    requires |a| == 8
  {
    Job(Bit(value, 128), a, s.track, s.m)
  }

  /** A write command whose first sector exists starts to fill it. */
  lemma StartWrite(s: Fdc, value: byte, a: seq<byte>)
    requires Idle(s) && WriteCommand(value) && |a| == 8 && s.m.canWrite
    requires HasDisk(JobFor(s, value, a), s.m.disk) && Takes(JobFor(s, value, a), StartOf(a))
    ensures var t := Outs(s, [value] + a);
      && Filling(t, JobFor(s, value, a), StartOf(a)) && t.x.rwcount == 0
      && WrittenBy(t) == WrittenBy(s) && t.m == s.m && t.busy == {}
  {
    hide Out, TransferOp, Commands;
    TransferOps(value);
    var op := TransferOp(value);
    Issue(s, value, op, a);
    var r := Ready(s, op, Bit(value, 128), a);
    assert r.args == a;
    var e := StartId(r.(c := r.c.(phase := Exec, exm := true)), false);
    CommitFills(e, JobFor(s, value, a));
  }

  /** A read command whose first sector can be loaded starts to serve it. */
  lemma StartRead(s: Fdc, value: byte, a: seq<byte>)
    requires Idle(s) && ReadCommand(value) && |a| == 8
    requires Loads(JobFor(s, value, a), StartOf(a))
    ensures var t := Outs(s, [value] + a);
      && Serving(t, StartOf(a)) && t.x.rwcount == 0 && JobOf(t) == JobFor(s, value, a) && t.busy == {}
  {
    hide Out, TransferOp, Commands;
    TransferOps(value);
    var op := TransferOp(value);
    Issue(s, value, op, a);
    var r := Ready(s, op, Bit(value, 128), a);
    assert r.args == a;
    var e := StartId(r.(c := r.c.(phase := Exec, exm := true)), true);
    LoadServes(e);
  }

  /** The seven result bytes end a transfer. */
  lemma EndTransfer(s: Fdc, result: ResultBytes)
    requires Reports(s, result) && s.busy == {}
    ensures var t := Ins(s, 7);
      t.values == result && Idle(t.s) && t.s.m == s.m && t.s.track == s.track
  {
    Drain(s, 7);
    assert s.result[0..7] == s.result;
  }

  /** A whole WRITE: command, arguments, data, terminal count, result. */
  function WriteSession(s: Fdc, value: byte, a: seq<byte>, data: seq<byte>): Stream {
    Ins(Terminate(Outs(s, [value] + a + data)), 7)
  }

  /** A whole READ of `n` bytes, and its result phase. */
  function ReadSession(s: Fdc, value: byte, a: seq<byte>, n: nat): Stream {
    Ins(Outs(s, [value] + a), n)
  }

  function ReadResult(s: Fdc, value: byte, a: seq<byte>, n: nat): Stream {
    Ins(Terminate(ReadSession(s, value, a, n).s), 7)
  }

  /**
   * For any data whose sectors the disk accepts, a whole WRITE changes the disk by the write
   * stream alone, and its result names the sector after the last one claimed.
   */
  lemma WriteThroughPorts(s: Fdc, value: byte, a: seq<byte>, data: seq<byte>)
    requires Idle(s) && s.m.canWrite && WriteCommand(value) && |a| == 8 && data != []
    requires var j := JobFor(s, value, a); Sized(j) && HasDisk(j, s.m.disk) && AllTake(j, StartOf(a), |data|)
    ensures var j, t := JobFor(s, value, a), WriteSession(s, value, a, data);
      && t.values == NormalResult(a, AdvanceN(StartOf(a), j.mt, a[5], Reached(j, StartOf(a), |data|)))
      && Idle(t.s) && t.s.track == s.track
      && t.s.m == s.m.(disk := WriteAll(j, WrittenBy(s), StartOf(a), data).disk)
  {
    hide Out, In, WriteAll, Terminate, Filling, AllTake, Reached, Idle, NormalResult, Takes;
    WriteUntilStop(s, value, a, data);
    var j, id := JobFor(s, value, a), StartOf(a);
    ReachesFirst(j, id, |data|);
    FinishWrite(Outs(s, [value] + a + data), j, AdvanceN(id, j.mt, a[5], Reached(j, id, |data|) - 1));
  }

  /** Command, arguments and data of a WRITE, before terminal count. */
  lemma WriteUntilStop(s: Fdc, value: byte, a: seq<byte>, data: seq<byte>)
    requires Idle(s) && s.m.canWrite && WriteCommand(value) && |a| == 8 && data != []
    requires var j := JobFor(s, value, a); Sized(j) && HasDisk(j, s.m.disk) && AllTake(j, StartOf(a), |data|)
    ensures Reached(JobFor(s, value, a), StartOf(a), |data|) > 0
    ensures var j, u := JobFor(s, value, a), Outs(s, [value] + a + data);
      && Filling(u, j, AdvanceN(StartOf(a), j.mt, a[5], Reached(j, StartOf(a), |data|) - 1))
      && WrittenBy(u) == WriteAll(j, WrittenBy(s), StartOf(a), data) && u.busy == {}
      && u.x.rwcount == Tail(j, StartOf(a), |data|)
  {
    hide Out, WriteAll, Filling, AllTake, Reached, Idle, Takes, Tail;
    var j, id := JobFor(s, value, a), StartOf(a);
    ReachesFirst(j, id, |data|);
    StartWrite(s, value, a);
    OutsConcat(s, [value] + a, data);
    WriteStream(Outs(s, [value] + a), j, id, data);
  }

  lemma ReachesFirst(j: Job, id: Idr, n: nat)
    requires Sized(j) && AllTake(j, id, n) && n > 0
    ensures Takes(j, id) && Reached(j, id, n) > 0
  {
  }

  lemma FinishWrite(s: Fdc, j: Job, id: Idr)
    requires Filling(s, j, id) && s.busy == {}
    ensures var t := Ins(Terminate(s), 7);
      t.values == NormalResult(j.args, j.After(id)) && Idle(t.s) && t.s.track == j.track
        && t.s.m == s.m == Media(j.m.canRead, true, s.m.disk)
  {
    hide Terminate, In;
    WriteStopped(s, j, id);
    EndTransfer(Terminate(s), NormalResult(j.args, j.After(id)));
  }

  /** For any `k` sectors the disk accepts, a whole READ returns exactly their bytes. */
  lemma ReadThroughPorts(s: Fdc, value: byte, a: seq<byte>, k: nat)
    requires Idle(s) && ReadCommand(value) && |a| == 8 && k >= 1 && (a[4] != 0 || a[7] != 0)
    requires AllLoad(JobFor(s, value, a), StartOf(a), k)
    ensures var j := JobFor(s, value, a);
      var all := Sectors(j, StartOf(a), k);
      && ReadSession(s, value, a, |all|).values == all
      && ReadResult(s, value, a, |all|).values == NormalResult(a, AdvanceN(StartOf(a), j.mt, a[5], k))
      && Idle(ReadResult(s, value, a, |all|).s) && ReadResult(s, value, a, |all|).s.m == s.m
  {
    hide Out, In, Advance, Fetch, Ask;
    var j, id := JobFor(s, value, a), StartOf(a);
    StartRead(s, value, a);
    var t := Outs(s, [value] + a);
    LeftAtStart(t, id, k);
    ReadStream(t, id, k, |Sectors(j, id, k)|);
    var u := Ins(t, |Sectors(j, id, k)|).s;
    var last := AdvanceN(id, j.mt, a[5], k - 1);
    ReadStopped(u, last);
    EndTransfer(Terminate(u), NormalResult(a, j.After(last)));
  }

  lemma LeftAtStart(s: Fdc, id: Idr, k: nat)
    requires Serving(s, id) && s.x.rwcount == 0 && k >= 1
    requires AllLoad(JobOf(s), id, k) && (s.args[4] != 0 || s.args[7] != 0)
    ensures Streaming(s, id, k) && Left(s, id, k) == Sectors(JobOf(s), id, k)
  {
    assert s.x.exec[0..s.x.rwmax] == s.x.exec[..s.x.rwmax];
  }

  /**
   * The round trip: for any `k` sectors that the disk accepts from the start address, writing
   * them through the ports and reading them back through the ports returns the bytes written;
   * both results name the sector after the last one. (With N = 0 a sector takes DTL bytes.)
   */
  lemma RoundTrip(s: Fdc, write: byte, read: byte, a: seq<byte>, k: nat, data: seq<byte>)
    requires Idle(s) && s.m.canRead && s.m.canWrite && WriteCommand(write) && ReadCommand(read)
    requires Bit(write, 128) == Bit(read, 128) && |a| == 8 && (a[4] != 0 || a[7] != 0) && k >= 1
    requires var j := JobFor(s, write, a);
      HasDisk(j, s.m.disk) && Chain(j, StartOf(a), k) && |data| == Total(j, StartOf(a), k)
    ensures var written := WriteSession(s, write, a, data);
      && ReadSession(written.s, read, a, |data|).values == data
      && written.values == NormalResult(a, AdvanceN(StartOf(a), Bit(write, 128), a[5], k))
      && ReadResult(written.s, read, a, |data|).values == written.values
      && ReadResult(written.s, read, a, |data|).s.m == written.s.m
  {
    hide Out, In, WriteAll, Advance, Idle, Takes, Fetch, Ask;
    var j, id := JobFor(s, write, a), StartOf(a);
    ChainTakes(j, id, k);
    WriteThroughPorts(s, write, a, data);
    SectorsReadBack(j, WrittenBy(s), id, k, data);
    var t := WriteSession(s, write, a, data).s;
    assert JobFor(t, read, a) == Later(j, WriteAll(j, WrittenBy(s), id, data).disk);
    ReadThroughPorts(t, read, a, k);
  }

  /** The frame of the round trip: the bytes of no other sector and no other drive change. */
  lemma RoundTripFrame(s: Fdc, write: byte, a: seq<byte>, data: seq<byte>, i: nat)
    requires Idle(s) && s.m.canWrite && WriteCommand(write) && |a| == 8 && data != []
    requires var j := JobFor(s, write, a); Sized(j) && HasDisk(j, s.m.disk) && AllTake(j, StartOf(a), |data|)
    ensures var j, d := JobFor(s, write, a), WriteSession(s, write, a, data).s.m.disk;
      && HasDisk(j, d) && Grows(FileOf(j, s.m.disk), FileOf(j, d))
      && (forall u | 0 <= u < UNITS && u != a[0] % 4 :: d[u] == s.m.disk[u])
      && (!Touches(j, StartOf(a), |data|, i) ==> ByteAt(FileOf(j, d), i) == ByteAt(FileOf(j, s.m.disk), i))
  {
    hide Out, WriteAll, Advance, Idle;
    WriteThroughPorts(s, write, a, data);
    WriteFrame(JobFor(s, write, a), WrittenBy(s), StartOf(a), data, i);
  }

  // ---- Which runs of sectors are accepted ----

  /** What a host can check: `k` sectors of one side, on the head's track, within EOT and the side. */
  predicate OnOneSide(j: Job, id: Idr, k: nat) {
    && id.cylinder == j.track[j.args[0] % 4] < TRACKS
    && (id.head != 0) == id.Side()
    && 1 <= id.record && (k == 1 || id.record + k - 1 <= j.args[5])
    && id.record + k - 1 <= SectorsOf(id.cylinder, id.head != 0)
  }

  /** The sectors up to the end of the track; a record at or beyond EOT is the last one. */
  function UpToEot(id: Idr, eot: byte): nat {
    if id.record >= eot then 1 else eot - id.record + 1
  }

  /** Without MT, from side 1, or up to EOT, a run is accepted if and only if it stays on its side. */
  lemma {:induction false} OneSideAccepted(j: Job, id: Idr, k: nat)
    requires k >= 1 && (!j.mt || id.Side() || k <= UpToEot(id, j.args[5]))
    ensures Chain(j, id, k) <==> OnOneSide(j, id, k)
    decreases k
  {
    hide Advance, Takes;
    OneSector(j, id);
    if k > 1 && Takes(j, id) {
      if id.record < j.args[5] {
        StaysOnTrack(j, id);
        OneSideAccepted(j, j.After(id), k - 1);
      } else {
        LeavesTrack(j, id);
      }
    }
  }

  lemma StaysOnTrack(j: Job, id: Idr)
    requires id.record < j.args[5]
    ensures j.After(id) == id.(record := id.record + 1)
  {
  }

  lemma OneSector(j: Job, id: Idr)
    ensures Takes(j, id) <==> OnOneSide(j, id, 1)
  {
  }

  /** After EOT, without MT or from side 1, the next sector is on another cylinder. */
  lemma LeavesTrack(j: Job, id: Idr)
    requires Takes(j, id) && id.record >= j.args[5] && (!j.mt || id.Side())
    ensures !Takes(j, j.After(id))
  {
  }

  /** Record 1 of side 1, where a transfer with MT goes on after EOT on side 0. */
  function OtherSide(id: Idr): Idr {
    Idr(WithSide(id.phyHead, true), id.cylinder, Bool(id.head == 0), 1)
  }

  lemma TurnsOver(j: Job, id: Idr)
    requires j.mt && !id.Side() && Takes(j, id) && id.record >= j.args[5]
    ensures j.After(id) == OtherSide(id) && OtherSide(id).Side()
  {
  }

  /** With MT a run from side 0 beyond EOT is accepted if and only if both parts stay on their sides. */
  lemma {:induction false} TwoSidesAccepted(j: Job, id: Idr, k: nat)
    requires j.mt && !id.Side() && k > UpToEot(id, j.args[5])
    ensures var n := UpToEot(id, j.args[5]);
      Chain(j, id, k) <==> OnOneSide(j, id, n) && OnOneSide(j, OtherSide(id), k - n)
    decreases k
  {
    hide Advance, Takes;
    OneSector(j, id);
    if Takes(j, id) {
      if id.record < j.args[5] {
        StaysOnTrack(j, id);
        TwoSidesAccepted(j, j.After(id), k - 1);
      } else {
        TurnsOver(j, id);
        OneSideAccepted(j, OtherSide(id), k - 1);
      }
    }
  }

  /** `k` sectors of one side hold `k` times the bytes of one. */
  lemma {:induction false} OneSideTotal(j: Job, id: Idr, k: nat)
    requires Chain(j, id, k) && (k >= 1 ==> OnOneSide(j, id, k))
    ensures Total(j, id, k) == k * Cap(j.args[4], j.args[7], SectorLen(id.cylinder, id.head != 0))
    decreases k
  {
    hide Takes, Advance, Cap, Room, Bit;
    if k > 0 {
      RoomOnSide(j, id);
      if k > 1 {
        StaysOnTrack(j, id);
        OneSideTotal(j, j.After(id), k - 1);
      }
      TimesOneMore(k, Cap(j.args[4], j.args[7], SectorLen(id.cylinder, id.head != 0)));
    }
  }

  lemma TimesOneMore(k: nat, c: nat)
    requires k > 0
    ensures k * c == c + (k - 1) * c
  {
  }

  lemma RoomOnSide(j: Job, id: Idr)
    requires Takes(j, id)
    ensures Room(j, id) == Cap(j.args[4], j.args[7], SectorLen(id.cylinder, id.head != 0))
  {
  }

  /** An accepted record is at most 16. */
  lemma RecordBound(j: Job, id: Idr)
    requires Loads(j, id)
    ensures 1 <= id.record <= 16
  {
  }

  /** Accepted sectors stay far from record 255, so EOT = 255 is as good as 254. */
  lemma {:induction false} LargeEot(j: Job, id: Idr, k: nat)
    requires AllLoad(j, id, k) && j.args[5] == 255
    ensures AdvanceN(id, j.mt, 255, k) == AdvanceN(id, j.mt, 254, k)
    decreases k
  {
    hide Loads, Advance;
    if k > 0 {
      RecordBound(j, id);
      SameAdvance(id, j.mt);
      AdvanceNFirst(id, j.mt, 255, k);
      AdvanceNFirst(id, j.mt, 254, k);
      LargeEot(j, j.After(id), k - 1);
    }
  }

  lemma SameAdvance(id: Idr, mt: bool)
    requires id.record < 254
    ensures Advance(id, mt, 255) == Advance(id, mt, 254)
  {
  }

  /** EOT as the closed form takes it. */
  function ClosedEot(eot: byte): byte {
    if eot == 255 then 254 else eot
  }

  /** The closed form through the ports: what the result of a READ of `k` sectors reports. */
  lemma ReadResultClosedForm(s: Fdc, value: byte, a: seq<byte>, k: nat)
    requires Idle(s) && ReadCommand(value) && |a| == 8 && k >= 1 && (a[4] != 0 || a[7] != 0)
    requires AllLoad(JobFor(s, value, a), StartOf(a), k)
    ensures 1 <= a[3] <= 16
    ensures ReadResult(s, value, a, |Sectors(JobFor(s, value, a), StartOf(a), k)|).values
      == NormalResult(a, ClosedId(StartOf(a), Bit(value, 128), ClosedEot(a[5]), k))
  {
    hide ReadResult, Sectors, ClosedId, NormalResult, Idle, Loads;
    var j := JobFor(s, value, a);
    RecordBound(j, StartOf(a));
    ReadThroughPorts(s, value, a, k);
    ClosedForm(StartOf(a), j.mt, ClosedEot(a[5]), k);
    if a[5] == 255 {
      LargeEot(j, StartOf(a), k);
    }
  }

  /** A READ that runs past the last accepted sector: all bytes of it, then 0, and the result names it. */
  lemma ReadPastEnd(s: Fdc, value: byte, a: seq<byte>, k: nat)
    requires Idle(s) && ReadCommand(value) && |a| == 8 && k >= 1 && (a[4] != 0 || a[7] != 0)
    requires var j := JobFor(s, value, a);
      AllLoad(j, StartOf(a), k) && var bad := AdvanceN(StartOf(a), j.mt, a[5], k);
      bad.record != 0 && Ask(s.m.disk, j.Request(bad)).BadGeometry?
    ensures var j := JobFor(s, value, a);
      var all := Sectors(j, StartOf(a), k);
      var t := In(ReadSession(s, value, a, |all|).s);
      t.value == 0 && Reports(t.s, ErrorResult(a, AdvanceN(StartOf(a), j.mt, a[5], k - 1)))
  {
    hide Out, In, Advance, Fetch;
    var j, id := JobFor(s, value, a), StartOf(a);
    StartRead(s, value, a);
    var t := Outs(s, [value] + a);
    LeftAtStart(t, id, k);
    ReadStream(t, id, k, |Sectors(j, id, k)|);
    ReadRejected(Ins(t, |Sectors(j, id, k)|).s, AdvanceN(id, j.mt, a[5], k - 1));
  }

  /** After whole sectors the last one reached is full. */
  lemma {:induction false} ChainFills(j: Job, id: Idr, k: nat)
    requires Chain(j, id, k) && Sized(j) && k >= 1 && AllTake(j, id, Total(j, id, k))
    ensures var last := AdvanceN(id, j.mt, j.args[5], k - 1);
      Takes(j, last) && Tail(j, id, Total(j, id, k)) == Room(j, last)
    decreases k
  {
    hide Takes, Room, Advance;
    if k > 1 {
      ChainTakes(j, j.After(id), k - 1);
      ChainFills(j, j.After(id), k - 1);
      AdvanceNFirst(id, j.mt, j.args[5], k - 1);
    }
  }

  /**
   * A WRITE that runs past the last accepted sector: all sectors are on the disk, the byte too many
   * is refused, and the result names the last sector written.
   */
  lemma WritePastEnd(s: Fdc, value: byte, a: seq<byte>, k: nat, data: seq<byte>, more: byte)
    requires Idle(s) && s.m.canWrite && WriteCommand(value) && |a| == 8 && k >= 1
    requires var j := JobFor(s, value, a);
      && Sized(j) && HasDisk(j, s.m.disk) && Chain(j, StartOf(a), k) && |data| == Total(j, StartOf(a), k)
      && !Takes(j, AdvanceN(StartOf(a), j.mt, a[5], k))
    ensures AllTake(JobFor(s, value, a), StartOf(a), |data|)
    ensures var j, t := JobFor(s, value, a), Outs(s, [value] + a + data + [more]);
      var u := Ins(t, 7);
      && Reports(t, ErrorResult(a, AdvanceN(StartOf(a), j.mt, a[5], k - 1)))
      && t.m.disk == WriteAll(j, WrittenBy(s), StartOf(a), data).disk
      && u.values == t.result && Idle(u.s) && u.s.m == t.m
  {
    hide Out, In, WriteAll, Advance, AllTake, Reached, Idle, Takes, Total, Tail, Chain, Reports;
    var j, id := JobFor(s, value, a), StartOf(a);
    ChainTakes(j, id, k);
    ChainFills(j, id, k);
    WriteUntilStop(s, value, a, data);
    var u := Outs(s, [value] + a + data);
    var last := AdvanceN(id, j.mt, a[5], k - 1);
    OutsConcat(s, [value] + a + data, [more]);
    OneMore(u, more);
    WriteRejected(u, j, last, more);
    ReportedResult(Out(u, more), ErrorResult(a, last));
    EndTransfer(Out(u, more), ErrorResult(a, last));
  }

  lemma OneMore(s: Fdc, value: byte)
    ensures Outs(s, [value]) == Out(s, value)
  {
    assert Outs(Out(s, value), []) == Out(s, value);
  }

  lemma ReportedResult(s: Fdc, result: ResultBytes)
    requires Reports(s, result)
    ensures s.result == result
  {
  }

  /** A command whose first sector is rejected reports it at once, without an execution phase. */
  lemma RejectedAtOnce(s: Fdc, value: byte, a: seq<byte>)
    requires Idle(s) && (ReadCommand(value) || WriteCommand(value)) && |a| == 8 && a[3] != 0
    requires if ReadCommand(value) then s.m.canRead else s.m.canWrite
    requires Ask(s.m.disk, JobFor(s, value, a).Request(StartOf(a))).BadGeometry?
    ensures var t := Outs(s, [value] + a);
      Reports(t, ErrorResult(a, StartOf(a))) && t.m == s.m
  {
    hide Out, Ask, TransferOp, Commands;
    TransferOps(value);
    var op := TransferOp(value);
    Issue(s, value, op, a);
    var r := Ready(s, op, Bit(value, 128), a);
    assert r.args == a;
    var e := StartId(r.(c := r.c.(phase := Exec)), op.IsRead());
    assert PreExec(r.(c := r.c.(phase := Exec)), op) == Attempt(e, Reject);
    StatusBits(a[0] % 4);
    RejectionReports(EnterExec(r, op));
  }

  /** READ TRACK is READ from record 1, whatever record its arguments name. */
  lemma StartReadTrack(s: Fdc, value: byte, a: seq<byte>)
    requires Idle(s) && value % 32 == 0x02 && |a| == 8
    requires Loads(JobFor(s, value, a[3 := 1]), StartOf(a[3 := 1]))
    ensures var t := Outs(s, [value] + a);
      && Serving(t, StartOf(a[3 := 1])) && t.x.rwcount == 0 && t.busy == {}
      && JobOf(t) == JobFor(s, value, a[3 := 1])
  {
    hide Out;
    Issue(s, value, ReadTrack, a);
    var r := Ready(s, ReadTrack, Bit(value, 128), a);
    assert r.args == a;
    var e := StartId(r.(c := r.c.(phase := Exec, exm := true), args := r.args[3 := 1]), true);
    LoadServes(e);
  }
}
