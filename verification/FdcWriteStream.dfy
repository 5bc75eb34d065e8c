/** WRITE: complete sectors reach the disk in advance order; the incomplete tail stays in the buffer. */
module FdcWriteStream {
  import opened Bytes
  import opened Floppy
  import opened FdcModel
  import opened FdcAdvance
  import opened FdcProtocol
  import opened FdcReadStream

  /** The bytes of the medium and of the sector buffer while a write command runs. */
  datatype Written = Written(disk: Disk, buf: ExecBytes)

  predicate HasDisk(j: Job, d: Disk) {
    d[j.args[0] % 4].Some?
  }

  /** Sector `id` exists on a disk and is where the head is. */
  predicate Takes(j: Job, id: Idr) {
    id.record != 0 && Locate(j.Request(id)).Some?
  }

  function Target(j: Job, id: Idr): Region
    requires Takes(j, id)
  {
    Locate(j.Request(id)).value
  }

  /** Without it (N = 0 and DTL = 0) no byte of a sector would be transferred. */
  predicate Sized(j: Job) {
    j.args[4] != 0 || j.args[7] != 0
  }

  /** How many bytes fill sector `id`: its length or, with N = 0, at most DTL. */
  function Room(j: Job, id: Idr): (r: nat)
    requires Takes(j, id)
    ensures r <= 1024 && (Sized(j) ==> r > 0)
  {
    Cap(j.args[4], j.args[7], Target(j, id).len)
  }

  /** Sector `id` receives `data`; what is in the buffer behind it fills the sector up. */
  function WriteSector(j: Job, w: Written, id: Idr, data: seq<byte>): Written
    requires Takes(j, id) && HasDisk(j, w.disk) && |data| <= Room(j, id)
  {
    var buf := data + w.buf[|data|..];
    if |data| < Room(j, id) then Written(w.disk, buf)
    else Written(Store(w.disk, j.Request(id), buf[..Target(j, id).len]), buf)
  }

  /** Every sector that `n` bytes from `id` on reach is accepted. */
  predicate AllTake(j: Job, id: Idr, n: nat)
    requires Sized(j)
    decreases n
  {
    n == 0 || (Takes(j, id) && (n <= Room(j, id) || AllTake(j, j.After(id), n - Room(j, id))))
  }

  /** The number of sectors those bytes reach. */
  function Reached(j: Job, id: Idr, n: nat): nat
    requires Sized(j) && AllTake(j, id, n)
    decreases n
  {
    if n == 0 then 0 else if n <= Room(j, id) then 1 else 1 + Reached(j, j.After(id), n - Room(j, id))
  }

  /** How many of them the last sector reached has received. */
  function Tail(j: Job, id: Idr, n: nat): (t: nat)
    requires Sized(j) && AllTake(j, id, n)
    ensures t <= n && t <= 1024 && (n > 0 ==> t > 0)
    decreases n
  {
    if n == 0 then 0 else if n <= Room(j, id) then n else Tail(j, j.After(id), n - Room(j, id))
  }

  /** The effect of writing `data` from sector `id` on: sector after sector, then the tail. */
  function WriteAll(j: Job, w: Written, id: Idr, data: seq<byte>): Written
    requires Sized(j) && HasDisk(j, w.disk) && AllTake(j, id, |data|)
    decreases |data|
  {
    if data == [] then w
    else if |data| <= Room(j, id) then WriteSector(j, w, id, data)
    else WriteAll(j, WriteSector(j, w, id, data[..Room(j, id)]), j.After(id), data[Room(j, id)..])
  }

  /** The last sector reached has received the end of the data: it is at the front of the buffer. */
  lemma {:induction false} TailInBuffer(j: Job, w: Written, id: Idr, data: seq<byte>)
    requires Sized(j) && HasDisk(j, w.disk) && AllTake(j, id, |data|)
    ensures var n := Tail(j, id, |data|); WriteAll(j, w, id, data).buf[..n] == data[|data| - n..]
    decreases |data|
  {
    hide Takes, Room, Advance, WriteSector;
    if data != [] {
      if |data| <= Room(j, id) {
        SectorInBuffer(j, w, id, data);
      } else {
        var first, rest := data[..Room(j, id)], data[Room(j, id)..];
        SectorInBuffer(j, w, id, first);
        TailInBuffer(j, WriteSector(j, w, id, first), j.After(id), rest);
        EndOfRest(data, Room(j, id), Tail(j, id, |data|));
      }
    }
  }

  lemma EndOfRest(data: seq<byte>, k: nat, n: nat)
    requires k + n <= |data|
    ensures data[k..][|data| - k - n..] == data[|data| - n..]
  {
  }

  lemma SectorInBuffer(j: Job, w: Written, id: Idr, data: seq<byte>)
    requires Takes(j, id) && HasDisk(j, w.disk) && |data| <= Room(j, id)
    ensures WriteSector(j, w, id, data).buf[..|data|] == data == data[|data| - |data|..]
    ensures HasDisk(j, WriteSector(j, w, id, data).disk)
  {
    assert (data + w.buf[|data|..])[..|data|] == data;
  }

  function WrittenBy(s: Fdc): Written {
    Written(s.m.disk, s.x.exec)
  }

  /** `s` runs the transfer `j`, whatever it has written so far. */
  predicate Runs(s: Fdc, j: Job) {
    j.mt == s.c.mt && j.args == s.args && j.track == s.track && j.m.canRead == s.m.canRead
  }

  /** A write command is being executed and fills sector `id`. */
  predicate Filling(s: Fdc, j: Job, id: Idr) {
    && Executing(s) && s.c.op.value.IsWrite() && s.m.canWrite
    && Runs(s, j) && HasDisk(j, s.m.disk) && Takes(j, id)
    && s.x.idr == id && s.x.next == j.After(id)
    && s.x.st0 == s.Drive() && s.x.st1 == 0 && s.x.st2 == 0
    && s.x.rwmax == Room(j, id) && s.x.rwcount <= s.x.rwmax
  }

  lemma CommitFills(s: Fdc, j: Job)
    requires Executing(s) && s.c.op.value.IsWrite() && s.m.canWrite && Runs(s, j)
    requires HasDisk(j, s.m.disk) && Takes(j, s.x.next)
    ensures var t := CommitWrite(s);
      Filling(t, j, s.x.next) && t == s.(x := t.x) && t.x.exec == s.x.exec && t.x.rwcount == 0
  {
    assert WriteOutcome(s).Accept?;
  }

  function Put(s: Fdc, value: byte): Fdc
    requires s.x.rwcount < 1024
  {
    s.(x := s.x.(exec := s.x.exec[s.x.rwcount := value], rwcount := s.x.rwcount + 1, irq := true))
  }

  lemma FillWithin(s: Fdc, j: Job, id: Idr, value: byte)
    requires Filling(s, j, id) && s.x.rwcount < s.x.rwmax
    ensures var t := Put(s, value);
      Out(s, value) == if t.x.rwcount < t.x.rwmax then t
        else t.(m := t.m.(disk := Store(t.m.disk, j.Request(id), t.x.exec[..Target(j, id).len])))
  {
    var t := PutByte(Calm(s), value);
    assert t == ExecStep(Calm(s), s.c.op.value, value).s;
    ExecutionGoesOn(t);
  }

  /** At the end of a sector the next access claims the next one first. */
  lemma FillAcross(s: Fdc, j: Job, id: Idr, value: byte)
    requires Filling(s, j, id) && s.x.rwcount == s.x.rwmax && Takes(j, s.x.next) && Sized(j)
    ensures Out(s, value) == Out(CommitWrite(s), value)
  {
    CommitFills(Calm(s), j);
    CommitFills(s, j);
    var t := CommitWrite(Calm(s));
    assert PutByte(t, value) == ExecStep(Calm(s), s.c.op.value, value).s;
    assert t.(x := t.x.(irq := false)) == Calm(CommitWrite(s));
    PutIgnoresIrq(t, value);
  }

  lemma PutIgnoresIrq(s: Fdc, value: byte)
    requires s.x.rwcount < 1024
    ensures PutByte(s, value) == PutByte(Calm(s), value)
  {
  }

  /** Sector `id` has received `p` since the medium and the buffer were `w`. */
  predicate Holds(s: Fdc, j: Job, w: Written, id: Idr, p: seq<byte>) {
    && Filling(s, j, id) && s.x.rwcount == |p| && HasDisk(j, w.disk)
    && WrittenBy(s) == WriteSector(j, w, id, p)
  }

  lemma FillOne(s: Fdc, j: Job, w: Written, id: Idr, p: seq<byte>, value: byte)
    requires Holds(s, j, w, id, p) && |p| < Room(j, id)
    ensures Holds(Out(s, value), j, w, id, p + [value]) && Out(s, value).busy == s.busy
  {
    hide Out;
    FillWithin(s, j, id, value);
    assert s.x.exec[|p| := value] == (p + [value]) + w.buf[|p| + 1..];
  }

  lemma {:induction false} FillMany(s: Fdc, j: Job, w: Written, id: Idr, p: seq<byte>, data: seq<byte>)
    requires Holds(s, j, w, id, p) && |p| + |data| <= Room(j, id)
    ensures Holds(Outs(s, data), j, w, id, p + data) && Outs(s, data).busy == s.busy
    decreases |data|
  {
    hide Out;
    if data == [] {
      assert p + data == p;
    } else {
      FillOne(s, j, w, id, p, data[0]);
      FillMany(Out(s, data[0]), j, w, id, p + [data[0]], data[1..]);
      assert p + [data[0]] + data[1..] == p + data;
    }
  }

  lemma FillNothing(s: Fdc, j: Job, id: Idr)
    requires Filling(s, j, id) && s.x.rwcount == 0 && Sized(j)
    ensures Holds(s, j, WrittenBy(s), id, [])
  {
    assert [] + s.x.exec[0..] == s.x.exec;
  }

  /**
   * The write stream: after any number of data writes the disk is the initial one with exactly the
   * complete sectors replaced, in advance order, and the tail is at the front of the buffer, the
   * access counter telling its length.
   */
  lemma WriteStream(s: Fdc, j: Job, id: Idr, data: seq<byte>)
    requires Filling(s, j, id) && s.x.rwcount == 0 && Sized(j) && data != [] && AllTake(j, id, |data|)
    ensures var t := Outs(s, data);
      && WrittenBy(t) == WriteAll(j, WrittenBy(s), id, data)
      && t.busy == s.busy
      && Filling(t, j, AdvanceN(id, j.mt, j.args[5], Reached(j, id, |data|) - 1))
      && t.x.rwcount == Tail(j, id, |data|) && t.x.exec[..t.x.rwcount] == data[|data| - t.x.rwcount..]
  {
    hide Outs, WriteAll, Tail, Reached, AllTake, AdvanceN;
    StreamWrites(s, j, id, data);
    TailInBuffer(j, WrittenBy(s), id, data);
  }

  lemma {:induction false} StreamWrites(s: Fdc, j: Job, id: Idr, data: seq<byte>)
    requires Filling(s, j, id) && s.x.rwcount == 0 && Sized(j) && data != [] && AllTake(j, id, |data|)
    ensures var t := Outs(s, data);
      && WrittenBy(t) == WriteAll(j, WrittenBy(s), id, data)
      && t.busy == s.busy
      && Filling(t, j, AdvanceN(id, j.mt, j.args[5], Reached(j, id, |data|) - 1))
      && t.x.rwcount == Tail(j, id, |data|)
    decreases |data|
  {
    hide Out, CommitWrite, WriteSector, Advance;
    if |data| <= Room(j, id) {
      FillNothing(s, j, id);
      assert [] + data == data;
      FillMany(s, j, WrittenBy(s), id, [], data);
    } else {
      var t := FirstSector(s, j, id, data);
      StreamWrites(t, j, j.After(id), data[Room(j, id)..]);
      AdvanceNFirst(id, j.mt, j.args[5], Reached(j, id, |data|) - 1);
    }
  }

  /** More bytes than fit in the first sector: the rest goes on from the next one. */
  lemma FirstSector(s: Fdc, j: Job, id: Idr, data: seq<byte>) returns (t: Fdc)
    requires Filling(s, j, id) && s.x.rwcount == 0 && Sized(j)
    requires |data| > Room(j, id) && Takes(j, j.After(id))
    ensures Outs(s, data) == Outs(t, data[Room(j, id)..])
    ensures Filling(t, j, j.After(id)) && t.x.rwcount == 0 && t.busy == s.busy
    ensures WrittenBy(t) == WriteSector(j, WrittenBy(s), id, data[..Room(j, id)])
  {
    hide Out, CommitWrite, WriteSector, Advance;
    var first, rest := data[..Room(j, id)], data[Room(j, id)..];
    FillNothing(s, j, id);
    assert data == first + rest && [] + first == first;
    FillMany(s, j, WrittenBy(s), id, [], first);
    OutsConcat(s, first, rest);
    NextSector(Outs(s, first), j, id, rest);
    t := CommitWrite(Outs(s, first));
  }

  lemma NextSector(s: Fdc, j: Job, id: Idr, rest: seq<byte>)
    requires Filling(s, j, id) && s.x.rwcount == s.x.rwmax && Sized(j) && Takes(j, j.After(id)) && rest != []
    ensures var t := CommitWrite(s);
      && Outs(s, rest) == Outs(t, rest)
      && Filling(t, j, j.After(id)) && t.x.rwcount == 0 && WrittenBy(t) == WrittenBy(s) && t.busy == s.busy
  {
    hide Out;
    FillAcross(s, j, id, rest[0]);
    CommitFills(s, j);
  }

  /** An accepted record is at most 16, so the one after it is not 0. */
  lemma NextIsReal(j: Job, id: Idr)
    requires Takes(j, id)
    ensures j.After(id).record != 0
  {
  }

  /** The byte written after the last accepted sector is refused: nothing changes on the disk. */
  lemma WriteRejected(s: Fdc, j: Job, id: Idr, value: byte)
    requires Filling(s, j, id) && s.x.rwcount == s.x.rwmax
    requires !Takes(j, j.After(id))
    ensures var t := Out(s, value);
      && Reports(t, ErrorResult(s.args, id)) && WrittenBy(t) == WrittenBy(s)
      && t.m == s.m && t.track == s.track && t.busy == s.busy
  {
    NextIsReal(j, id);
    var t := CommitWrite(Calm(s));
    StatusBits(s.Drive());
    assert Out(s, value) == Leave(t, s.c.op.value);
    RejectionReports(t);
  }

  /** Terminal count never writes the tail to the disk; it reports the sector after the last one claimed. */
  lemma WriteStopped(s: Fdc, j: Job, id: Idr)
    requires Filling(s, j, id)
    ensures var t := Terminate(s);
      && Reports(t, NormalResult(s.args, j.After(id)))
      && t.m == s.m && t.args == s.args && t.track == s.track && t.busy == s.busy
  {
    StatusBits(s.Drive());
  }
}
