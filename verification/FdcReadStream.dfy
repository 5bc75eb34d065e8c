/** READ: the bytes served are the sectors at start, advance(start), advance(advance(start)), ... */
module FdcReadStream {
  import opened Bytes
  import opened Floppy
  import opened FdcModel
  import opened FdcAdvance
  import opened FdcProtocol

  /** Everything a transfer depends on that does not change while it serves data. */
  datatype Job = Job(mt: bool, args: ArgBytes, track: Tracks, m: Media) {
    function Request(id: Idr): Floppy.Request { RequestFor(args, track, id) }
    function After(id: Idr): Idr { Advance(id, mt, args[5]) }
  }

  function JobOf(s: Fdc): Job {
    Job(s.c.mt, s.args, s.track, s.m)
  }

  /** The whole contents of sector `id`, and whether the controller would accept it. */
  predicate Loads(j: Job, id: Idr) {
    id.record != 0 && j.m.canRead && Ask(j.m.disk, j.Request(id)).At? && Fetch(j.m.disk, j.Request(id)) != []
  }

  /** The bytes of sector `id` that are served: with N = 0, at most DTL. */
  function Payload(j: Job, id: Idr): (p: seq<byte>)
    requires Loads(j, id)
    ensures |p| <= 1024
    ensures j.args[4] != 0 || j.args[7] != 0 ==> p != []
  {
    var data := Fetch(j.m.disk, j.Request(id));
    data[..Cap(j.args[4], j.args[7], |data|)]
  }

  predicate AllLoad(j: Job, id: Idr, k: nat)
    decreases k
  {
    k == 0 || (Loads(j, id) && AllLoad(j, j.After(id), k - 1))
  }

  /** The concatenation of `k` sectors from `id` on. */
  function Sectors(j: Job, id: Idr, k: nat): seq<byte>
    requires AllLoad(j, id, k)
    decreases k
  {
    if k == 0 then [] else Payload(j, id) + Sectors(j, j.After(id), k - 1)
  }

  /** A read command is being executed and sector `id` is in the buffer. */
  predicate Serving(s: Fdc, id: Idr) {
    && Executing(s) && s.c.op.value.IsRead()
    && Loads(JobOf(s), id)
    && s.x.idr == id && s.x.next == JobOf(s).After(id)
    && s.x.st0 == s.Drive() && s.x.st1 == 0 && s.x.st2 == 0
    && s.x.rwmax == |Payload(JobOf(s), id)| && s.x.exec[..s.x.rwmax] == Payload(JobOf(s), id)
    && s.x.rwcount <= s.x.rwmax
  }

  /** A sector that is accepted is served from its first byte. */
  lemma LoadServes(s: Fdc)
    requires Executing(s) && s.c.op.value.IsRead() && Loads(JobOf(s), s.x.next)
    ensures var t := PrepareRead(s);
      Serving(t, s.x.next) && t.x.rwcount == 0 && JobOf(t) == JobOf(s) && t.c == s.c && t.busy == s.busy
  {
    var o := ReadOutcome(s);
    var t := Attempt(s, o);
    assert o.Accept?;
    assert t.x.exec[..|o.data|] == o.data;
    assert t.x.exec[..t.x.rwmax] == o.data[..t.x.rwmax];
  }

  lemma ServeWithin(s: Fdc, id: Idr)
    requires Serving(s, id) && s.x.rwcount < s.x.rwmax
    ensures In(s) == Reply(s.(x := s.x.(rwcount := s.x.rwcount + 1, irq := true)), Payload(JobOf(s), id)[s.x.rwcount])
  {
    var r := ServeByte(Calm(s));
    ExecutionGoesOn(r.s);
    assert s.x.exec[s.x.rwcount] == s.x.exec[..s.x.rwmax][s.x.rwcount];
  }

  /** At the end of a sector the next access loads the next one and returns its first byte. */
  lemma ServeAcross(s: Fdc, id: Idr)
    requires Serving(s, id) && s.x.rwcount == s.x.rwmax
    requires Loads(JobOf(s), JobOf(s).After(id)) && (s.args[4] != 0 || s.args[7] != 0)
    ensures var r := In(s);
      && Serving(r.s, JobOf(s).After(id)) && r.s.x.rwcount == 1 && JobOf(r.s) == JobOf(s) && r.s.busy == s.busy
      && r.value == Payload(JobOf(s), JobOf(s).After(id))[0]
  {
    var t := PrepareRead(Calm(s));
    LoadServes(Calm(s));
    assert t.x.exec[0] == t.x.exec[..t.x.rwmax][0];
    ExecutionGoesOn(t.(x := t.x.(rwcount := 1, irq := true)));
  }

  lemma MoreSectors(j: Job, id: Idr, k: nat)
    requires k >= 2 && AllLoad(j, id, k) && (j.args[4] != 0 || j.args[7] != 0)
    ensures |Sectors(j, id, k)| > |Payload(j, id)|
  {
    assert Sectors(j, j.After(id), k - 1) == Payload(j, j.After(id)) + Sectors(j, j.After(j.After(id)), k - 2);
  }

  /** A read in progress: the sector in the buffer and the `k - 1` sectors after it will be accepted. */
  predicate Streaming(s: Fdc, id: Idr, k: nat) {
    k >= 1 && Serving(s, id) && AllLoad(JobOf(s), id, k) && (s.args[4] != 0 || s.args[7] != 0)
  }

  /** The bytes of those sectors that have not been served yet. */
  function Left(s: Fdc, id: Idr, k: nat): seq<byte>
    requires Streaming(s, id, k)
  {
    s.x.exec[s.x.rwcount..s.x.rwmax] + Sectors(JobOf(s), JobOf(s).After(id), k - 1)
  }

  lemma LeftWithin(s: Fdc, id: Idr, k: nat)
    requires Streaming(s, id, k) && s.x.rwcount < s.x.rwmax
    ensures var t := s.(x := s.x.(rwcount := s.x.rwcount + 1, irq := true));
      && Streaming(t, id, k)
      && Left(s, id, k) == [Payload(JobOf(s), id)[s.x.rwcount]] + Left(t, id, k)
  {
    var c, m := s.x.rwcount, s.x.rwmax;
    assert s.x.exec[c..m] == [s.x.exec[c]] + s.x.exec[c + 1..m];
    assert s.x.exec[c] == s.x.exec[..m][c];
  }

  lemma LeftAcross(s: Fdc, id: Idr, k: nat, t: Fdc, id': Idr)
    requires Streaming(s, id, k) && s.x.rwcount == s.x.rwmax && k >= 2
    requires id' == JobOf(s).After(id) && Serving(t, id') && t.x.rwcount == 1 && JobOf(t) == JobOf(s)
    ensures Streaming(t, id', k - 1)
    ensures Left(s, id, k) == [Payload(JobOf(s), id')[0]] + Left(t, id', k - 1)
  {
    hide Loads, Advance, Executing, Payload, Sectors;
    var j := JobOf(s);
    SectorsFirst(j, id', k - 1);
    FrontAndRest(t.x.exec, t.x.rwmax, Payload(j, id'));
    assert s.x.exec[s.x.rwcount..s.x.rwmax] == [];
    Joined(Payload(j, id')[0], t.x.exec[1..t.x.rwmax], Sectors(j, j.After(id'), k - 2));
  }

  lemma SectorsFirst(j: Job, id: Idr, k: nat)
    requires k >= 1 && AllLoad(j, id, k)
    ensures Sectors(j, id, k) == Payload(j, id) + Sectors(j, j.After(id), k - 1)
  {
  }

  lemma FrontAndRest(a: seq<byte>, n: nat, p: seq<byte>)
    requires 1 <= n <= |a| && a[..n] == p
    ensures p == [p[0]] + a[1..n]
  {
    assert a[..n][1..] == a[1..n];
  }

  lemma Joined(x: byte, a: seq<byte>, b: seq<byte>)
    ensures [x] + a + b == [x] + (a + b)
  {
  }

  lemma NextLoads(j: Job, id: Idr, k: nat)
    requires k >= 2 && AllLoad(j, id, k)
    ensures Loads(j, j.After(id))
  {
    assert AllLoad(j, j.After(id), k - 1);
  }

  lemma ReadOne(s: Fdc, id: Idr, k: nat) returns (id': Idr, k': nat)
    requires Streaming(s, id, k) && Left(s, id, k) != []
    ensures var r := In(s);
      && Streaming(r.s, id', k') && JobOf(r.s) == JobOf(s) && r.s.busy == s.busy
      && Left(s, id, k) == [r.value] + Left(r.s, id', k')
      && AdvanceN(id', s.c.mt, s.Eot(), k' - 1) == AdvanceN(id, s.c.mt, s.Eot(), k - 1)
  {
    hide In;
    if s.x.rwcount < s.x.rwmax {
      id', k' := id, k;
      ServeWithin(s, id);
      LeftWithin(s, id, k);
    } else {
      id', k' := JobOf(s).After(id), k - 1;
      assert k >= 2;
      NextLoads(JobOf(s), id, k);
      ServeAcross(s, id);
      LeftAcross(s, id, k, In(s).s, id');
      AdvanceNFirst(id, s.c.mt, s.Eot(), k - 1);
    }
  }

  /**
   * The read stream: `n` reads return the next `n` bytes of the sector sequence. Once `k` sectors
   * have been served the ID registers name the last one and the one after it.
   */
  lemma {:induction false} ReadStream(s: Fdc, id: Idr, k: nat, n: nat)
    requires Streaming(s, id, k) && n <= |Left(s, id, k)|
    ensures var t := Ins(s, n);
      && t.values == Left(s, id, k)[..n]
      && JobOf(t.s) == JobOf(s) && t.s.busy == s.busy
      && (n == |Left(s, id, k)| ==>
            Serving(t.s, AdvanceN(id, s.c.mt, s.Eot(), k - 1)) && t.s.x.rwcount == t.s.x.rwmax)
    decreases n
  {
    hide In;
    if n > 0 {
      var id', k' := ReadOne(s, id, k);
      ReadStream(In(s).s, id', k', n - 1);
    } else if Left(s, id, k) == [] {
      if k >= 2 {
        MoreSectors(JobOf(s), id, k);
      }
    }
  }

  /** ST0 with the drive number, the head bit of `id` and, after an error, the code for an abnormal end. */
  function ErrorResult(args: ArgBytes, id: Idr): ResultBytes {
    [64 + args[0] % 4 + (if id.Side() then 4 else 0), 0x20, 0x20, id.cylinder, id.head, id.record, args[4]]
  }

  function NormalResult(args: ArgBytes, id: Idr): ResultBytes {
    [args[0] % 4 + (if id.Side() then 4 else 0), 0, 0, id.cylinder, id.head, id.record, args[4]]
  }

  /** In the result phase, with the given bytes still to be read; a terminal count may be left over. */
  predicate Reporting(s: Fdc, result: ResultBytes) {
    && !s.fault && s.Is(Result) && s.c.op.Some? && s.c.cb && !s.c.exm && s.c.dio
    && s.x.rwcount == 0 && s.x.rwmax == 7 && s.result == result
  }

  predicate Reports(s: Fdc, result: ResultBytes) {
    Reporting(s, result) && !s.x.tc
  }

  lemma StatusBits(drive: byte)
    requires drive < 4
    ensures SetBit(drive, 64) == drive + 64
    ensures SetBit(drive, 4) == drive + 4 && ClearBit(drive, 4) == drive
    ensures SetBit(drive + 64, 4) == drive + 68 && ClearBit(drive + 64, 4) == drive + 64
  {
  }

  /** A rejected sector ends the execution phase at once; the result names the last one transferred. */
  lemma RejectionReports(s: Fdc)
    requires !s.fault && s.Is(Exec) && s.c.op.Some? && (s.c.op.value.IsRead() || s.c.op.value.IsWrite())
    requires s.x.st0 == s.Drive() + 64 && s.x.st1 == 32 && s.x.st2 == 32 && s.x.tc
    ensures Reports(Leave(s, s.c.op.value), ErrorResult(s.args, s.x.idr))
    ensures var t := Leave(s, s.c.op.value); t.m == s.m && t.args == s.args && t.track == s.track && t.busy == s.busy
  {
    StatusBits(s.Drive());
  }

  /**
   * The access that comes to a sector the disk rejects returns 0 and ends the execution phase;
   * the result names the last sector served.
   */
  lemma ReadRejected(s: Fdc, id: Idr)
    requires Serving(s, id) && s.x.rwcount == s.x.rwmax
    requires s.x.next.record != 0 && Ask(s.m.disk, JobOf(s).Request(s.x.next)).BadGeometry?
    ensures In(s).value == 0 && Reports(In(s).s, ErrorResult(s.args, id))
  {
    var t := PrepareRead(Calm(s));
    StatusBits(s.Drive());
    assert In(s).s == Leave(t, s.c.op.value);
    RejectionReports(t);
  }

  /** Terminal count reports the sector after the last one loaded, without error bits. */
  lemma ReadStopped(s: Fdc, id: Idr)
    requires Serving(s, id)
    ensures var t := Terminate(s);
      && Reports(t, NormalResult(s.args, JobOf(s).After(id)))
      && t.m == s.m && t.args == s.args && t.track == s.track && t.busy == s.busy
  {
    StatusBits(s.Drive());
  }
}
