/** READ and WRITE with N = 0 and DTL = 0: every access goes on to another sector. */
module FdcZeroLength {
  import opened Bytes
  import opened Floppy
  import opened FdcModel
  import opened FdcAdvance
  import opened FdcProtocol
  import opened FdcReadStream
  import opened FdcWriteStream
  import opened FdcRoundTrip

  predicate ZeroLength(args: seq<byte>) {
    |args| == 8 && args[4] == 0 && args[7] == 0
  }

  /** No error so far, `id` is the sector claimed last, and none of its bytes will be transferred. */
  predicate Claimed(s: Fdc, id: Idr, next: Idr) {
    && Executing(s) && ZeroLength(s.args) && s.x.rwmax == 0 && s.x.idr == id && s.x.next == next
    && s.x.st0 == s.Drive() && s.x.st1 == 0 && s.x.st2 == 0
  }

  /** The result after terminal count names the sector after the one claimed last. */
  lemma Stopped(s: Fdc, id: Idr, next: Idr)
    requires Claimed(s, id, next) && (s.c.op.value.IsRead() || s.c.op.value.IsWrite())
    ensures Reports(Terminate(s), NormalResult(s.args, next)) && Terminate(s).m == s.m
  {
    StatusBits(s.Drive());
  }

  // ---- READ ----

  /** The first byte of each of `n` sectors from `id` on. */
  function FirstBytes(j: Job, id: Idr, n: nat): seq<byte>
    requires AllLoad(j, id, n)
    decreases n
  {
    if n == 0 then [] else [Fetch(j.m.disk, j.Request(id))[0]] + FirstBytes(j, j.After(id), n - 1)
  }

  predicate Skipping(s: Fdc, j: Job, id: Idr) {
    Claimed(s, id, j.After(id)) && s.c.op.value.IsRead() && JobOf(s) == j
  }

  lemma SkipOne(s: Fdc, j: Job, id: Idr)
    requires Skipping(s, j, id) && Loads(j, j.After(id))
    ensures var r := In(s);
      Skipping(r.s, j, j.After(id)) && r.value == Fetch(j.m.disk, j.Request(j.After(id)))[0]
  {
    var data := Fetch(j.m.disk, j.Request(j.After(id)));
    var t := PrepareRead(Calm(s));
    assert t.x.exec[..|data|] == data;
    assert t.x.exec[0] == t.x.exec[..|data|][0];
    ExecutionGoesOn(t.(x := t.x.(rwcount := 1, irq := true)));
  }

  lemma {:induction false} SkipMany(s: Fdc, j: Job, id: Idr, n: nat)
    requires Skipping(s, j, id) && AllLoad(j, j.After(id), n)
    ensures var t := Ins(s, n);
      && t.values == FirstBytes(j, j.After(id), n)
      && Skipping(t.s, j, AdvanceN(id, j.mt, j.args[5], n))
    decreases n
  {
    hide In, Skipping, Loads, Advance;
    if n > 0 {
      SkipOne(s, j, id);
      SkipMany(In(s).s, j, j.After(id), n - 1);
      AdvanceNFirst(id, j.mt, j.args[5], n);
    }
  }

  /**
   * A whole READ with N = 0 and DTL = 0: of the sectors from the start address on the first is
   * skipped, and then every read returns the first byte of the next one. After `n` reads the
   * result names the sector after the `n + 1`-th.
   */
  lemma ZeroLengthReads(s: Fdc, value: byte, a: seq<byte>, n: nat)
    requires Idle(s) && ReadCommand(value) && ZeroLength(a)
    requires AllLoad(JobFor(s, value, a), StartOf(a), n + 1)
    ensures var j, t := JobFor(s, value, a), ReadSession(s, value, a, n);
      && t.values == FirstBytes(j, j.After(StartOf(a)), n)
      && Reports(Terminate(t.s), NormalResult(a, AdvanceN(StartOf(a), j.mt, a[5], n + 1)))
      && Terminate(t.s).m == s.m
  {
    hide Out, In, Loads, Advance, Terminate;
    var j, id := JobFor(s, value, a), StartOf(a);
    StartRead(s, value, a);
    Serves(Outs(s, [value] + a), j, id);
    SkipMany(Outs(s, [value] + a), j, id, n);
    var last := AdvanceN(id, j.mt, a[5], n);
    Stopped(ReadSession(s, value, a, n).s, last, j.After(last));
  }

  lemma Serves(s: Fdc, j: Job, id: Idr)
    requires Serving(s, id) && JobOf(s) == j && ZeroLength(s.args)
    ensures Skipping(s, j, id)
  {
  }

  // ---- WRITE ----

  /** A write command under way that has room for no byte of any sector, or a stopped emulator. */
  predicate Swallows(s: Fdc) {
    s.fault || (Executing(s) && s.c.op.value.IsWrite() && ZeroLength(s.args) && s.x.rwmax == 0)
  }

  lemma SwallowOne(s: Fdc, value: byte)
    requires Swallows(s)
    ensures Out(s, value).m == s.m && (Swallows(Out(s, value)) || Out(s, value).Is(Result))
  {
    hide Advance, SetBit, ClearBit, TransferResult, Ask;
    if !s.fault {
      var t := ExecWrite(Calm(s), value);
      assert t.m == s.m && (t.x.tc || Swallows(t));
    }
  }

  lemma {:induction false} SwallowMany(s: Fdc, data: seq<byte>)
    requires Swallows(s) && forall i :: 0 <= i < |data| ==> Outs(s, data[..i]).Is(Exec)
    ensures Outs(s, data).m == s.m
    decreases |data|
  {
    hide Out, Swallows;
    if data != [] {
      SwallowOne(s, data[0]);
      var t, rest := Out(s, data[0]), data[1..];
      forall i | 0 <= i < |rest| ensures Outs(t, rest[..i]).Is(Exec) {
        assert data[..i + 1][0] == data[0] && data[..i + 1][1..] == rest[..i];
        assert Outs(s, data[..i + 1]).Is(Exec);
      }
      if rest != [] {
        assert Outs(t, rest[..0]).Is(Exec);
        SwallowMany(t, rest);
      }
    }
  }

  lemma StartSwallows(s: Fdc, value: byte, a: seq<byte>)
    requires Idle(s) && WriteCommand(value) && ZeroLength(a)
    ensures var t := Outs(s, [value] + a); t.m == s.m && (Swallows(t) || t.Is(Result))
  {
    hide Out, Advance, SetBit, ClearBit, TransferResult, Ask, TransferOp, Commands;
    TransferOps(value);
    var op := TransferOp(value);
    Issue(s, value, op, a);
    var r := Ready(s, op, Bit(value, 128), a);
    assert r.args == a;
    var t := EnterExec(r, op);
    assert t.m == s.m && (t.fault || t.x.tc || t.x.rwmax == 0);
  }

  /**
   * A whole WRITE with N = 0 and DTL = 0: whatever sectors there are, with or without a disk, no
   * data byte changes any disk as long as the command executes, the last one included.
   */
  lemma ZeroLengthNeverWrites(s: Fdc, value: byte, a: seq<byte>, data: seq<byte>)
    requires Idle(s) && WriteCommand(value) && ZeroLength(a)
    requires forall i :: 0 <= i < |data| ==> Outs(s, [value] + a + data[..i]).Is(Exec)
    ensures Outs(s, [value] + a + data).m == s.m
  {
    hide Out, Idle;
    StartSwallows(s, value, a);
    var t := Outs(s, [value] + a);
    forall i | 0 <= i < |data| ensures Outs(t, data[..i]).Is(Exec) {
      OutsConcat(s, [value] + a, data[..i]);
    }
    OutsConcat(s, [value] + a, data);
    if data != [] {
      assert Outs(t, data[..0]).Is(Exec);
      SwallowMany(t, data);
    }
  }

  /** `s` has claimed sector `id` for the write `j` and no byte of it has room. */
  predicate Claiming(s: Fdc, j: Job, id: Idr) {
    && Claimed(s, id, j.After(id)) && s.c.op.value.IsWrite() && s.m.canWrite && FdcWriteStream.Runs(s, j)
    && HasDisk(j, s.m.disk) && Takes(j, id)
  }

  lemma ClaimOne(s: Fdc, j: Job, id: Idr, value: byte)
    requires Claiming(s, j, id) && Takes(j, j.After(id))
    ensures Claiming(Out(s, value), j, j.After(id)) && Out(s, value).m == s.m
  {
    assert WriteOutcome(Calm(s)).Accept?;
    ExecutionGoesOn(ExecWrite(Calm(s), value));
  }

  lemma ClaimRejected(s: Fdc, j: Job, id: Idr, value: byte)
    requires Claiming(s, j, id) && !Takes(j, j.After(id))
    ensures Reports(Out(s, value), ErrorResult(s.args, id)) && Out(s, value).m == s.m
  {
    NextIsReal(j, id);
    var t := CommitWrite(Calm(s));
    StatusBits(s.Drive());
    assert Out(s, value) == Leave(t, s.c.op.value);
    RejectionReports(t);
  }

  lemma {:induction false} ClaimMany(s: Fdc, j: Job, id: Idr, data: seq<byte>)
    requires Claiming(s, j, id) && Chain(j, j.After(id), |data|)
    ensures Claiming(Outs(s, data), j, AdvanceN(id, j.mt, j.args[5], |data|)) && Outs(s, data).m == s.m
    decreases |data|
  {
    hide Out, Claiming, Takes, Advance;
    if data != [] {
      ClaimOne(s, j, id, data[0]);
      ClaimMany(Out(s, data[0]), j, j.After(id), data[1..]);
      AdvanceNFirst(id, j.mt, j.args[5], |data|);
    }
  }

  /**
   * Each data byte claims one more sector instead: after `n` bytes terminal count reports the
   * sector after the `n + 1`-th, and if the disk does not have that one, the next byte ends the
   * command with an error.
   */
  lemma ZeroLengthClaims(s: Fdc, value: byte, a: seq<byte>, data: seq<byte>, more: byte)
    requires Idle(s) && WriteCommand(value) && ZeroLength(a) && s.m.canWrite
    requires var j := JobFor(s, value, a); HasDisk(j, s.m.disk) && Chain(j, StartOf(a), |data| + 1)
    ensures var j, t := JobFor(s, value, a), Outs(s, [value] + a + data);
      var last := AdvanceN(StartOf(a), j.mt, a[5], |data|);
      && t.Is(Exec) && t.m == s.m && t.x.idr == last
      && Reports(Terminate(t), NormalResult(a, j.After(last))) && Terminate(t).m == s.m
      && (!Takes(j, j.After(last)) ==> Reports(Out(t, more), ErrorResult(a, last)) && Out(t, more).m == s.m)
  {
    hide Out, Advance, Terminate, Idle;
    var j, id := JobFor(s, value, a), StartOf(a);
    StartWrite(s, value, a);
    OutsConcat(s, [value] + a, data);
    Fills(Outs(s, [value] + a), j, id);
    ClaimMany(Outs(s, [value] + a), j, id, data);
    var t := Outs(s, [value] + a + data);
    var last := AdvanceN(id, j.mt, a[5], |data|);
    Stopped(t, last, j.After(last));
    if !Takes(j, j.After(last)) {
      ClaimRejected(t, j, last, more);
    }
  }

  lemma Fills(s: Fdc, j: Job, id: Idr)
    requires Filling(s, j, id) && ZeroLength(s.args)
    ensures Claiming(s, j, id)
  {
  }
}
