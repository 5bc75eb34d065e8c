/** What a transfer moves, byte by byte: which bytes of the image file, and how many of each sector. */
module FdcSectors {
  import opened Bytes
  import opened Floppy
  import opened FdcModel
  import opened FdcAdvance
  import opened FdcProtocol
  import opened FdcReadStream
  import opened FdcWriteStream
  import opened FdcRoundTrip

  // The arguments of a transfer: unit and head, C, H, R, N, EOT, GPL, DTL.

  /** `k` sectors from the start address on lie on one side, on the head's track, and within EOT. */
  predicate OnSide(s: Fdc, a: seq<byte>, k: nat) {
    && |a| == 8 && k >= 1
    && a[1] == s.track[a[0] % 4] < 80 && (a[2] != 0) == Bit(a[0], 4)
    && 1 <= a[3] && a[3] + k - 1 <= (if a[1] == 0 && a[2] == 0 then 16 else 5)
    && (k == 1 || a[3] + k - 1 <= a[5])
  }

  /** Bytes of one sector, and where the first one starts in the image. */
  function SectorSize(a: seq<byte>): nat
    requires |a| == 8
  {
    if a[1] == 0 && a[2] == 0 then 256 else 1024
  }

  function Start(s: Fdc, a: seq<byte>): nat
    requires |a| == 8 && a[3] >= 1
  {
    Offset(a[1], a[2] != 0, a[3] - 1)
  }

  /** Of each sector the first `d` bytes are transferred: all of them unless N = 0 and DTL is smaller. */
  predicate Transfers(a: seq<byte>, d: nat)
    requires |a| == 8
  {
    d > 0 && if a[4] != 0 || a[7] >= SectorSize(a) then d == SectorSize(a) else d == a[7]
  }

  /** The first `d` bytes of each of `k` pieces of `len` bytes, as far as the file reaches. */
  function Parts(f: File, offset: nat, len: nat, d: nat, k: nat): seq<byte>
    decreases k
  {
    if k == 0 then [] else Slice(f, offset, d) + Parts(f, offset + len, len, d, k - 1)
  }

  /** The position of byte `y` of piece `x`, in pieces of `len` bytes from `offset` on. */
  function Position(offset: nat, len: nat, x: nat, y: nat): nat {
    offset + x * len + y
  }

  // ---- Arithmetic of pieces ----

  /** `k * n`, for proofs that count pieces. */
  function Times(k: nat, n: nat): nat {
    if k == 0 then 0 else n + Times(k - 1, n)
  }

  lemma {:induction false} TimesIs(k: nat, n: nat)
    ensures Times(k, n) == k * n
  {
    if k > 0 {
      TimesIs(k - 1, n);
      assert k * n == (k - 1) * n + n;
    }
  }

  lemma SliceSplit(f: File, offset: nat, n: nat, m: nat)
    ensures Slice(f, offset, n + m) == Slice(f, offset, n) + Slice(f, offset + n, m)
  {
  }

  /** Whole pieces are one slice. */
  lemma {:induction false} PartsWhole(f: File, offset: nat, len: nat, k: nat)
    ensures Parts(f, offset, len, len, k) == Slice(f, offset, Times(k, len))
    decreases k
  {
    if k > 0 {
      hide Slice;
      PartsWhole(f, offset + len, len, k - 1);
      SliceSplit(f, offset, len, Times(k - 1, len));
    }
  }

  lemma SliceInside(f: File, offset: nat, d: nat)
    requires offset + d <= |f|
    ensures |Slice(f, offset, d)| == d && forall y :: 0 <= y < d ==> Slice(f, offset, d)[y] == f[offset + y]
  {
  }

  /** Byte `y` of piece `x`. */
  lemma {:induction false} PartsAt(f: File, offset: nat, len: nat, d: nat, k: nat, x: nat, y: nat)
    requires x < k && y < d <= len && offset + Times(k, len) <= |f|
    ensures ByteAt(Parts(f, offset, len, d, k), Times(x, d) + y) == ByteAt(f, offset + Times(x, len) + y)
    decreases k
  {
    hide Slice, Parts, Times, ByteAt;
    TimesFirst(k, len);
    SliceInside(f, offset, d);
    PartsFirst(f, offset, len, d, k);
    var p, q := Slice(f, offset, d), Parts(f, offset + len, len, d, k - 1);
    if x == 0 {
      NoTimes(d);
      NoTimes(len);
      Front(p, q, y);
      Inside(f, offset + y);
    } else {
      TimesFirst(x, d);
      TimesFirst(x, len);
      PartsAt(f, offset + len, len, d, k - 1, x - 1, y);
      Behind(p, q, Times(x - 1, d) + y);
    }
  }

  lemma PartsFirst(f: File, offset: nat, len: nat, d: nat, k: nat)
    requires k >= 1
    ensures Parts(f, offset, len, d, k) == Slice(f, offset, d) + Parts(f, offset + len, len, d, k - 1)
  {
  }

  lemma NoParts(f: File, offset: nat, len: nat, d: nat)
    ensures Parts(f, offset, len, d, 0) == []
  {
  }

  lemma TimesFirst(k: nat, n: nat)
    requires k >= 1
    ensures Times(k, n) == n + Times(k - 1, n)
  {
  }

  lemma NoTimes(n: nat)
    ensures Times(0, n) == 0
  {
  }

  lemma Front(p: seq<byte>, q: seq<byte>, i: nat)
    requires i < |p|
    ensures ByteAt(p + q, i) == p[i]
  {
  }

  lemma Inside(f: File, i: nat)
    requires i < |f|
    ensures ByteAt(f, i) == f[i]
  {
  }

  lemma Behind(p: seq<byte>, q: seq<byte>, i: nat)
    ensures ByteAt(p + q, |p| + i) == ByteAt(q, i)
  {
  }

  lemma {:induction false} PartsLength(f: File, offset: nat, len: nat, d: nat, k: nat)
    requires d <= len && offset + Times(k, len) <= |f|
    ensures |Parts(f, offset, len, d, k)| == Times(k, d)
    decreases k
  {
    hide Slice;
    if k > 0 {
      SliceInside(f, offset, d);
      PartsLength(f, offset + len, len, d, k - 1);
    }
  }

  lemma Piecewise(k: nat, n: nat, x: nat)
    requires k >= 1
    ensures Times(k, n) == k * n == n + (k - 1) * n && Times(k - 1, n) == (k - 1) * n && Times(x, n) == x * n
  {
    TimesIs(k, n);
    TimesIs(k - 1, n);
    TimesIs(x, n);
  }

  // ---- Sectors are pieces ----

  /** Where sector `id` starts in the image, and its length. */
  function StartAt(id: Idr): nat {
    Offset(id.cylinder, id.head != 0, Dec(id.record))
  }

  function LengthOf(id: Idr): nat {
    SectorLen(id.cylinder, id.head != 0)
  }

  /** How much of each sector a job transfers. */
  predicate Moves(j: Job, len: nat, d: nat) {
    0 < d <= len && if j.args[4] != 0 || j.args[7] >= len then d == len else d == j.args[7]
  }

  /** One accepted sector, in terms of the file. */
  lemma OnePiece(j: Job, id: Idr, f: File, d: nat)
    requires OnOneSide(j, id, 1) && j.m.canRead && j.m.disk[j.args[0] % 4] == Some(f)
    requires StartAt(id) < |f| && Moves(j, LengthOf(id), d)
    ensures Loads(j, id) && Payload(j, id) == Slice(f, StartAt(id), d)
  {
    hide Slice, Fetch, Ask, Loads, StartAt, LengthOf, OnOneSide;
    FetchOne(j, id, f);
    SlicePrefix(f, StartAt(id), LengthOf(id), d);
  }

  lemma FetchOne(j: Job, id: Idr, f: File)
    requires OnOneSide(j, id, 1) && j.m.canRead && j.m.disk[j.args[0] % 4] == Some(f) && StartAt(id) < |f|
    ensures Loads(j, id)
    ensures Fetch(j.m.disk, j.Request(id)) == Slice(f, StartAt(id), LengthOf(id))
  {
  }

  lemma SlicePrefix(f: File, offset: nat, len: nat, d: nat)
    requires d <= len
    ensures var all := Slice(f, offset, len); Slice(f, offset, d) == all[..Min(d, |all|)]
  {
  }

  /** The next sector of a side is the next piece. */
  lemma NextPiece(j: Job, id: Idr, k: nat)
    requires k > 1 && OnOneSide(j, id, k)
    ensures OnOneSide(j, id, 1) && OnOneSide(j, j.After(id), k - 1)
    ensures StartAt(j.After(id)) == StartAt(id) + LengthOf(id) && LengthOf(j.After(id)) == LengthOf(id)
  {
    StaysOnTrack(j, id);
  }

  lemma {:induction false} SectorsAreParts(j: Job, id: Idr, k: nat, f: File, d: nat)
    requires k >= 1 && OnOneSide(j, id, k) && j.m.canRead && j.m.disk[j.args[0] % 4] == Some(f)
    requires StartAt(id) + Times(k - 1, LengthOf(id)) < |f| && Moves(j, LengthOf(id), d)
    ensures AllLoad(j, id, k)
    ensures Sectors(j, id, k) == Parts(f, StartAt(id), LengthOf(id), d, k)
    decreases k
  {
    hide OnOneSide, Loads, Payload, Slice, Advance, StartAt, LengthOf, Moves, Times, Parts;
    PartsFirst(f, StartAt(id), LengthOf(id), d, k);
    if k > 1 {
      TimesFirst(k - 1, LengthOf(id));
      NextPiece(j, id, k);
      OnePiece(j, id, f, d);
      SectorsAreParts(j, j.After(id), k - 1, f, d);
    } else {
      NoTimes(LengthOf(id));
      OnePiece(j, id, f, d);
      NoParts(f, StartAt(id) + LengthOf(id), LengthOf(id), d);
      assert Sectors(j, j.After(id), 0) == [];
    }
  }

  lemma SideOfArguments(s: Fdc, value: byte, a: seq<byte>, k: nat)
    requires OnSide(s, a, k)
    ensures OnOneSide(JobFor(s, value, a), StartOf(a), k)
    ensures LengthOf(StartOf(a)) == SectorLen(a[1], a[2] != 0) == SectorSize(a) && StartAt(StartOf(a)) == Start(s, a)
    ensures k <= UpToEot(StartOf(a), a[5])
  {
  }

  /** The room of `k` sectors of one side. */
  lemma RoomForParts(s: Fdc, value: byte, a: seq<byte>, k: nat, d: nat)
    requires OnSide(s, a, k) && Transfers(a, d)
    ensures var j := JobFor(s, value, a);
      Sized(j) && Chain(j, StartOf(a), k) && Total(j, StartOf(a), k) == k * d
  {
    hide Chain, Total, OnOneSide;
    SideOfArguments(s, value, a, k);
    OneSideAccepted(JobFor(s, value, a), StartOf(a), k);
    OneSideTotal(JobFor(s, value, a), StartOf(a), k);
  }

  // ---- The result ----

  /** The result of `k` sectors of one side: it names the sector after the last one. */
  function EndResult(value: byte, a: seq<byte>, k: nat): ResultBytes
    requires |a| == 8 && a[1] < 80
  {
    if a[3] + k <= a[5] then
      [a[0] % 4 + (if Bit(a[0], 4) then 4 else 0), 0, 0, a[1], a[2], a[3] + k, a[4]]
    else if value < 128 then
      [a[0] % 4 + (if Bit(a[0], 4) then 4 else 0), 0, 0, a[1] + 1, a[2], 1, a[4]]
    else if Bit(a[0], 4) then
      [a[0] % 4, 0, 0, a[1] + 1, if a[2] == 0 then 1 else 0, 1, a[4]]
    else
      [a[0] % 4 + 4, 0, 0, a[1], if a[2] == 0 then 1 else 0, 1, a[4]]
  }

  lemma {:induction false} LastRecord(id: Idr, mt: bool, eot: byte, k: nat)
    requires k == 0 || id.record + k <= eot
    ensures AdvanceN(id, mt, eot, k) == id.(record := id.record + k)
    decreases k
  {
    if k > 0 {
      LastRecord(id, mt, eot, k - 1);
    }
  }

  lemma EndsAt(s: Fdc, value: byte, a: seq<byte>, k: nat)
    requires OnSide(s, a, k)
    ensures NormalResult(a, AdvanceN(StartOf(a), Bit(value, 128), a[5], k)) == EndResult(value, a, k)
  {
    hide Advance, NormalResult;
    LastRecord(StartOf(a), Bit(value, 128), a[5], k - 1);
    EndsAfter(value, a, a[3] + k - 1);
  }

  lemma EndsAfter(value: byte, a: seq<byte>, last: byte)
    requires |a| == 8 && a[1] < 80 && 1 <= last <= 16 && last - a[3] + 1 >= 0
    ensures NormalResult(a, Advance(StartOf(a).(record := last), Bit(value, 128), a[5]))
      == EndResult(value, a, last - a[3] + 1)
  {
    hide SetBit, ClearBit;
    SideBit(a[0]);
  }

  /** Bit 2 of the unit/head byte, once turned over. */
  lemma SideBit(p: byte)
    ensures Bit(SetBit(p, 4), 4) && !Bit(ClearBit(p, 4), 4)
  {
  }

  // ---- READ ----

  /** A READ of `k` sectors of one side returns the first `d` bytes of each, straight from the file. */
  lemma ReadParts(s: Fdc, value: byte, a: seq<byte>, k: nat, d: nat, f: File)
    requires Idle(s) && ReadCommand(value) && s.m.canRead && OnSide(s, a, k) && Transfers(a, d)
    requires s.m.disk[a[0] % 4] == Some(f) && Start(s, a) + (k - 1) * SectorSize(a) < |f|
    ensures var all := Parts(f, Start(s, a), SectorSize(a), d, k);
      && ReadSession(s, value, a, |all|).values == all
      && ReadResult(s, value, a, |all|).values == EndResult(value, a, k)
  {
    hide ReadSession, ReadResult, OnOneSide, AllLoad, Sectors, Parts, Idle, NormalResult, EndResult, AdvanceN;
    TimesIs(k - 1, SectorSize(a));
    SideOfArguments(s, value, a, k);
    SectorsAreParts(JobFor(s, value, a), StartOf(a), k, f, d);
    ReadThroughPorts(s, value, a, k);
    EndsAt(s, value, a, k);
  }

  /**
   * READ of `k` whole sectors (N != 0, or DTL at least a sector): exactly the bytes of the file
   * from the start of the first sector on, as many as the file has of them.
   */
  lemma ReadWhole(s: Fdc, value: byte, a: seq<byte>, k: nat, f: File, n: nat)
    requires Idle(s) && (value % 32 == 0x06 || value % 32 == 0x0C) && s.m.canRead && OnSide(s, a, k)
    requires a[4] != 0 || a[7] >= SectorSize(a)
    requires s.m.disk[a[0] % 4] == Some(f) && Start(s, a) + (k - 1) * SectorSize(a) < |f|
    requires n == Min(k * SectorSize(a), |f| - Start(s, a))
    ensures var t := ReadSession(s, value, a, n);
      && |t.values| == n && (forall x :: 0 <= x < n ==> t.values[x] == f[Start(s, a) + x])
      && ReadResult(s, value, a, n).values == EndResult(value, a, k)
  {
    hide ReadSession, ReadResult, Idle, EndResult, Slice, Parts;
    ReadParts(s, value, a, k, SectorSize(a), f);
    PartsWhole(f, Start(s, a), SectorSize(a), k);
    TimesIs(k, SectorSize(a));
    SliceBytes(f, Start(s, a), k * SectorSize(a));
  }

  lemma SliceBytes(f: File, offset: nat, n: nat)
    requires offset < |f|
    ensures var r := Slice(f, offset, n);
      |r| == Min(n, |f| - offset) && forall x :: 0 <= x < |r| ==> r[x] == f[offset + x]
  {
  }

  /** READ with N = 0 and DTL less than a sector: the first DTL bytes of each sector. */
  lemma ReadShort(s: Fdc, value: byte, a: seq<byte>, k: nat, f: File, x: nat, y: nat)
    requires Idle(s) && (value % 32 == 0x06 || value % 32 == 0x0C) && s.m.canRead && OnSide(s, a, k)
    requires a[4] == 0 && 0 < a[7] < SectorSize(a)
    requires s.m.disk[a[0] % 4] == Some(f) && Start(s, a) + k * SectorSize(a) <= |f|
    requires x < k && y < a[7]
    ensures var t := ReadSession(s, value, a, k * a[7]);
      && |t.values| == k * a[7]
      && ByteAt(t.values, Position(0, a[7], x, y)) == ByteAt(f, Position(Start(s, a), SectorSize(a), x, y))
  {
    hide ReadSession, ReadResult, Idle, EndResult, Parts;
    Piecewise(k, SectorSize(a), x);
    TimesIs(k, a[7]);
    TimesIs(x, a[7]);
    ReadParts(s, value, a, k, a[7], f);
    PartsLength(f, Start(s, a), SectorSize(a), a[7], k);
    PartsAt(f, Start(s, a), SectorSize(a), a[7], k, x, y);
  }

  // ---- WRITE ----

  /** The file of the drive once a WRITE is over. */
  function FileAfter(s: Fdc, value: byte, a: seq<byte>, data: seq<byte>): Option<File>
    requires |a| == 8
  {
    WriteSession(s, value, a, data).s.m.disk[a[0] % 4]
  }

  /** A WRITE of `k` times `d` bytes puts them at the start of each of `k` sectors of one side. */
  lemma WriteParts(s: Fdc, value: byte, a: seq<byte>, k: nat, d: nat, data: seq<byte>)
    requires Idle(s) && WriteCommand(value) && s.m.canWrite && OnSide(s, a, k) && Transfers(a, d)
    requires s.m.disk[a[0] % 4].Some? && |data| == k * d
    ensures FileAfter(s, value, a, data).Some?
    ensures var f := FileAfter(s, value, a, data).value;
      && Start(s, a) + k * SectorSize(a) <= |f|
      && Parts(f, Start(s, a), SectorSize(a), d, k) == data
      && WriteSession(s, value, a, data).values == EndResult(value, a, k)
  {
    hide WriteSession, Idle, NormalResult, EndResult, AdvanceN, WriteAll, Total, Chain, AllTake, Reached, Transfers, Parts;
    var j, id := JobFor(s, value, a), StartOf(a);
    RoomForParts(s, value, a, k, d);
    ChainTakes(j, id, k);
    WritesSomething(k, d, a);
    WriteThroughPorts(s, value, a, data);
    EndsAt(s, value, a, k);
    SectorsReadBack(j, WrittenBy(s), id, k, data);
    var d' := WriteAll(j, WrittenBy(s), id, data).disk;
    FileReaches(j, WrittenBy(s), id, k, data);
    TimesIs(k, SectorSize(a));
    SideOfArguments(s, value, a, k);
    SectorsOfFile(s, value, a, k, d, d', data);
  }

  lemma WritesSomething(k: nat, d: nat, a: seq<byte>)
    requires |a| == 8 && k >= 1 && Transfers(a, d)
    ensures k * d > 0
  {
    TimesIs(k, d);
  }

  /** After the write the file holds all `k` sectors. */
  lemma FileReaches(j: Job, w: Written, id: Idr, k: nat, data: seq<byte>)
    requires Sized(j) && HasDisk(j, w.disk) && k >= 1 && Chain(j, id, k) && OnOneSide(j, id, k)
    requires |data| == Total(j, id, k) && AllTake(j, id, |data|)
    ensures var d := WriteAll(j, w, id, data).disk;
      HasDisk(j, d) && StartAt(id) + Times(k, LengthOf(id)) <= |FileOf(j, d)|
    decreases k
  {
    hide OnOneSide, Takes, Advance, WriteAll, WriteSector, Room, StartAt, LengthOf;
    var first := data[..Room(j, id)];
    SectorStored(j, w, id, first);
    TargetOf(j, id);
    SplitWrite(j, w, id, k, data);
    var w1 := WriteSector(j, w, id, first);
    if k > 1 {
      NextPiece(j, id, k);
      ChainTakes(j, j.After(id), k - 1);
      FileReaches(j, w1, j.After(id), k - 1, data[Room(j, id)..]);
    } else {
      NoRest(j, id, data);
      WriteFrame(j, w1, j.After(id), data[Room(j, id)..], 0);
      assert Times(0, LengthOf(id)) == 0;
    }
  }

  lemma NoRest(j: Job, id: Idr, data: seq<byte>)
    requires Chain(j, id, 1) && |data| == Total(j, id, 1)
    ensures |data| == Room(j, id) && data[Room(j, id)..] == []
  {
    assert Total(j, j.After(id), 0) == 0;
  }

  lemma TargetOf(j: Job, id: Idr)
    requires Takes(j, id)
    ensures Target(j, id) == Region(StartAt(id), LengthOf(id))
  {
  }

  lemma SectorsOfFile(s: Fdc, value: byte, a: seq<byte>, k: nat, d: nat, after: Disk, data: seq<byte>)
    requires OnSide(s, a, k) && Transfers(a, d) && after[a[0] % 4].Some?
    requires Start(s, a) + Times(k, SectorSize(a)) <= |after[a[0] % 4].value|
    requires var j' := Later(JobFor(s, value, a), after); AllLoad(j', StartOf(a), k) && Sectors(j', StartOf(a), k) == data
    ensures Parts(after[a[0] % 4].value, Start(s, a), SectorSize(a), d, k) == data
  {
    hide AllLoad, Sectors, Parts;
    SideOfArguments(s, value, a, k);
    assert Times(k, SectorSize(a)) == SectorSize(a) + Times(k - 1, SectorSize(a));
    SectorsAreParts(Later(JobFor(s, value, a), after), StartOf(a), k, after[a[0] % 4].value, d);
  }

  /** No byte outside the `k` sectors is touched. */
  lemma {:induction false} TouchesInside(j: Job, id: Idr, k: nat, i: nat)
    requires Sized(j) && k >= 1 && Chain(j, id, k) && OnOneSide(j, id, k)
    requires AllTake(j, id, Total(j, id, k)) && Touches(j, id, Total(j, id, k), i)
    ensures StartAt(id) <= i < StartAt(id) + Times(k, LengthOf(id))
    decreases k
  {
    hide OnOneSide, Takes, Advance, Room, StartAt, LengthOf;
    TargetOf(j, id);
    if !Target(j, id).Contains(i) {
      if k > 1 {
        NextPiece(j, id, k);
        ChainTakes(j, j.After(id), k - 1);
        TouchesInside(j, j.After(id), k - 1, i);
      }
    }
  }

  /**
   * WRITE of exactly `k` whole sectors (N != 0, or DTL at least a sector): the file has the data
   * from the start of the first sector on, every other byte as it was, and so has every other drive.
   */
  lemma WriteWhole(s: Fdc, value: byte, a: seq<byte>, k: nat, data: seq<byte>, i: nat)
    requires Idle(s) && (value % 32 == 0x05 || value % 32 == 0x09) && s.m.canWrite && OnSide(s, a, k)
    requires a[4] != 0 || a[7] >= SectorSize(a)
    requires s.m.disk[a[0] % 4].Some? && |data| == k * SectorSize(a)
    ensures FileAfter(s, value, a, data).Some?
    ensures ByteAt(FileAfter(s, value, a, data).value, i) ==
      if Start(s, a) <= i < Start(s, a) + |data| then data[i - Start(s, a)] else ByteAt(s.m.disk[a[0] % 4].value, i)
    ensures var t := WriteSession(s, value, a, data);
      && t.values == EndResult(value, a, k)
      && (forall u :: 0 <= u < UNITS && u != a[0] % 4 ==> t.s.m.disk[u] == s.m.disk[u])
  {
    hide WriteSession, Idle, EndResult, Parts, Chain, Total, Touches, AllTake;
    WriteParts(s, value, a, k, SectorSize(a), data);
    var f := FileAfter(s, value, a, data).value;
    PartsWhole(f, Start(s, a), SectorSize(a), k);
    TimesIs(k, SectorSize(a));
    var j, id := JobFor(s, value, a), StartOf(a);
    RoomForParts(s, value, a, k, SectorSize(a));
    ChainTakes(j, id, k);
    WritesSomething(k, SectorSize(a), a);
    RoundTripFrame(s, value, a, data, i);
    if Touches(j, id, |data|, i) {
      SideOfArguments(s, value, a, k);
      TouchesInside(j, id, k, i);
    }
    if Start(s, a) <= i < Start(s, a) + |data| {
      SliceAt(f, Start(s, a), |data|, i - Start(s, a));
    }
  }

  lemma SliceAt(f: File, offset: nat, n: nat, x: nat)
    requires x < n && offset + n <= |f|
    ensures x < |Slice(f, offset, n)| && Slice(f, offset, n)[x] == f[offset + x] == ByteAt(f, offset + x)
  {
  }

  /** WRITE with N = 0 and DTL less than a sector: DTL bytes of the data at the start of each sector. */
  lemma WriteShort(s: Fdc, value: byte, a: seq<byte>, k: nat, data: seq<byte>, x: nat, y: nat)
    requires Idle(s) && (value % 32 == 0x05 || value % 32 == 0x09) && s.m.canWrite && OnSide(s, a, k)
    requires a[4] == 0 && 0 < a[7] < SectorSize(a)
    requires s.m.disk[a[0] % 4].Some? && |data| == k * a[7] && x < k && y < a[7]
    ensures FileAfter(s, value, a, data).Some?
    ensures ByteAt(FileAfter(s, value, a, data).value, Position(Start(s, a), SectorSize(a), x, y))
      == ByteAt(data, Position(0, a[7], x, y))
  {
    hide WriteSession, Idle, EndResult, Parts;
    Piecewise(k, SectorSize(a), x);
    TimesIs(k, a[7]);
    TimesIs(x, a[7]);
    WriteParts(s, value, a, k, a[7], data);
    PartsAt(FileAfter(s, value, a, data).value, Start(s, a), SectorSize(a), a[7], k, x, y);
  }

  /** The round trip in these terms: `k` sectors of one side, `d` bytes of each. */
  lemma RoundTripOnOneSide(s: Fdc, write: byte, read: byte, a: seq<byte>, k: nat, d: nat, data: seq<byte>)
    requires Idle(s) && s.m.canRead && s.m.canWrite && WriteCommand(write) && ReadCommand(read)
    requires Bit(write, 128) == Bit(read, 128) && OnSide(s, a, k) && Transfers(a, d)
    requires s.m.disk[a[0] % 4].Some? && |data| == k * d
    ensures var written := WriteSession(s, write, a, data);
      && ReadSession(written.s, read, a, |data|).values == data
      && written.values == EndResult(write, a, k)
      && ReadResult(written.s, read, a, |data|).values == written.values
  {
    hide WriteSession, ReadSession, ReadResult, Chain, Total, AdvanceN, NormalResult, EndResult, Idle, Transfers;
    RoomForParts(s, write, a, k, d);
    SideOfArguments(s, write, a, k);
    RoundTrip(s, write, read, a, k, data);
    EndsAt(s, write, a, k);
  }

  // ---- Both sides ----

  lemma {:induction false} SectorsAppend(j: Job, id: Idr, n: nat, m: nat)
    requires AllLoad(j, id, n) && AllLoad(j, AdvanceN(id, j.mt, j.args[5], n), m)
    ensures AllLoad(j, id, n + m)
    ensures Sectors(j, id, n + m) == Sectors(j, id, n) + Sectors(j, AdvanceN(id, j.mt, j.args[5], n), m)
    decreases n
  {
    hide Loads, Payload, Advance;
    if n > 0 {
      AdvanceNFirst(id, j.mt, j.args[5], n);
      SectorsAppend(j, j.After(id), n - 1, m);
    }
  }

  /** The arguments address side 0 of a track, and their `n` sectors end at EOT. */
  predicate EndsSide(s: Fdc, a: seq<byte>, n: nat) {
    OnSide(s, a, n) && !Bit(a[0], 4) && a[3] + n - 1 >= a[5]
  }

  /** The first `m` sectors of side 1. */
  predicate OtherSideHolds(a: seq<byte>, m: nat)
    requires |a| == 8
  {
    1 <= m <= 5 && (m == 1 || m <= a[5])
  }

  /**
   * READ with the MT bit goes on behind EOT of side 0 with sector 1 of side 1: the first `d` bytes
   * of each sector of side 0, and then the first `e` bytes of each of side 1, whose sectors have 1024.
   */
  lemma ReadBothSides(s: Fdc, value: byte, a: seq<byte>, n: nat, m: nat, d: nat, e: nat, f: File)
    requires Idle(s) && ReadCommand(value) && value >= 128 && s.m.canRead
    requires EndsSide(s, a, n) && OtherSideHolds(a, m) && Transfers(a, d)
    requires e > 0 && e == if a[4] != 0 then 1024 else a[7]
    requires s.m.disk[a[0] % 4] == Some(f) && Offset(a[1], true, 0) + (m - 1) * 1024 < |f|
    ensures var all := Parts(f, Start(s, a), SectorSize(a), d, n) + Parts(f, Offset(a[1], true, 0), 1024, e, m);
      ReadSession(s, value, a, |all|).values == all
  {
    hide ReadSession, Parts, Idle, AllLoad, Sectors, Takes, NormalResult, AdvanceN, Advance, EndResult, ReadResult, Moves;
    var j, id := JobFor(s, value, a), StartOf(a);
    TimesIs(m - 1, 1024);
    TimesIs(n - 1, SectorSize(a));
    Contiguous(s, a, n);
    FirstSide(s, value, a, n, d, f);
    SecondSide(s, value, a, m, e, f);
    TurnsAt(s, value, a, n);
    SectorsAppend(j, id, n, m);
    ReadThroughPorts(s, value, a, n + m);
  }

  /** Side 1 lies behind all sectors of side 0. */
  lemma Contiguous(s: Fdc, a: seq<byte>, n: nat)
    requires OnSide(s, a, n) && !Bit(a[0], 4)
    ensures Start(s, a) + (n - 1) * SectorSize(a) < Offset(a[1], true, 0)
  {
  }

  lemma FirstSide(s: Fdc, value: byte, a: seq<byte>, n: nat, d: nat, f: File)
    requires s.m.canRead && OnSide(s, a, n) && Transfers(a, d) && s.m.disk[a[0] % 4] == Some(f)
    requires Start(s, a) + (n - 1) * SectorSize(a) < |f|
    ensures var j := JobFor(s, value, a);
      AllLoad(j, StartOf(a), n) && Sectors(j, StartOf(a), n) == Parts(f, Start(s, a), SectorSize(a), d, n)
  {
    hide OnOneSide, AllLoad, Sectors, Parts;
    SideOfArguments(s, value, a, n);
    TimesIs(n - 1, SectorSize(a));
    SectorsAreParts(JobFor(s, value, a), StartOf(a), n, f, d);
  }

  lemma SecondSide(s: Fdc, value: byte, a: seq<byte>, m: nat, e: nat, f: File)
    requires s.m.canRead && OnSide(s, a, 1) && !Bit(a[0], 4) && OtherSideHolds(a, m)
    requires e > 0 && e == (if a[4] != 0 then 1024 else a[7]) && s.m.disk[a[0] % 4] == Some(f)
    requires Offset(a[1], true, 0) + (m - 1) * 1024 < |f|
    ensures var j, id := JobFor(s, value, a), OtherSide(StartOf(a));
      AllLoad(j, id, m) && Sectors(j, id, m) == Parts(f, Offset(a[1], true, 0), 1024, e, m)
  {
    hide AllLoad, Sectors, Parts;
    SideBit(a[0]);
    TimesIs(m - 1, 1024);
    SectorsAreParts(JobFor(s, value, a), OtherSide(StartOf(a)), m, f, e);
  }

  lemma TurnsAt(s: Fdc, value: byte, a: seq<byte>, n: nat)
    requires EndsSide(s, a, n) && value >= 128
    ensures AdvanceN(StartOf(a), true, a[5], n) == OtherSide(StartOf(a)) && Bit(value, 128)
  {
    hide Advance, SetBit;
    LastRecord(StartOf(a), true, a[5], n - 1);
    TurnsFrom(StartOf(a).(record := a[3] + n - 1), a[5]);
  }

  lemma TurnsFrom(id: Idr, eot: byte)
    requires !id.Side() && eot <= id.record < 255
    ensures Advance(id, true, eot) == OtherSide(id)
  {
    SideBit(id.phyHead);
  }
}
