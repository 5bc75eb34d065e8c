/** FORMAT TRACK: the listed sectors receive the filler byte, and nothing else changes. */
module FdcFormat {
  import opened Bytes
  import opened Floppy
  import opened FdcModel
  import opened FdcProtocol
  import opened FdcReadStream
  import opened FdcRoundTrip

  /**
   * The ID fields of FORMAT, four bytes each: cylinder, head, record (counted from 1) and a size
   * code that is ignored; and the track and side they are for.
   */
  datatype IdFields = IdFields(bytes: ExecBytes, track: byte, side: bool) {
    /** The `f`-th field names a sector of this track and side. */
    predicate Names(f: nat) {
      && f < 256
      && bytes[4 * f] == track < TRACKS
      && (bytes[4 * f + 1] != 0) == side
      && 1 <= bytes[4 * f + 2] <= SectorsOf(track, side)
    }

    predicate NamesSector(f: nat, sec: nat) {
      Names(f) && bytes[4 * f + 2] == sec + 1
    }

    /** Byte `i` of the image lies in the sector named by the `f`-th field. */
    predicate Covers(f: nat, i: nat) {
      Names(f) && RegionOf(track, side, bytes[4 * f + 2] - 1).Contains(i)
    }

    /** Byte `i` lies in a sector named by one of the first `n` fields. */
    predicate Listed(n: nat, i: nat) {
      exists f :: 0 <= f < n && Covers(f, i)
    }

    predicate AllNamed(n: nat) {
      forall f :: 0 <= f < n ==> Names(f)
    }

    predicate HasSector(n: nat, sec: nat) {
      exists f :: 0 <= f < n && NamesSector(f, sec)
    }

    /** The first `n` fields name every sector of the side. */
    predicate WholeSide(n: nat) {
      forall sec: nat :: sec < SectorsOf(track, side) ==> HasSector(n, sec)
    }
  }

  /** The fields as the controller finds them in its buffer. */
  function FieldsOf(s: Fdc): IdFields {
    IdFields(s.x.exec, s.track[s.Drive()], Bit(s.args[0], 4))
  }

  /** The fields of a FORMAT that is sent `ids`: behind them, whatever the buffer held. */
  function SentFields(s: Fdc, a: seq<byte>, ids: seq<byte>): IdFields
    requires |a| == 5 && |ids| <= 1024
  {
    IdFields(ids + s.x.exec[|ids|..], s.track[a[0] % 4], Bit(a[0], 4))
  }

  /** The disk is asked for the sector that the field names, and refuses if there is none. */
  lemma FieldLayout(s: Fdc, f: nat)
    requires f < 256
    ensures var q, g := FieldRequest(s, f), FieldsOf(s);
      && q.drive == s.Drive()
      && (Locate(q).Some? <==> g.Names(f))
      && (g.Names(f) ==> Locate(q) == Some(RegionOf(g.track, g.side, g.bytes[4 * f + 2] - 1)))
  {
  }

  function UnitFile(s: Fdc): File
    requires s.m.disk[s.Drive()].Some?
  {
    s.m.disk[s.Drive()].value
  }

  /** `t` is `s` except for the disk of the drive and, after an error, the status bits. */
  predicate OnlyFills(s: Fdc, t: Fdc, failed: bool) {
    && t == s.(m := t.m, x := t.x)
    && t.x == (if failed then Rejected(s.x) else s.x)
    && t.m == s.m.(disk := t.m.disk)
    && (forall u :: 0 <= u < UNITS && u != s.Drive() ==> t.m.disk[u] == s.m.disk[u])
    && s.m.disk[s.Drive()].Some? && t.m.disk[s.Drive()].Some?
  }

  /** One field of FORMAT, after some fields have been done. */
  lemma OneField(s: Fdc, t: Fdc, f: nat, failed: bool, i: nat)
    requires !s.fault && s.m.canWrite && f < 256 && OnlyFills(s, t, failed)
    ensures var t' := FormatField(t, f);
      && OnlyFills(s, t', failed || !FieldsOf(s).Names(f))
      && ByteAt(UnitFile(t'), i) == (if FieldsOf(s).Covers(f, i) then s.Filler() else ByteAt(UnitFile(t), i))
      && (|UnitFile(t)| >= IMAGE_SIZE ==> |UnitFile(t')| == |UnitFile(t)|)
  {
    assert FieldRequest(t, f) == FieldRequest(s, f);
    RejectTwice(s.x);
    FieldLayout(s, f);
    if FieldsOf(s).Names(f) {
      InImage(FieldRequest(s, f));
      var r := Locate(FieldRequest(s, f)).value;
      OverwriteBytes(UnitFile(t), r.offset, Fill(r.len, s.Filler()), i);
    }
  }

  lemma InImage(q: Request)
    requires Locate(q).Some?
    ensures Locate(q).value.offset + Locate(q).value.len <= IMAGE_SIZE
  {
    RegionInImage(q.track, q.head, q.sector);
  }

  lemma RejectTwice(x: Xfer)
    ensures Rejected(Rejected(x)) == Rejected(x)
  {
  }

  /** The effect of the fields on every byte of the image, and on the status registers. */
  lemma {:induction false} FieldsFill(s: Fdc, n: nat, i: nat)
    requires !s.fault && s.m.canWrite && s.m.disk[s.Drive()].Some? && n <= 256
    ensures var t := FormatFields(s, n);
      && OnlyFills(s, t, !FieldsOf(s).AllNamed(n))
      && ByteAt(UnitFile(t), i) == (if FieldsOf(s).Listed(n, i) then s.Filler() else ByteAt(UnitFile(s), i))
      && (|UnitFile(s)| >= IMAGE_SIZE ==> |UnitFile(t)| == |UnitFile(s)|)
  {
    hide FormatField, IdFields.Names, IdFields.Covers, Rejected;
    var g := FieldsOf(s);
    if n > 0 {
      FieldsFill(s, n - 1, i);
      OneField(s, FormatFields(s, n - 1), n - 1, !g.AllNamed(n - 1), i);
      assert g.Listed(n, i) <==> g.Listed(n - 1, i) || g.Covers(n - 1, i);
      assert g.AllNamed(n) <==> g.AllNamed(n - 1) && g.Names(n - 1);
    }
  }

  // ---- Through the ports ----

  /** FORMAT TRACK collecting ID bytes; `n` have arrived. */
  predicate Collecting(s: Fdc, n: nat) {
    Executing(s) && s.Runs(FormatTrack) && !s.c.dio && s.x.rwcount == n <= 1024
  }

  function WithBytes(s: Fdc, data: seq<byte>): Fdc
    requires |data| <= 1024
  {
    s.(x := s.x.(exec := data + s.x.exec[|data|..], rwcount := |data|, irq := s.x.irq && data == []))
  }

  lemma CollectOne(s: Fdc, value: byte)
    requires Collecting(s, s.x.rwcount) && s.x.rwcount < 1024
    ensures Out(s, value) ==
      s.(x := s.x.(exec := s.x.exec[s.x.rwcount := value], rwcount := s.x.rwcount + 1, irq := false))
  {
    ExecutionGoesOn(ExecFormat(Calm(s), value));
  }

  /** The ID bytes land at the front of the sector buffer; nothing else happens until terminal count. */
  lemma {:induction false} CollectAll(s: Fdc, data: seq<byte>, n: nat)
    requires Collecting(s, 0) && n <= |data| <= 1024
    ensures Outs(s, data[..n]) == WithBytes(s, data[..n])
  {
    hide Out;
    if n == 0 {
      assert [] + s.x.exec[0..] == s.x.exec;
    } else {
      CollectAll(s, data, n - 1);
      var t := WithBytes(s, data[..n - 1]);
      assert data[..n] == data[..n - 1] + [data[n - 1]];
      OutsConcat(s, data[..n - 1], [data[n - 1]]);
      assert Outs(t, [data[n - 1]]) == Outs(Out(t, data[n - 1]), []);
      CollectOne(t, data[n - 1]);
      assert t.x.exec[n - 1 := data[n - 1]] == data[..n] + s.x.exec[n..];
    }
  }

  lemma {:induction false} FaultKeeps(s: Fdc, data: seq<byte>)
    requires s.fault
    ensures Outs(s, data) == s
    decreases |data|
  {
    if data != [] {
      FaultKeeps(s, data[1..]);
    }
  }

  /** There is room for 1024 ID bytes; the next one ends the emulator. */
  lemma CollectTooMany(s: Fdc, data: seq<byte>)
    requires Collecting(s, 0)
    ensures Outs(s, data).fault <==> |data| > 1024
  {
    hide Out, ExecFormat;
    if |data| <= 1024 {
      CollectAll(s, data, |data|);
      assert data[..|data|] == data;
    } else {
      var first, rest := data[..1024], data[1024..];
      assert data == first + rest && first[..1024] == first;
      CollectAll(s, first, 1024);
      OutsConcat(s, first, rest);
      NoRoom(WithBytes(s, first), rest[0]);
      FaultKeeps(Out(WithBytes(s, first), rest[0]), rest[1..]);
    }
  }

  lemma NoRoom(s: Fdc, value: byte)
    requires Collecting(s, 1024)
    ensures Out(s, value).fault
  {
  }

  predicate FormatCommand(value: byte) {
    value % 32 == 0x0D
  }

  /** The state in which FORMAT waits for its ID fields. */
  function Formatting(s: Fdc, mt: bool, a: seq<byte>): Fdc
    requires |a| == 5
  {
    s.(c := Control(Exec, Some(FormatTrack), mt, false, true, true), args := a + s.args[5..],
       x := s.x.(irq := true, rwcount := 0, rwmax := 4 * (a[2] as nat), st0 := a[0], st1 := 0, st2 := 0))
  }

  /** The head is on an existing track of an inserted disk. */
  predicate Formattable(s: Fdc, a: seq<byte>)
    requires |a| == 5
  {
    s.m.canWrite && s.m.disk[a[0] % 4].Some? && s.track[a[0] % 4] < TRACKS
  }

  /** Idle, apart from a terminal count that may be left over. */
  predicate Parked(s: Fdc) {
    Idle(s.(x := s.x.(tc := false)))
  }

  /** FORMAT at the start of its execution phase, whatever the terminal count. */
  lemma FormatBegins(s: Fdc, mt: bool, a: seq<byte>)
    requires !s.fault && |a| == 5 && Formattable(s, a)
    ensures EnterExec(Ready(s, FormatTrack, mt, a), FormatTrack) == Unmarked(Formatting(s, mt, a))
  {
    hide SetBit;
    var r := Ready(s, FormatTrack, mt, a);
    var e := r.(c := r.c.(phase := Exec));
    assert Ask(e.m.disk, FormatRequest(e, Bit(a[0], 4), e.track[e.Drive()], 0)).At?;
    assert PreFormat(e) == Formatting(s, mt, a).(c := e.c);
  }

  /** The execution bit of the status register is set at the end of the access. */
  function Unmarked(s: Fdc): Fdc {
    s.(c := s.c.(exm := false))
  }

  lemma StartFormat(s: Fdc, value: byte, a: seq<byte>)
    requires Idle(s) && FormatCommand(value) && |a| == 5 && Formattable(s, a)
    ensures Outs(s, [value] + a) == Formatting(s, Bit(value, 128), a)
  {
    hide Out, Ready, EnterExec;
    Issue(s, value, FormatTrack, a);
    FormatBegins(s, Bit(value, 128), a);
  }

  /**
   * ID bytes are stored without a bound: FORMAT ends the emulator exactly if it is sent more than
   * 1024 of them, however many sectors it was to format.
   */
  lemma FormatOverflow(s: Fdc, value: byte, a: seq<byte>, ids: seq<byte>)
    requires Idle(s) && FormatCommand(value) && |a| == 5 && Formattable(s, a)
    ensures Outs(s, [value] + a + ids).fault <==> |ids| > 1024
  {
    hide Out, Outs, Formatting, Formattable, Idle, Collecting;
    StartFormat(s, value, a);
    OutsConcat(s, [value] + a, ids);
    IdleIsQuiet(s);
    FormattingCollects(s, Bit(value, 128), a);
    CollectTooMany(Formatting(s, Bit(value, 128), a), ids);
  }

  lemma FormattingCollects(s: Fdc, mt: bool, a: seq<byte>)
    requires !s.fault && !s.x.tc && |a| == 5
    ensures Collecting(Formatting(s, mt, a), 0)
  {
  }

  lemma IdleIsQuiet(s: Fdc)
    requires Idle(s)
    ensures !s.fault && !s.x.tc
  {
  }

  /** FORMAT through the ports: command, arguments, ID bytes, terminal count. */
  function FormatSession(s: Fdc, value: byte, a: seq<byte>, ids: seq<byte>): Fdc {
    Terminate(Outs(Outs(s, [value] + a), ids))
  }

  /** The result of a FORMAT that failed. */
  function FormatError(a: seq<byte>): ResultBytes
    requires |a| == 5
  {
    [SetBit(a[0], 64), 32, 32, 0, 0, 0, 0]
  }

  /** The formatting loop, when terminal count has arrived. */
  lemma LeaveFormat(s: Fdc)
    requires !s.fault && s.Is(Exec) && s.Runs(FormatTrack) && s.x.tc && s.m.canWrite && s.m.disk[s.Drive()].Some?
    ensures var t := Leave(s, FormatTrack);
      var f := FormatFields(Walking(s), s.Spt());
      && Reporting(t, [f.x.st0, f.x.st1, f.x.st2, 0, 0, 0, 0])
      && t.m == f.m && t.track == f.track && t.busy == f.busy && t.x.tc == f.x.tc && t.x.exec == f.x.exec
  {
    hide FormatFields;
    FieldsFill(Walking(s), s.Spt(), 0);
    assert EnterResult(s, FormatTrack) ==
      (var p := PostFormat(Walking(s));
       if p.fault then p else p.(c := p.c.(phase := Result), x := p.x.(rwmax := 7, rwcount := 0)));
  }

  /** The controller when the formatting loop begins. */
  function Walking(s: Fdc): Fdc {
    s.(c := s.c.(dio := true), x := s.x.(tc := false))
  }

  /**
   * What FORMAT with the arguments `a` has done to byte `i`, to the other drives and to the
   * controller, if `g` are the ID fields: every byte of every sector that a field names becomes
   * the filler, every other byte stays. Error bits are reported exactly when some field names no
   * sector of this track and side, and exactly then a terminal count stays pending.
   */
  predicate HasFormatted(s: Fdc, a: seq<byte>, g: IdFields, t: Fdc, i: nat)
    requires |a| == 5 && s.m.disk[a[0] % 4].Some?
  {
    && Reporting(t, if g.AllNamed(a[2]) then [a[0], 0, 0, 0, 0, 0, 0] else FormatError(a))
    && (t.x.tc <==> !g.AllNamed(a[2]))
    && t.busy == {} && t.track == s.track && t.x.exec == g.bytes
    && t.m == s.m.(disk := t.m.disk) && t.m.disk[a[0] % 4].Some?
    && (forall u :: 0 <= u < UNITS && u != a[0] % 4 ==> t.m.disk[u] == s.m.disk[u])
    && var f, f' := s.m.disk[a[0] % 4].value, t.m.disk[a[0] % 4].value;
       && (|f| >= IMAGE_SIZE ==> |f'| == |f|)
       && ByteAt(f', i) == if g.Listed(a[2], i) then a[4] else ByteAt(f, i)
  }

  /** `g` is about to format for the arguments `a`, and everything it can change is as in `s`. */
  predicate AboutTo(s: Fdc, a: seq<byte>, g: Fdc) {
    && |a| == 5 && g.args == a + g.args[5..] && g.m == s.m && g.track == s.track && g.busy == s.busy == {}
    && !g.fault && g.Is(Exec) && g.Runs(FormatTrack) && g.x.st0 == a[0] && g.x.st1 == g.x.st2 == 0
    && g.m.canWrite && g.m.disk[a[0] % 4].Some?
  }

  lemma LoopFormats(s: Fdc, a: seq<byte>, g: Fdc, i: nat)
    requires AboutTo(s, a, g) && g.x.tc
    ensures HasFormatted(s, a, FieldsOf(g), Leave(g, FormatTrack), i)
  {
    hide Leave, FormatFields, IdFields.Listed, IdFields.AllNamed;
    assert g.args[0] == a[0] && g.args[2] == a[2] && g.args[4] == a[4];
    LeaveFormat(g);
    FieldsFill(Walking(g), a[2], i);
    StatusZero();
  }

  lemma StatusZero()
    ensures SetBit(0, 32) == 32 && SetBit(32, 32) == 32
    ensures forall b: byte :: SetBit(SetBit(b, 64), 64) == SetBit(b, 64)
  {
  }

  lemma TerminateLeaves(s: Fdc, op: Op)
    requires !s.fault && s.Is(Exec) && s.c.op == Some(op)
    ensures Terminate(s) == Leave(s.(x := s.x.(tc := true)), op)
  {
  }

  /**
   * FORMAT TRACK on an existing track formats the sectors named by the ID bytes sent, and by
   * whatever the buffer held behind them if they are too few.
   */
  lemma FormatEffect(s: Fdc, value: byte, a: seq<byte>, ids: seq<byte>, i: nat)
    requires Idle(s) && FormatCommand(value) && |a| == 5 && Formattable(s, a) && |ids| <= 1024
    ensures HasFormatted(s, a, SentFields(s, a, ids), FormatSession(s, value, a, ids), i)
  {
    hide Out, Leave, HasFormatted, Terminate;
    StartFormat(s, value, a);
    var f := Formatting(s, Bit(value, 128), a);
    assert ids[..|ids|] == ids;
    CollectAll(f, ids, |ids|);
    var g := WithBytes(f, ids);
    TerminateLeaves(g, FormatTrack);
    LoopFormats(s, a, g.(x := g.x.(tc := true)), i);
    assert FieldsOf(g) == SentFields(s, a, ids);
  }

  /**
   * A FORMAT issued while a terminal count is left over ends at its last argument. It formats all
   * the same: the sectors named by the ID bytes that happen to be in the buffer.
   */
  lemma StaleFormat(s: Fdc, value: byte, a: seq<byte>, i: nat)
    requires Parked(s) && s.x.tc && FormatCommand(value) && |a| == 5 && Formattable(s, a)
    ensures HasFormatted(s, a, SentFields(s, a, []), Outs(s, [value] + a), i)
    ensures SentFields(s, a, []).bytes == s.x.exec
  {
    hide Out, Leave, HasFormatted, EnterExec, Ready;
    Issue(s, value, FormatTrack, a);
    FormatBegins(s, Bit(value, 128), a);
    var g := Unmarked(Formatting(s, Bit(value, 128), a));
    LoopFormats(s, a, g, i);
    assert FieldsOf(g) == SentFields(s, a, []);
  }

  /** If the ID fields name all sectors of the side, in any order, every byte of it is filler. */
  lemma FormatWholeSide(s: Fdc, value: byte, a: seq<byte>, ids: seq<byte>, sec: nat, i: nat)
    requires Idle(s) && FormatCommand(value) && |a| == 5 && Formattable(s, a) && |ids| <= 1024
    requires SentFields(s, a, ids).WholeSide(a[2])
    requires var track, side := s.track[a[0] % 4], Bit(a[0], 4);
      sec < SectorsOf(track, side) && RegionOf(track, side, sec).Contains(i)
    ensures var t := FormatSession(s, value, a, ids);
      t.m.disk[a[0] % 4].Some? && ByteAt(t.m.disk[a[0] % 4].value, i) == a[4]
  {
    hide FormatSession, RegionOf;
    FormatEffect(s, value, a, ids, i);
    var g := SentFields(s, a, ids);
    assert g.HasSector(a[2], sec);
    var f :| 0 <= f < a[2] as nat && g.NamesSector(f, sec);
    assert g.Covers(f, i);
  }

  lemma {:induction false} NothingNamed(s: Fdc, n: nat)
    requires !s.fault && s.m.canWrite && n <= 256
    requires forall f :: 0 <= f < n ==> !Ask(s.m.disk, FieldRequest(s, f)).At?
    ensures FormatFields(s, n) == if n == 0 then s else s.(x := Rejected(s.x))
  {
    hide Ask, SetBit;
    if n > 0 {
      NothingNamed(s, n - 1);
      assert FieldRequest(FormatFields(s, n - 1), n - 1) == FieldRequest(s, n - 1);
      assert !Ask(s.m.disk, FieldRequest(s, n - 1)).At?;
      RejectTwice(s.x);
    }
  }

  /** FORMAT at the start of its execution phase, refused by the disk. */
  function Refused(s: Fdc, mt: bool, a: seq<byte>): Fdc
    requires |a| == 5
  {
    s.(c := Control(Exec, Some(FormatTrack), mt, false, false, true), args := a + s.args[5..],
       x := s.x.(tc := true, irq := true, rwcount := 0, rwmax := 4 * (a[2] as nat),
                 st0 := SetBit(a[0], 64), st1 := 32, st2 := 32))
  }

  predicate NoTrack(s: Fdc, a: seq<byte>)
    requires |a| == 5
  {
    s.m.canWrite && (s.m.disk[a[0] % 4].None? || s.track[a[0] % 4] >= TRACKS)
  }

  lemma RefusedAtStart(s: Fdc, mt: bool, a: seq<byte>)
    requires !s.fault && |a| == 5 && NoTrack(s, a)
    ensures EnterExec(Ready(s, FormatTrack, mt, a), FormatTrack) == Refused(s, mt, a)
  {
    hide SetBit;
    var r := Ready(s, FormatTrack, mt, a);
    var e := r.(c := r.c.(phase := Exec));
    assert !Ask(e.m.disk, FormatRequest(e, Bit(a[0], 4), e.track[e.Drive()], 0)).At?;
    StatusZero();
  }

  lemma RefusedAtEnd(s: Fdc, mt: bool, a: seq<byte>)
    requires !s.fault && |a| == 5 && NoTrack(s, a)
    ensures var t := Leave(Refused(s, mt, a), FormatTrack);
      && Reporting(t, FormatError(a)) && t.x.irq && (t.x.tc <==> a[2] > 0)
      && t.m == s.m && t.busy == s.busy && t.track == s.track
  {
    hide SetBit, Ask;
    StatusZero();
    var p := Refused(s, mt, a);
    var g := p.(c := p.c.(dio := true), x := p.x.(tc := false));
    forall f | 0 <= f < a[2] as nat ensures !Ask(g.m.disk, FieldRequest(g, f)).At? {
      NeverNamed(g, FieldRequest(g, f));
    }
    NothingNamed(g, a[2]);
  }

  lemma NeverNamed(g: Fdc, q: Request)
    requires q.drive == g.Drive() && q.phyTrack == g.track[g.Drive()]
    requires g.m.disk[g.Drive()].None? || g.track[g.Drive()] >= TRACKS
    ensures !Ask(g.m.disk, q).At?
  {
  }

  /**
   * FORMAT without a disk in the drive, or beyond the last track, is refused at its last argument:
   * it changes no byte of any disk, although it walks through whatever is left in the buffer, and
   * leaves the terminal count pending if it was to format any sector.
   */
  lemma FormatRefused(s: Fdc, value: byte, a: seq<byte>)
    requires Parked(s) && FormatCommand(value) && |a| == 5 && NoTrack(s, a)
    ensures var t := Outs(s, [value] + a);
      && Reporting(t, FormatError(a)) && t.x.irq && (t.x.tc <==> a[2] > 0)
      && t.m == s.m && t.busy == {} && t.track == s.track
  {
    hide Out, Leave, EnterExec, Ready, Refused, NoTrack;
    Issue(s, value, FormatTrack, a);
    RefusedAtStart(s, Bit(value, 128), a);
    RefusedAtEnd(s, Bit(value, 128), a);
  }

  /**
   * FORMAT while no image has ever been loaded, or after one was taken out: it waits without a
   * word, and terminal count then ends the emulator if it was to format any sector.
   */
  lemma FormatUnheard(s: Fdc, value: byte, a: seq<byte>)
    requires Idle(s) && FormatCommand(value) && |a| == 5 && !s.m.canWrite
    ensures var t := Outs(s, [value] + a);
      && t.Is(Exec) && !t.fault && !t.x.irq && t.m == s.m
      && (Terminate(t).fault <==> a[2] > 0)
  {
    hide Out, FormatFields;
    Issue(s, value, FormatTrack, a);
    var r := Ready(s, FormatTrack, Bit(value, 128), a);
    var t := EnterExec(r, FormatTrack);
    assert t.args[2] == a[2] && t.x.irq == r.x.irq;
    ExecutionGoesOn(t.(c := t.c.(exm := true)));
    var u := Leave(t, FormatTrack);
    FirstFieldFails(Walking(u), a[2]);
  }

  lemma {:induction false} FirstFieldFails(s: Fdc, n: nat)
    requires !s.fault && !s.m.canWrite && n <= 256
    ensures FormatFields(s, n).fault <==> n > 0
    decreases n
  {
    if n > 1 {
      FirstFieldFails(s, n - 1);
    }
  }

  // ---- The next transfer ----

  /** The arguments as the operation uses them. */
  function Effective(op: Op, a: seq<byte>): seq<byte>
    requires |a| == 8
  {
    if op.ReadTrack? then a[3 := 1] else a
  }

  /**
   * The result of a transfer that is stopped as it starts: if the first sector was accepted, the
   * next one is reported although no byte of the first was transferred.
   */
  function StoppedResult(op: Op, j: Job, id: Idr): ResultBytes {
    match if op.IsRead() then FindForRead(id, j.args, j.track, j.m) else FindForWrite(id, j.args, j.track, j.m)
    case Accept(_, _) => NormalResult(j.args, j.After(id))
    case Reject => ErrorResult(j.args, id)
    case Stall | Zero => NormalResult(j.args, id)
  }

  /** The transfer at the start of its execution phase, its first sector looked for. */
  function Begun(s: Fdc, mt: bool, op: Op, a: seq<byte>): Fdc
    requires |a| == op.ArgsLen() == 8
  {
    var r := Ready(s, op, mt, a);
    var e := StartId(r.(args := Effective(op, a), c := r.c.(phase := Exec)), op.IsRead());
    var t := Attempt(e, if op.IsRead() then ReadOutcome(e) else WriteOutcome(e));
    t.(x := t.x.(rwcount := 0))
  }

  lemma TransferBegins(s: Fdc, mt: bool, op: Op, a: seq<byte>)
    requires !s.fault && |a| == op.ArgsLen() == 8 && (op.ReadTrack? || a[3] != 0)
    ensures EnterExec(Ready(s, op, mt, a), op) == Begun(s, mt, op, a) && !Begun(s, mt, op, a).fault
  {
    hide Settle, FindForRead, FindForWrite;
    var r := Ready(s, op, mt, a);
    assert r.args == a;
    var id := StartOf(Effective(op, a));
    RealRecord(id, Effective(op, a), s.track, s.m);
  }

  /** With a terminal count pending. */
  lemma BegunResult(s: Fdc, mt: bool, op: Op, a: seq<byte>)
    requires !s.fault && s.x.tc && |a| == op.ArgsLen() == 8 && (op.ReadTrack? || a[3] != 0)
    ensures var u, a' := Begun(s, mt, op, a), Effective(op, a);
      && u.Is(Exec) && u.x.tc && u.c.op == Some(op) && u.m == s.m && u.busy == s.busy && u.args[4] == a[4]
      && TransferResult(u.x.(tc := false), a[4]) == StoppedResult(op, Job(mt, a', s.track, s.m), StartOf(a'))
  {
    hide Settle, FindForRead, FindForWrite, StoppedResult, TransferResult;
    var r := Ready(s, op, mt, a);
    var a' := Effective(op, a);
    var e := StartId(r.(args := a', c := r.c.(phase := Exec)), op.IsRead());
    var o := if op.IsRead() then ReadOutcome(e) else WriteOutcome(e);
    SettleKeepsTc(e.x, a', mt, o);
    SettledResult(e.x, op, Job(mt, a', s.track, s.m), StartOf(a'));
  }

  /** A pending terminal count ends the execution phase of a transfer before its first byte. */
  lemma PendingTerminalCount(s: Fdc, value: byte, op: Op, a: seq<byte>)
    requires Parked(s) && s.x.tc
    requires Commands(value, op) && (op.IsRead() || op.IsWrite()) && |a| == 8
    requires op.ReadTrack? || a[3] != 0
    ensures var t, a' := Outs(s, [value] + a), Effective(op, a);
      Reports(t, StoppedResult(op, JobFor(s, value, a'), StartOf(a'))) && t.m == s.m && t.busy == {}
  {
    hide Out, Begun, Leave, StoppedResult, TransferResult, Ready, EnterExec, Effective, Reports;
    Issue(s, value, op, a);
    TransferBegins(s, Bit(value, 128), op, a);
    BegunResult(s, Bit(value, 128), op, a);
    TerminalCountEnds(Begun(s, Bit(value, 128), op, a), op);
  }

  lemma RealRecord(id: Idr, args: ArgBytes, track: Tracks, m: Media)
    requires id.record != 0
    ensures !FindForRead(id, args, track, m).Zero? && !FindForWrite(id, args, track, m).Zero?
  {
  }

  lemma SettleKeepsTc(x: Xfer, args: ArgBytes, mt: bool, o: Outcome)
    requires x.tc && (o.Accept? ==> |o.data| <= 1024)
    ensures Settle(x, args, mt, o).tc
  {
  }

  /** What the registers report after the first sector has been looked for. */
  lemma SettledResult(x: Xfer, op: Op, j: Job, id: Idr)
    requires (op.IsRead() || op.IsWrite()) && x.idr == x.next == id && id.record != 0
    ensures var o := if op.IsRead() then FindForRead(id, j.args, j.track, j.m) else FindForWrite(id, j.args, j.track, j.m);
      TransferResult(Settle(x, j.args, j.mt, o).(rwcount := 0, tc := false), j.args[4]) == StoppedResult(op, j, id)
  {
    hide FindForRead, FindForWrite, Advance;
    RealRecord(id, j.args, j.track, j.m);
    StatusBits(j.args[0] % 4);
  }

  lemma TerminalCountEnds(s: Fdc, op: Op)
    requires !s.fault && s.Is(Exec) && s.x.tc && s.c.op == Some(op) && (op.IsRead() || op.IsWrite())
    ensures var t := Leave(s, op);
      Reports(t, TransferResult(s.x.(tc := false), s.args[4])) && t.m == s.m && t.busy == s.busy
  {
    hide TransferResult;
  }

  /** The seven result bytes of FORMAT; the terminal count stays as it was. */
  lemma EndFormat(s: Fdc, result: ResultBytes)
    requires Reporting(s, result) && s.busy == {}
    ensures var t := Ins(s, 7);
      && t.values == result && t.s.x.tc == s.x.tc && t.s.m == s.m && t.s.track == s.track
      && Parked(t.s) && t.s.x.exec == s.x.exec
  {
    Drain(s, 7);
    assert s.result[0..7] == s.result;
  }

  /**
   * FORMAT, its seven result bytes, and the next transfer, all through the ports: after the result
   * the controller is idle exactly if every ID field named a sector; otherwise the next transfer
   * ends before its first byte, without touching the disk.
   */
  lemma FormatThenTransfer(s: Fdc, value: byte, a: seq<byte>, ids: seq<byte>, next: byte, op: Op, b: seq<byte>)
    requires Idle(s) && FormatCommand(value) && |a| == 5 && Formattable(s, a) && |ids| <= 1024
    requires Commands(next, op) && (op.IsRead() || op.IsWrite()) && |b| == 8 && (op.ReadTrack? || b[3] != 0)
    ensures var t := Ins(FormatSession(s, value, a, ids), 7);
      && (Idle(t.s) <==> SentFields(s, a, ids).AllNamed(a[2]))
      && (!Idle(t.s) ==> EndsAtOnce(t.s, next, op, b))
  {
    hide Out, Outs, In, FormatSession, SentFields, IdFields.AllNamed, IdFields.Listed, Reports;
    FormatEffect(s, value, a, ids, 0);
    var g, t := SentFields(s, a, ids), FormatSession(s, value, a, ids);
    EndFormat(t, if g.AllNamed(a[2]) then [a[0], 0, 0, 0, 0, 0, 0] else FormatError(a));
    if !g.AllNamed(a[2]) {
      PendingTerminalCount(Ins(t, 7).s, next, op, b);
    } else {
      var u := Ins(t, 7).s;
      assert u == u.(x := u.x.(tc := false));
    }
  }

  /** The transfer given by `value` and `a` reports its result after its last argument, no byte transferred. */
  predicate EndsAtOnce(s: Fdc, value: byte, op: Op, a: seq<byte>)
    requires |a| == 8
  {
    var t, a' := Outs(s, [value] + a), Effective(op, a);
    Reports(t, StoppedResult(op, JobFor(s, value, a'), StartOf(a'))) && t.m == s.m
  }

  /**
   * The retry of a failed FORMAT, all through the ports: it takes no ID byte. At its last argument
   * it formats the sectors named by the bytes sent for the first FORMAT, and behind them by what
   * was in the buffer before.
   */
  lemma FormatThenFormat(s: Fdc, value: byte, a: seq<byte>, ids: seq<byte>, next: byte, b: seq<byte>, i: nat)
    requires Idle(s) && FormatCommand(value) && |a| == 5 && Formattable(s, a) && |ids| <= 1024
    requires !SentFields(s, a, ids).AllNamed(a[2])
    requires FormatCommand(next) && |b| == 5 && Formattable(s, b)
    ensures var t := Ins(FormatSession(s, value, a, ids), 7).s;
      && Parked(t) && Formattable(t, b)
      && HasFormatted(t, b, SentFields(t, b, []), Outs(t, [next] + b), i)
      && SentFields(t, b, []).bytes == ids + s.x.exec[|ids|..]
  {
    hide Out, Outs, In, FormatSession, IdFields.AllNamed, IdFields.Listed, Reporting, Parked, Idle;
    FormatEffect(s, value, a, ids, 0);
    var u := FormatSession(s, value, a, ids);
    EndFormat(u, FormatError(a));
    StaleFormat(Ins(u, 7).s, next, b, i);
  }

  /** The same after a FORMAT that is refused at its last argument: if it was to format any sector. */
  lemma RefusedThenTransfer(s: Fdc, value: byte, a: seq<byte>, next: byte, op: Op, b: seq<byte>)
    requires Idle(s) && FormatCommand(value) && |a| == 5 && NoTrack(s, a)
    requires Commands(next, op) && (op.IsRead() || op.IsWrite()) && |b| == 8 && (op.ReadTrack? || b[3] != 0)
    ensures var t := Ins(Outs(s, [value] + a), 7);
      (Idle(t.s) <==> a[2] == 0) && (!Idle(t.s) ==> EndsAtOnce(t.s, next, op, b))
  {
    hide Out, Outs, In, Reports;
    FormatRefused(s, value, a);
    var t := Outs(s, [value] + a);
    EndFormat(t, FormatError(a));
    if a[2] > 0 {
      PendingTerminalCount(Ins(t, 7).s, next, op, b);
    } else {
      var u := Ins(t, 7).s;
      assert u == u.(x := u.x.(tc := false));
    }
  }
}
