/** SEEK, RECALIBRATE and SENSE INTERRUPT: which drives have moved and have not been sensed yet. */
module FdcSeek {
  import opened Bytes
  import opened FdcModel
  import opened FdcProtocol

  /** Waiting for a command; drives may be waiting to be sensed. */
  predicate Quiet(s: Fdc) {
    !s.fault && s.Is(Cmd) && !s.c.dio && !s.c.exm && !s.c.cb && s.busy <= {0, 1, 2, 3}
  }

  /** What the host sees of the heads. */
  datatype Heads = Heads(pending: set<nat>, track: Tracks)

  function HeadsOf(s: Fdc): Heads {
    Heads(s.busy, s.track)
  }

  /** A head command with its arguments; every byte is arbitrary where the command allows it. */
  datatype HeadCommand =
    | SeekTo(command: byte, unitHead: byte, cylinder: byte)
    | GoHome(command: byte, unitHead: byte)
    | SenseOne(command: byte)
  {
    predicate Ok() {
      match this
      case SeekTo(v, _, _) => v % 32 == 0x0F
      case GoHome(v, _) => v % 32 == 0x07
      case SenseOne(v) => v % 32 == 0x08
    }
  }

  /** A move marks the drive; a sense takes the lowest numbered one. */
  function Move(h: Heads, c: HeadCommand): Heads {
    match c
    case SeekTo(_, u, cylinder) => Heads(h.pending + {u % 4}, h.track[u % 4 := cylinder])
    case GoHome(_, u) => Heads(h.pending + {u % 4}, h.track[u % 4 := 0])
    case SenseOne(_) => Heads(h.pending - {FirstBusy(h.pending)}, h.track)
  }

  /** The whole command, with its result phase. */
  function Play(s: Fdc, c: HeadCommand): Stream {
    match c
    case SeekTo(v, u, cylinder) => Stream(Outs(s, [v] + [u, cylinder]), [])
    case GoHome(v, u) => Stream(Outs(s, [v] + [u]), [])
    case SenseOne(v) => Ins(Out(s, v), if s.busy == {} then 1 else 2)
  }

  lemma MoveEnds(s: Fdc, op: Op, mt: bool, a: seq<byte>)
    requires Quiet(s) && (op.Seek? || op.Recalibrate?) && |a| == op.ArgsLen()
    ensures var t := Leave(EnterExec(Ready(s, op, mt, a), op), op);
      && Quiet(t) && t.m == s.m && t.x.irq && t.x.st0 == a[0] % 4
      && HeadsOf(t) == Heads(s.busy + {a[0] % 4}, s.track[a[0] % 4 := if op.Seek? then a[1] else 0])
  {
  }

  /** The one-byte answer to a command that is unknown or out of sequence. */
  function AnswerByte(st0: byte): byte {
    SetBit(st0 - st0 % 4, 128)
  }

  lemma AnswerBits(st0: byte)
    ensures Bit(AnswerByte(st0), 128) && AnswerByte(st0) % 4 == 0
  {
  }

  lemma SelectsInvalid(s: Fdc, value: byte)
    requires Unwelcome(s, value)
    ensures var st0 := AnswerByte(s.x.st0);
      Select(s, value) == s.(c := s.c.(mt := Bit(value, 128), op := Some(Invalid)), x := s.x.(st0 := st0),
                             result := s.result[0 := st0])
  {
  }

  lemma Refuses(s: Fdc, value: byte)
    requires Quiet(s) && Unwelcome(s, value)
    ensures var t := Out(s, value);
      && !t.fault && t.Is(Result) && t.c.op.Some? && t.c.cb && !t.c.exm && t.x.rwcount == 0 && t.x.rwmax == 1
      && t.track == s.track && t.m == s.m && t.busy == s.busy && t.args == s.args
      && Bit(t.result[0], 128) && t.result[0] % 4 == 0
  {
    hide Select, AnswerByte, Bit;
    SelectsInvalid(Calm(s), value);
    AnswerBits(s.x.st0);
  }

  /**
   * A command that is unknown or out of sequence (any but SEEK, RECALIBRATE and SENSE INTERRUPT
   * while a drive is busy; SENSE INTERRUPT while none is) is answered by one byte with the
   * invalid-command bit, and moves no head, no busy bit and no byte of a disk.
   */
  lemma InvalidAnswer(s: Fdc, value: byte)
    requires Quiet(s) && Unwelcome(s, value)
    ensures var t := Ins(Out(s, value), 1);
      && Quiet(t.s) && HeadsOf(t.s) == HeadsOf(s) && t.s.m == s.m
      && |t.values| == 1 && Bit(t.values[0], 128) && t.values[0] % 4 == 0
  {
    hide Out, In;
    Refuses(s, value);
    Drain(Out(s, value), 1);
  }

  /**
   * SENSE INTERRUPT takes the lowest numbered pending drive and prepares its two result bytes; the
   * interrupt line is up again if and only if another drive is pending.
   */
  lemma Senses(s: Fdc, value: byte)
    requires Quiet(s) && value % 32 == 0x08 && s.busy != {}
    ensures var t := Out(s, value);
      && !t.fault && t.Is(Result) && t.c.op.Some? && t.c.cb && !t.c.exm && t.x.rwcount == 0 && t.x.rwmax == 2
      && t.track == s.track && t.m == s.m && t.busy == s.busy - {FirstBusy(s.busy)}
      && t.result[1] == s.track[FirstBusy(s.busy)] && t.result[0] == SetBit(s.x.st0, 32)
      && (t.x.irq <==> s.busy != {FirstBusy(s.busy)})
  {
  }

  /** Every head command does to the drives what `Move` says; a sense reports the drive's track. */
  lemma PlayMoves(s: Fdc, c: HeadCommand)
    requires Quiet(s) && c.Ok()
    ensures var t := Play(s, c);
      && Quiet(t.s) && HeadsOf(t.s) == Move(HeadsOf(s), c) && t.s.m == s.m
      && (c.SenseOne? && s.busy != {} ==>
            |t.values| == 2 && Bit(t.values[0], 32) && t.values[1] == s.track[FirstBusy(s.busy)])
      && (c.SenseOne? && s.busy == {} ==> |t.values| == 1 && Bit(t.values[0], 128))
  {
    hide Out, In, Leave;
    match c
    case SeekTo(v, u, cylinder) =>
      Issue(s, v, Seek, [u, cylinder]);
      MoveEnds(s, Seek, Bit(v, 128), [u, cylinder]);
    case GoHome(v, u) =>
      Issue(s, v, Recalibrate, [u]);
      MoveEnds(s, Recalibrate, Bit(v, 128), [u]);
    case SenseOne(v) =>
      if s.busy == {} {
        InvalidAnswer(s, v);
      } else {
        Senses(s, v);
        Drain(Out(s, v), 2);
      }
  }

  /** A seek raises the interrupt line; sensed at once it reports seek end, the drive and its cylinder. */
  lemma SeekThenSense(s: Fdc, seek: byte, unitHead: byte, cylinder: byte, sense: byte)
    requires Quiet(s) && s.busy == {} && seek % 32 == 0x0F && sense % 32 == 0x08
    ensures var t := Play(s, SeekTo(seek, unitHead, cylinder)).s;
      t.x.irq && Play(t, SenseOne(sense)).values == [32 + unitHead % 4, cylinder]
      && Play(t, SenseOne(sense)).s.busy == {}
  {
    hide Out, In, Leave;
    var a := [unitHead, cylinder];
    Issue(s, seek, Seek, a);
    MoveEnds(s, Seek, Bit(seek, 128), a);
    var t := Play(s, SeekTo(seek, unitHead, cylinder)).s;
    Senses(t, sense);
    Drain(Out(t, sense), 2);
  }

  /** SPECIFY takes two arguments and does nothing else: no head, busy bit, disk or line changes. */
  lemma SpecifyIsQuiet(s: Fdc, value: byte, a: seq<byte>)
    requires Quiet(s) && s.busy == {} && value % 32 == 0x03 && |a| == 2
    ensures var t := Outs(s, [value] + a);
      && Quiet(t) && HeadsOf(t) == HeadsOf(s) && t.m == s.m && !t.x.irq
      && t.x.st0 == s.x.st0 && t.x.exec == s.x.exec
  {
    hide Out;
    Issue(s, value, Specify, a);
  }

  function PlayAll(s: Fdc, cs: seq<HeadCommand>): Fdc
    decreases |cs|
  {
    if cs == [] then s else PlayAll(Play(s, cs[0]).s, cs[1..])
  }

  function MoveAll(h: Heads, cs: seq<HeadCommand>): Heads
    decreases |cs|
  {
    if cs == [] then h else MoveAll(Move(h, cs[0]), cs[1..])
  }

  /** After any history the busy bits are the drives moved and not yet sensed, on their last cylinder. */
  lemma {:induction false} HistoryTells(s: Fdc, cs: seq<HeadCommand>)
    requires Quiet(s) && forall c :: c in cs ==> c.Ok()
    ensures var t := PlayAll(s, cs);
      Quiet(t) && HeadsOf(t) == MoveAll(HeadsOf(s), cs) && t.m == s.m
    decreases |cs|
  {
    hide Play, Move;
    if cs != [] {
      PlayMoves(s, cs[0]);
      HistoryTells(Play(s, cs[0]).s, cs[1..]);
    }
  }

  /** The command moves the head of drive `d`. */
  predicate Moves(c: HeadCommand, d: nat) {
    !c.SenseOne? && c.unitHead % 4 == d
  }

  function Destination(c: HeadCommand): byte {
    if c.SeekTo? then c.cylinder else 0
  }

  lemma {:induction false} HeadStays(h: Heads, cs: seq<HeadCommand>, d: nat)
    requires d < 4 && forall k :: 0 <= k < |cs| ==> !Moves(cs[k], d)
    ensures var g := MoveAll(h, cs);
      && g.track[d] == h.track[d] && (d in g.pending ==> d in h.pending)
      && ((forall k :: 0 <= k < |cs| ==> !cs[k].SenseOne?) && d in h.pending ==> d in g.pending)
    decreases |cs|
  {
    if cs != [] {
      assert !Moves(cs[0], d);
      HeadStays(Move(h, cs[0]), cs[1..], d);
    }
  }

  lemma {:induction false} HeadMoves(h: Heads, cs: seq<HeadCommand>, i: nat, d: nat)
    requires d < 4 && i < |cs| && Moves(cs[i], d) && forall k :: i < k < |cs| ==> !Moves(cs[k], d)
    ensures var g := MoveAll(h, cs);
      && g.track[d] == Destination(cs[i])
      && ((forall k :: i < k < |cs| ==> !cs[k].SenseOne?) ==> d in g.pending)
    decreases |cs|
  {
    if i == 0 {
      HeadStays(Move(h, cs[0]), cs[1..], d);
    } else {
      HeadMoves(Move(h, cs[0]), cs[1..], i - 1, d);
    }
  }

  /**
   * By position in the history: a drive is on the cylinder of the last command that moved it, and
   * pending if nothing has been sensed since.
   */
  lemma LastMoveShows(s: Fdc, cs: seq<HeadCommand>, i: nat, d: nat)
    requires Quiet(s) && forall c :: c in cs ==> c.Ok()
    requires d < 4 && i < |cs| && Moves(cs[i], d) && forall k :: i < k < |cs| ==> !Moves(cs[k], d)
    ensures PlayAll(s, cs).track[d] == Destination(cs[i])
    ensures (forall k :: i < k < |cs| ==> !cs[k].SenseOne?) ==> d in PlayAll(s, cs).busy
  {
    HistoryTells(s, cs);
    HeadMoves(HeadsOf(s), cs, i, d);
  }

  /** A drive that no command has moved is where it was, and pending only if it was. */
  lemma UnmovedStays(s: Fdc, cs: seq<HeadCommand>, d: nat)
    requires Quiet(s) && forall c :: c in cs ==> c.Ok()
    requires d < 4 && forall k :: 0 <= k < |cs| ==> !Moves(cs[k], d)
    ensures PlayAll(s, cs).track[d] == s.track[d] && (d in PlayAll(s, cs).busy ==> d in s.busy)
  {
    HistoryTells(s, cs);
    HeadStays(HeadsOf(s), cs, d);
  }

  // ---- Draining ----

  /** The members of `pending` from drive `d` on, in ascending order. */
  function Ascending(pending: set<nat>, d: nat): seq<nat>
    decreases 4 - d
  {
    if d >= 4 then [] else (if d in pending then [d] else []) + Ascending(pending, d + 1)
  }

  ghost predicate Increasing(ds: seq<nat>) {
    forall i, j :: 0 <= i < j < |ds| ==> ds[i] < ds[j]
  }

  function From(pending: set<nat>, d: nat): set<nat> {
    set x | x in pending && d <= x
  }

  lemma FromStep(pending: set<nat>, d: nat)
    ensures |From(pending, d)| == |From(pending, d + 1)| + if d in pending then 1 else 0
  {
    assert From(pending, d) == if d in pending then From(pending, d + 1) + {d} else From(pending, d + 1);
  }

  lemma {:induction false} AscendingFrom(pending: set<nat>, d: nat)
    requires pending <= {0, 1, 2, 3}
    ensures |Ascending(pending, d)| == |From(pending, d)| && Increasing(Ascending(pending, d))
    ensures forall i :: 0 <= i < |Ascending(pending, d)| ==>
      d <= Ascending(pending, d)[i] < 4 && Ascending(pending, d)[i] in pending
    decreases 4 - d
  {
    if d >= 4 {
      assert From(pending, d) == {};
    } else {
      AscendingFrom(pending, d + 1);
      FromStep(pending, d);
    }
  }

  /** `Ascending` lists pending drives without repetition, and as many as there are: all of them. */
  lemma AscendingIsAll(pending: set<nat>)
    requires pending <= {0, 1, 2, 3}
    ensures |Ascending(pending, 0)| == |pending| && Increasing(Ascending(pending, 0))
    ensures forall i :: 0 <= i < |Ascending(pending, 0)| ==>
      Ascending(pending, 0)[i] < 4 && Ascending(pending, 0)[i] in pending
  {
    AscendingFrom(pending, 0);
    assert From(pending, 0) == pending;
  }

  lemma AscendingFirst(pending: set<nat>)
    requires pending != {} && pending <= {0, 1, 2, 3}
    ensures FirstBusy(pending) in pending
    ensures Ascending(pending, 0) == [FirstBusy(pending)] + Ascending(pending - {FirstBusy(pending)}, 0)
  {
    var rest := pending - {FirstBusy(pending)};
    assert Ascending(pending, 3) == if 3 in pending then [3] else [];
    assert Ascending(pending, 2) == (if 2 in pending then [2] else []) + Ascending(pending, 3);
    assert Ascending(pending, 1) == (if 1 in pending then [1] else []) + Ascending(pending, 2);
    assert Ascending(rest, 3) == if 3 in rest then [3] else [];
    assert Ascending(rest, 2) == (if 2 in rest then [2] else []) + Ascending(rest, 3);
    assert Ascending(rest, 1) == (if 1 in rest then [1] else []) + Ascending(rest, 2);
  }

  /** Repeated sensing: the second result byte of each sense. */
  function SenseMany(s: Fdc, value: byte, n: nat): Stream
    decreases n
  {
    if n == 0 then Stream(s, [])
    else
      var t := Play(s, SenseOne(value));
      var rest := SenseMany(t.s, value, n - 1);
      Stream(rest.s, (if |t.values| == 2 then [t.values[1]] else []) + rest.values)
  }

  function TracksOf(track: Tracks, drives: seq<nat>): seq<byte>
    requires forall i :: 0 <= i < |drives| ==> drives[i] < 4
  {
    if drives == [] then [] else [track[drives[0]]] + TracksOf(track, drives[1..])
  }

  /**
   * Sensing as many times as drives are pending reports the current track of each of them, in
   * ascending order of the drives, and leaves none pending; one more sense is invalid.
   */
  lemma {:induction false} SenseDrains(s: Fdc, value: byte)
    requires Quiet(s) && value % 32 == 0x08
    ensures forall i :: 0 <= i < |Ascending(s.busy, 0)| ==> Ascending(s.busy, 0)[i] < 4
    ensures var t := SenseMany(s, value, |s.busy|);
      && Quiet(t.s) && t.s.busy == {} && t.s.track == s.track && t.s.m == s.m
      && t.values == TracksOf(s.track, Ascending(s.busy, 0))
      && |Play(t.s, SenseOne(value)).values| == 1
    decreases |s.busy|
  {
    hide Play, Out, In, Ascending;
    AscendingIsAll(s.busy);
    PlayMoves(s, SenseOne(value));
    if s.busy == {} {
      assert Ascending(s.busy, 0) == [];
    } else {
      AscendingFirst(s.busy);
      SenseDrains(Play(s, SenseOne(value)).s, value);
    }
  }
}
