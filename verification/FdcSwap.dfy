/** Changing a disk, in whatever drive, while a transfer is under way. */
module FdcSwap {
  import opened Bytes
  import opened Floppy
  import opened FdcModel
  import opened FdcProtocol
  import opened FdcReadStream
  import opened FdcWriteStream
  import opened FdcInsert

  lemma EmptiedFirst(s: Fdc, unit: nat, file: File)
    requires !s.fault && unit < UNITS
    ensures s.m.disk[unit := None][unit := Some(file)] == s.m.disk[unit := Some(file)]
  {
  }

  /** Without callbacks the search only rewinds the transfer. */
  function Rewound(s: Fdc): Fdc {
    s.(x := s.x.(rwcount := 0, rwmax := 0, st0 := s.Drive(), st1 := 0, st2 := 0))
  }

  lemma UnloadRewinds(s: Fdc, unit: nat)
    requires Executing(s) && (s.Runs(ReadData) || s.Runs(WriteData)) && s.x.next.record != 0 && unit < UNITS
    ensures Unload(s, unit) == s || Unload(s, unit) == Rewound(s.(m := Media(false, false, s.m.disk[unit := None])))
  {
    hide FindForRead, FindForWrite;
    NoCallback(s.x.next, s.args, s.track, s.m.(canRead := false, canWrite := false, disk := s.m.disk[unit := None]));
  }

  lemma NoCallback(id: Idr, args: ArgBytes, track: Tracks, m: Media)
    requires id.record != 0 && !m.canRead && !m.canWrite
    ensures FindForRead(id, args, track, m) == Stall && FindForWrite(id, args, track, m) == Stall
  {
  }

  /** Whether the drive held an image or not, the search starts from a rewound transfer. */
  lemma LoadSearches(s: Fdc, unit: nat, file: File)
    requires Executing(s) && s.x.next.record != 0 && unit < UNITS
    ensures s.Runs(ReadData) ==> Load(s, unit, Some(file)) == PrepareRead(Rewound(Inserted(s, unit, file)))
    ensures s.Runs(WriteData) ==> Load(s, unit, Some(file)) == CommitWrite(Rewound(Inserted(s, unit, file)))
    ensures !s.Runs(ReadData) && !s.Runs(WriteData) ==> Load(s, unit, Some(file)) == Inserted(s, unit, file)
  {
    hide FindForRead, FindForWrite, Unload;
    EmptiedFirst(s, unit, file);
    if s.Runs(ReadData) || s.Runs(WriteData) {
      UnloadRewinds(s, unit);
      RewindsAnyway(Inserted(s, unit, file));
    } else {
      UnloadOnly(s, unit);
    }
  }

  lemma UnloadOnly(s: Fdc, unit: nat)
    requires Executing(s) && !s.Runs(ReadData) && !s.Runs(WriteData) && unit < UNITS
    ensures Unload(s, unit) == s || Unload(s, unit) == s.(m := Media(false, false, s.m.disk[unit := None]))
  {
  }

  lemma RewindsAnyway(s: Fdc)
    requires s.x.next.record != 0
    ensures PrepareRead(s) == PrepareRead(Rewound(s)) && CommitWrite(s) == CommitWrite(Rewound(s))
  {
    hide FindForRead, FindForWrite;
  }

  /**
   * Loading an image into any drive while READ DATA serves a sector discards the rest of that
   * sector: the transfer goes on with the first byte of the next one.
   */
  lemma LoadSkipsSector(s: Fdc, id: Idr, unit: nat, file: File)
    requires Serving(s, id) && s.Runs(ReadData) && unit < UNITS
    requires Loads(JobOf(Inserted(s, unit, file)), s.x.next)
    ensures var t := Load(s, unit, Some(file));
      && Serving(t, JobOf(s).After(id)) && t.x.rwcount == 0 && JobOf(t) == JobOf(Inserted(s, unit, file))
      && (s.args[4] != 0 || s.args[7] != 0 ==> In(t).value == Payload(JobOf(t), JobOf(s).After(id))[0])
  {
    hide In, Load;
    LoadSearches(s, unit, file);
    LoadServes(Rewound(Inserted(s, unit, file)));
    var t := Load(s, unit, Some(file));
    if s.args[4] != 0 || s.args[7] != 0 {
      ServeWithin(t, JobOf(s).After(id));
    }
  }

  /** In another drive than the one being read that needs no more than the next sector itself. */
  lemma OtherDriveSkips(s: Fdc, id: Idr, unit: nat, file: File)
    requires Serving(s, id) && s.Runs(ReadData) && unit < UNITS && unit != s.Drive()
    requires Loads(JobOf(s), JobOf(s).After(id))
    ensures var t := Load(s, unit, Some(file)); Serving(t, JobOf(s).After(id)) && t.x.rwcount == 0
  {
    hide Load;
    LoadSkipsSector(s, id, unit, file);
  }

  /**
   * The same for WRITE DATA: what the current sector has received so far is never written; the
   * next sector is claimed and filled from its first byte.
   */
  lemma LoadAbandonsSector(s: Fdc, j: Job, id: Idr, unit: nat, file: File)
    requires Filling(s, j, id) && s.Runs(WriteData) && unit < UNITS && Takes(j, j.After(id))
    ensures var t := Load(s, unit, Some(file));
      && t.m == Inserted(s, unit, file).m && t.x.exec == s.x.exec && t.x.rwcount == 0
      && Filling(t, j.(m := t.m), j.After(id))
  {
    hide Load;
    LoadSearches(s, unit, file);
    var w := Rewound(Inserted(s, unit, file));
    CommitFills(w, j.(m := w.m));
  }

  /** READ TRACK and the deleted-data and FORMAT commands go on where they are. */
  lemma OthersGoOn(s: Fdc, unit: nat, file: File)
    requires Executing(s) && !s.Runs(ReadData) && !s.Runs(WriteData) && unit < UNITS
    ensures var t := Load(s, unit, Some(file)); t == Inserted(s, unit, file) && t.x == s.x
  {
    hide Unload;
    EmptiedFirst(s, unit, file);
    UnloadOnly(s, unit);
  }

  // ---- Taking a disk out ----

  /**
   * Unloading a drive, or loading a file that cannot be opened into it: the drive is empty then, and
   * if it was not before, the callbacks are gone, for all drives.
   */
  lemma UnloadDisconnects(s: Fdc, unit: nat)
    requires !s.fault && unit < UNITS
    ensures Load(s, unit, None) == Unload(s, unit)
    ensures Unload(s, unit).m ==
      if s.m.disk[unit].None? then s.m else Media(false, false, s.m.disk[unit := None])
  {
    hide Settle, FindForRead, FindForWrite;
  }

  /**
   * After that READ DATA and WRITE DATA find no disk in any drive, also where one is inserted: they
   * wait, transfer nothing and answer 0, until some image is loaded.
   */
  lemma OtherDrivesGone(s: Fdc, unit: nat, value: byte, op: Op, a: ArgBytes, es: seq<Option<byte>>)
    requires Idle(s) && unit < UNITS && s.m.disk[unit].Some? && Wakes(value, op) && a[3] != 0
    ensures var t := Accesses(Outs(Unload(s, unit), [value] + a), es);
      && t.Is(Exec) && !t.fault && t.x.rwmax == 0 && In(t).value == 0
      && t.m == Media(false, false, s.m.disk[unit := None])
  {
    hide Out, In, Access;
    UnloadDisconnects(s, unit);
    var t := Unload(s, unit);
    assert Idle(t);
    StartsWaiting(t, value, op, a);
    AccessesWait(t, op, Bit(value, 128), a, false, es);
    AccessWaits(t, op, Bit(value, 128), a, if es == [] then false else op.ReadData?, 0);
  }
}
