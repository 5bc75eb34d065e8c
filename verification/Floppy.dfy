/**
 * Disk images. An image file is a linear dump of a disk with 80 tracks and 2 sides; side 0 of
 * track 0 holds 16 sectors of 256 bytes, every other side holds 5 sectors of 1024 bytes.
 */
module Floppy {
  import opened Bytes

  const UNITS := 4
  const TRACKS := 80
  const SECTOR_SIZE := 1024
  const MAX_SECTORS := 5
  const T0_SECTOR_SIZE := 256
  const T0_MAX_SECTORS := 16
  const IMAGE_SIZE := 818176

  /** Contents of an image file. A file may be shorter or longer than a whole disk. */
  type File = seq<byte>

  type Disk = d: seq<Option<File>> | |d| == UNITS witness [None, None, None, None]

  datatype Region = Region(offset: nat, len: nat) {
    predicate Contains(i: nat) {
      offset <= i < offset + len
    }

    predicate Disjoint(r: Region) {
      offset + len <= r.offset || r.offset + r.len <= offset
    }
  }

  /** The arguments of a disk callback. */
  datatype Request = Request(drive: nat, phyHead: bool, phyTrack: byte, head: bool, track: byte, sector: byte)

  /** What a callback finds out before it touches the file. */
  datatype Answer = NoMedium | BadGeometry | At(region: Region)

  function SectorsOf(track: nat, head: bool): nat {
    if track == 0 && !head then T0_MAX_SECTORS else MAX_SECTORS
  }

  function SectorLen(track: nat, head: bool): nat {
    if track == 0 && !head then T0_SECTOR_SIZE else SECTOR_SIZE
  }

  function Side(head: bool): nat {
    if head then 1 else 0
  }

  /** Where a sector (counted from 0) starts. */
  function Offset(track: nat, head: bool, sector: nat): nat {
    if track == 0 && !head then sector * T0_SECTOR_SIZE
    else
      (track * 2 + Side(head) - 1) * MAX_SECTORS * SECTOR_SIZE
      + T0_MAX_SECTORS * T0_SECTOR_SIZE + sector * SECTOR_SIZE
  }

  predicate ValidSector(track: nat, head: bool, sector: nat) {
    track < TRACKS && sector < SectorsOf(track, head)
  }

  function RegionOf(track: nat, head: bool, sector: nat): Region {
    Region(Offset(track, head, sector), SectorLen(track, head))
  }

  /** The geometry checks: physical and logical position must agree and the sector must exist. */
  function Locate(q: Request): Option<Region> {
    if q.phyHead != q.head || q.phyTrack != q.track then None
    else if ValidSector(q.track, q.head, q.sector) then Some(RegionOf(q.track, q.head, q.sector))
    else None
  }

  function Ask(d: Disk, q: Request): Answer {
    if q.drive >= UNITS || d[q.drive].None? then NoMedium
    else match Locate(q)
         case None => BadGeometry
         case Some(r) => At(r)
  }

  // ---- Files ----

  /** `fread` of `len` bytes at `offset`: fewer bytes at the end of the file. */
  function Slice(f: File, offset: nat, len: nat): (r: seq<byte>)
    ensures |r| <= len
  {
    f[Min(offset, |f|)..Min(offset + len, |f|)]
  }

  function Min(a: nat, b: nat): nat {
    if a < b then a else b
  }

  function Zeros(n: nat): (r: seq<byte>)
    ensures |r| == n
    ensures forall i :: 0 <= i < n ==> r[i] == 0
  {
    seq(n, _ => 0)
  }

  /** `fwrite` of `data` at `offset`: a hole between the end of the file and `offset` reads as zeros. */
  function Overwrite(f: File, offset: nat, data: seq<byte>): File {
    var base := if offset + |data| <= |f| then f else f + Zeros(offset + |data| - |f|);
    base[..offset] + data + base[offset + |data|..]
  }

  /** The byte at position `i`; beyond the end of the file there are only zeros. */
  function ByteAt(f: File, i: nat): byte {
    if i < |f| then f[i] else 0
  }

  lemma OverwriteBytes(f: File, offset: nat, data: seq<byte>, i: nat)
    ensures |Overwrite(f, offset, data)| == if offset + |data| <= |f| then |f| else offset + |data|
    ensures ByteAt(Overwrite(f, offset, data), i) ==
      if offset <= i < offset + |data| then data[i - offset] else ByteAt(f, i)
  {
  }

  /** Reading where one has just written. */
  lemma ReadBack(f: File, offset: nat, data: seq<byte>)
    ensures Slice(Overwrite(f, offset, data), offset, |data|) == data
  {
    var g := Overwrite(f, offset, data);
    OverwriteBytes(f, offset, data, 0);
    forall i | 0 <= i < |data| ensures g[offset..offset + |data|][i] == data[i] {
      OverwriteBytes(f, offset, data, offset + i);
    }
  }

  /** Reading depends only on the bytes of the region. */
  lemma SameSlice(f: File, g: File, r: Region)
    requires r.offset + r.len <= |f| <= |g|
    requires forall i :: r.Contains(i) ==> ByteAt(g, i) == ByteAt(f, i)
    ensures Slice(f, r.offset, r.len) == Slice(g, r.offset, r.len)
  {
    forall i | r.offset <= i < r.offset + r.len ensures f[i] == g[i] {
      assert r.Contains(i);
    }
  }

  /** Writing elsewhere changes no byte that could be read. */
  lemma ReadElsewhere(f: File, offset: nat, data: seq<byte>, r: Region)
    requires Region(offset, |data|).Disjoint(r) && r.offset + r.len <= |f|
    ensures Slice(Overwrite(f, offset, data), r.offset, r.len) == Slice(f, r.offset, r.len)
  {
    var g := Overwrite(f, offset, data);
    OverwriteBytes(f, offset, data, 0);
    forall i | r.Contains(i) ensures ByteAt(g, i) == ByteAt(f, i) {
      OverwriteBytes(f, offset, data, i);
    }
    SameSlice(f, g, r);
  }

  function Fetch(d: Disk, q: Request): (r: seq<byte>)
    requires Ask(d, q).At?
    ensures |r| <= Ask(d, q).region.len <= 1024
  {
    var g := Ask(d, q).region;
    Slice(d[q.drive].value, g.offset, g.len)
  }

  function Store(d: Disk, q: Request, data: seq<byte>): Disk
    requires Ask(d, q).At?
  {
    d[q.drive := Some(Overwrite(d[q.drive].value, Ask(d, q).region.offset, data))]
  }

  // ---- Tiling ----

  datatype Place = Place(track: nat, head: bool, sector: nat)

  /** The sector that owns byte `i` of an image. */
  function PlaceOf(i: nat): Place {
    if i < T0_MAX_SECTORS * T0_SECTOR_SIZE then Place(0, false, i / T0_SECTOR_SIZE)
    else
      var s := (i - T0_MAX_SECTORS * T0_SECTOR_SIZE) / SECTOR_SIZE + MAX_SECTORS;
      Place(s / MAX_SECTORS / 2, s / MAX_SECTORS % 2 == 1, s % MAX_SECTORS)
  }

  /**
   * The sectors tile the image: byte `i` lies in the sector (track, head, sector) exactly when
   * that is `PlaceOf(i)`, and `PlaceOf` names an existing sector for every byte of a disk.
   */
  lemma Tiling(i: nat, track: nat, head: bool, sector: nat)
    requires i < IMAGE_SIZE
    ensures var p := PlaceOf(i); ValidSector(p.track, p.head, p.sector)
    ensures ValidSector(track, head, sector) ==>
      (RegionOf(track, head, sector).Contains(i) <==> PlaceOf(i) == Place(track, head, sector))
  {
  }

  /** The order of the dump: by sector, then head, then track. */
  function NextPlace(p: Place): Place {
    if p.sector + 1 < SectorsOf(p.track, p.head) then p.(sector := p.sector + 1)
    else if !p.head then Place(p.track, true, 0)
    else Place(p.track + 1, false, 0)
  }

  /** The dump starts with the first sector, each sector follows its predecessor, and nothing else is in it. */
  lemma Linear(p: Place)
    requires ValidSector(p.track, p.head, p.sector)
    ensures Offset(0, false, 0) == 0
    ensures var q, end := NextPlace(p), Offset(p.track, p.head, p.sector) + SectorLen(p.track, p.head);
      if ValidSector(q.track, q.head, q.sector) then Offset(q.track, q.head, q.sector) == end
      else p == Place(79, true, 4) && end == IMAGE_SIZE
  {
  }

  /** No sector reaches beyond the end of a whole image. */
  lemma RegionInImage(track: nat, head: bool, sector: nat)
    requires ValidSector(track, head, sector)
    ensures Offset(track, head, sector) + SectorLen(track, head) <= IMAGE_SIZE
  {
  }

  /** Two different sectors never share a byte. */
  lemma RegionsDisjoint(p: Place, q: Place)
    requires ValidSector(p.track, p.head, p.sector) && ValidSector(q.track, q.head, q.sector)
    ensures p != q ==> RegionOf(p.track, p.head, p.sector).Disjoint(RegionOf(q.track, q.head, q.sector))
  {
    var a, b := RegionOf(p.track, p.head, p.sector), RegionOf(q.track, q.head, q.sector);
    RegionInImage(p.track, p.head, p.sector);
    RegionInImage(q.track, q.head, q.sector);
    if !a.Disjoint(b) {
      var i := if a.offset <= b.offset then b.offset else a.offset;
      Tiling(i, p.track, p.head, p.sector);
      Tiling(i, q.track, q.head, q.sector);
    }
  }

  // ---- Histories of sector writes ----

  datatype SectorWrite = SectorWrite(place: Place, data: seq<byte>) {
    predicate Ok() {
      ValidSector(place.track, place.head, place.sector) && |data| == SectorLen(place.track, place.head)
    }

    function Target(): Region { RegionOf(place.track, place.head, place.sector) }
  }

  /** The file after a series of whole-sector writes. */
  function WriteMany(f: File, ws: seq<SectorWrite>): File {
    if ws == [] then f
    else Overwrite(WriteMany(f, ws[..|ws| - 1]), ws[|ws| - 1].Target().offset, ws[|ws| - 1].data)
  }

  function LastData(ws: seq<SectorWrite>, p: Place): Option<seq<byte>> {
    if ws == [] then None
    else if ws[|ws| - 1].place == p then Some(ws[|ws| - 1].data)
    else LastData(ws[..|ws| - 1], p)
  }

  /**
   * After any series of sector writes a sector reads as the last data written to it, or, if it
   * was never written, as it was at first.
   */
  lemma {:induction false} SectorReadsLastWrite(f: File, ws: seq<SectorWrite>, p: Place)
    requires ValidSector(p.track, p.head, p.sector) && forall i :: 0 <= i < |ws| ==> ws[i].Ok()
    ensures var r := RegionOf(p.track, p.head, p.sector);
      match LastData(ws, p)
      case Some(d) => r.offset + r.len <= |WriteMany(f, ws)| && Slice(WriteMany(f, ws), r.offset, r.len) == d
      case None => r.offset + r.len <= |f| ==>
        r.offset + r.len <= |WriteMany(f, ws)| && Slice(WriteMany(f, ws), r.offset, r.len) == Slice(f, r.offset, r.len)
    decreases |ws|
  {
    if ws != [] {
      var before, w := ws[..|ws| - 1], ws[|ws| - 1];
      var r := RegionOf(p.track, p.head, p.sector);
      SectorReadsLastWrite(f, before, p);
      var g := WriteMany(f, before);
      OverwriteBytes(g, w.Target().offset, w.data, 0);
      if w.place == p {
        ReadBack(g, w.Target().offset, w.data);
      } else {
        RegionsDisjoint(w.place, p);
        if r.offset + r.len <= |g| {
          ReadElsewhere(g, w.Target().offset, w.data, r);
        }
      }
    }
  }
}
