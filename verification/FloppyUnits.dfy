/** The image files of the four drives, read and overwritten in place. */
module FloppyUnits {
  import opened Bytes
  import opened Floppy

  /** Negative callback results. */
  const DISK_IMAGE_NOMEDIUM := 0
  const DISK_IMAGE_INVALID_GEOMETRY := -2

  class Units {
    var fd: Disk

    constructor ()
      ensures fd == [None, None, None, None]
    {
      fd := [None, None, None, None];
    }

    /** Offset and length of a sector, step by step in unsigned arithmetic; negative on bad geometry. */
    method Seek(q: Request) returns (ret: int, offset: nat, len: nat)
      ensures match Locate(q)
              case None => ret == DISK_IMAGE_INVALID_GEOMETRY
              case Some(r) => ret == len > 0 && r == Region(offset, len)
    {
      ret, offset, len := DISK_IMAGE_INVALID_GEOMETRY, 0, T0_SECTOR_SIZE;
      if q.phyHead != q.head || q.phyTrack != q.track || q.track > TRACKS - 1 {
        return;
      }
      if q.track == 0 && !q.head {
        if q.sector > T0_MAX_SECTORS - 1 {
          return;
        }
        offset := q.sector * T0_SECTOR_SIZE;
      } else {
        if q.sector > MAX_SECTORS - 1 {
          return;
        }
        offset := q.track * SECTOR_SIZE * MAX_SECTORS * 2;
        offset := offset + Side(q.head) * SECTOR_SIZE * MAX_SECTORS;
        offset := offset + q.sector * SECTOR_SIZE;
        offset := offset - SECTOR_SIZE * MAX_SECTORS;
        offset := offset + T0_SECTOR_SIZE * T0_MAX_SECTORS;
        len := SECTOR_SIZE;
      }
      ret := len;
    }

    /** `fread` into a buffer: the bytes behind the data stay. */
    static method CopyIn(buffer: array<byte>, data: seq<byte>)
      requires |data| <= buffer.Length
      modifies buffer
      ensures buffer[..] == data + old(buffer[..])[|data|..]
    {
      for i := 0 to |data|
        invariant forall k :: 0 <= k < i ==> buffer[k] == data[k]
        invariant forall k :: i <= k < buffer.Length ==> buffer[k] == old(buffer[k])
      {
        buffer[i] := data[i];
      }
    }

    /** Without a buffer only the length of the sector is returned. */
    method ReadBuffer(buffer: array?<byte>, q: Request) returns (ret: int)
      requires buffer != null ==> buffer.Length >= SECTOR_SIZE
      modifies buffer
      ensures match Ask(fd, q)
              case NoMedium => ret == DISK_IMAGE_NOMEDIUM && (buffer != null ==> buffer[..] == old(buffer[..]))
              case BadGeometry => ret < 0 && (buffer != null ==> buffer[..] == old(buffer[..]))
              case At(r) =>
                if buffer == null then ret == r.len
                else ret == |Fetch(fd, q)| && buffer[..] == Fetch(fd, q) + old(buffer[..])[ret..]
    {
      if q.drive >= UNITS || fd[q.drive].None? {
        return DISK_IMAGE_NOMEDIUM;
      }
      var offset, len;
      ret, offset, len := Seek(q);
      if ret < 0 || buffer == null {
        return;
      }
      var data := Slice(fd[q.drive].value, offset, len);
      CopyIn(buffer, data);
      ret := |data|;
    }

    /** Without a buffer only the length of the sector is returned. */
    method WriteBuffer(buffer: array?<byte>, q: Request) returns (ret: int)
      requires buffer != null ==> forall r :: Locate(q) == Some(r) ==> buffer.Length >= r.len
      modifies this
      ensures match old(Ask(fd, q))
              case NoMedium => ret == DISK_IMAGE_NOMEDIUM && fd == old(fd)
              case BadGeometry => ret < 0 && fd == old(fd)
              case At(r) => ret == r.len && fd == if buffer == null then old(fd) else Store(old(fd), q, buffer[..r.len])
    {
      if q.drive >= UNITS || fd[q.drive].None? {
        return DISK_IMAGE_NOMEDIUM;
      }
      var offset, len;
      ret, offset, len := Seek(q);
      if ret < 0 || buffer == null {
        return;
      }
      fd := fd[q.drive := Some(Overwrite(fd[q.drive].value, offset, buffer[..len]))];
    }
  }
}
