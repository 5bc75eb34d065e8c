/** Which sector the controller names after any number of sectors: the closed form of the ID register. */
module FdcAdvance {
  import opened Bytes
  import opened FdcModel

  function AdvanceN(id: Idr, mt: bool, eot: byte, k: nat): Idr {
    if k == 0 then id else Advance(AdvanceN(id, mt, eot, k - 1), mt, eot)
  }

  lemma {:induction false} AdvanceNFirst(id: Idr, mt: bool, eot: byte, k: nat)
    requires k > 0
    ensures AdvanceN(id, mt, eot, k) == AdvanceN(Advance(id, mt, eot), mt, eot, k - 1)
  {
    if k > 1 {
      AdvanceNFirst(id, mt, eot, k - 1);
    }
  }

  /** The raw unit/head byte with the side bit forced to `side`. */
  function WithSide(phyHead: byte, side: bool): byte {
    if side then SetBit(phyHead, 4) else ClearBit(phyHead, 4)
  }

  function SideWeight(id: Idr): nat {
    if id.Side() then 1 else 0
  }

  /**
   * Record `record`, after the end of a track has been passed `w` times since `id`. Without MT
   * every passage is a new cylinder. With MT the physical side and the logical head alternate and
   * only a passage to side 0 is a new cylinder.
   */
  function AfterTurns(id: Idr, mt: bool, w: nat, record: byte): Idr {
    if !mt then Idr(id.phyHead, (id.cylinder + w) % 256, id.head, record)
    else if w == 0 then id.(record := record)
    else
      Idr(WithSide(id.phyHead, (SideWeight(id) + w) % 2 == 1),
          (id.cylinder + (w + SideWeight(id)) / 2) % 256,
          Bool((id.head == 0) == (w % 2 == 1)),
          record)
  }

  lemma SideFlips(p: byte, side: bool)
    ensures Bit(WithSide(p, side), 4) == side
    ensures (if side then ClearBit(WithSide(p, side), 4) else SetBit(WithSide(p, side), 4)) == WithSide(p, !side)
    ensures p == WithSide(p, Bit(p, 4))
  {
  }

  /** Passing the end of a track with MT, from side `side`. */
  lemma OneFlip(p: byte, side: bool, cylinder: byte, head: byte, record: byte, eot: byte)
    requires 0 < record < 255 && record >= eot
    ensures Advance(Idr(WithSide(p, side), cylinder, head, record), true, eot) ==
      Idr(WithSide(p, !side), if side then Inc(cylinder) else cylinder, Bool(head == 0), 1)
  {
    SideFlips(p, side);
    SideFlips(p, !side);
  }

  lemma IncMod(c: nat, n: nat)
    ensures Inc((c + n) % 256) == (c + (n + 1)) % 256
  {
  }

  lemma OneTurnSingle(id: Idr, eot: byte, w: nat, record: byte)
    requires 0 < record < 255 && record >= eot
    ensures Advance(AfterTurns(id, false, w, record), false, eot) == AfterTurns(id, false, w + 1, 1)
  {
    IncMod(id.cylinder, w);
  }

  lemma OneTurnMulti(id: Idr, eot: byte, w: nat, record: byte)
    requires 0 < record < 255 && record >= eot
    ensures Advance(AfterTurns(id, true, w, record), true, eot) == AfterTurns(id, true, w + 1, 1)
  {
    var t := w + SideWeight(id);
    var side := t % 2 == 1;
    var at := AfterTurns(id, true, w, record);
    SideFlips(id.phyHead, id.Side());
    assert at == Idr(WithSide(id.phyHead, side), (id.cylinder + t / 2) % 256, at.head, record);
    OneFlip(id.phyHead, side, at.cylinder, at.head, record, eot);
    IncMod(id.cylinder, t / 2);
    assert (t + 1) / 2 == if side then t / 2 + 1 else t / 2;
    assert (w + 1) % 2 == 1 <==> w % 2 == 0;
  }

  lemma OneTurn(id: Idr, mt: bool, eot: byte, w: nat, record: byte)
    requires 0 < record < 255
    ensures Advance(AfterTurns(id, mt, w, record), mt, eot) ==
      if record < eot then AfterTurns(id, mt, w, record + 1) else AfterTurns(id, mt, w + 1, 1)
  {
    if record >= eot {
      if mt {
        OneTurnMulti(id, eot, w, record);
      } else {
        OneTurnSingle(id, eot, w, record);
      }
    }
  }

  lemma Unique(e: nat, q: nat, r: nat, q': nat, r': nat)
    requires r < e && r' < e && q * e + r == q' * e + r'
    ensures q == q' && r == r'
  {
    if q < q' {
      MulGap(e, q, q');
    } else if q' < q {
      MulGap(e, q', q);
    }
  }

  lemma MulGap(e: nat, p: nat, q: nat)
    requires p < q
    ensures p * e + e <= q * e
  {
    assert q * e == (p + 1) * e + (q - p - 1) * e;
  }

  /** The records of a track the transfer cycles through, and where it enters the cycle. */
  function Cycle(eot: byte): nat {
    if eot == 0 then 1 else eot
  }

  function Entry(record: byte, eot: byte): nat {
    if record < Cycle(eot) then record else Cycle(eot)
  }

  /** The ID after `k` sectors, when they amount to `w` whole cycles and `r` records more. */
  lemma {:induction false} AfterSectors(id: Idr, mt: bool, eot: byte, k: nat, w: nat, r: nat)
    requires 1 <= id.record < 255 && eot < 255 && k >= 1
    requires r < Cycle(eot) && Entry(id.record, eot) - 1 + k == w * Cycle(eot) + r
    ensures AdvanceN(id, mt, eot, k) == AfterTurns(id, mt, w, r + 1)
  {
    var e := Cycle(eot);
    if k == 1 {
      FirstSector(id, mt, eot, w, r);
    } else if r > 0 {
      AfterSectors(id, mt, eot, k - 1, w, r - 1);
      OneTurn(id, mt, eot, w, r);
    } else {
      WholeCycle(w, e);
      AfterSectors(id, mt, eot, k - 1, w - 1, e - 1);
      OneTurn(id, mt, eot, w - 1, e);
    }
  }

  lemma WholeCycle(w: nat, e: nat)
    requires e > 0 && w * e > 0
    ensures w >= 1 && w * e == (w - 1) * e + e
  {
  }

  lemma FirstSector(id: Idr, mt: bool, eot: byte, w: nat, r: nat)
    requires 1 <= id.record < 255 && eot < 255
    requires r < Cycle(eot) && Entry(id.record, eot) == w * Cycle(eot) + r
    ensures Advance(id, mt, eot) == AfterTurns(id, mt, w, r + 1)
  {
    OneTurn(id, mt, eot, 0, id.record);
    assert AfterTurns(id, mt, 0, id.record) == id;
    if id.record < Cycle(eot) {
      Unique(Cycle(eot), w, r, 0, id.record);
    } else {
      Unique(Cycle(eot), w, r, 1, 0);
    }
  }

  /**
   * The closed form: with m = R - 1 + k and e = EOT, the end of the track has been passed m / e
   * times and the record is m % e + 1 (R counts as EOT if it lies beyond it).
   */
  function ClosedId(id: Idr, mt: bool, eot: byte, k: nat): Idr
    requires 1 <= id.record < 255 && eot < 255 && k >= 1
  {
    var m, e := Entry(id.record, eot) - 1 + k, Cycle(eot);
    AfterTurns(id, mt, m / e, m % e + 1)
  }

  /** The ID after `k` sectors, for every start record, EOT, MT option and `k`. */
  lemma ClosedForm(id: Idr, mt: bool, eot: byte, k: nat)
    requires 1 <= id.record < 255 && eot < 255 && k >= 1
    ensures AdvanceN(id, mt, eot, k) == ClosedId(id, mt, eot, k)
  {
    var m, e := Entry(id.record, eot) - 1 + k, Cycle(eot);
    AfterSectors(id, mt, eot, k, m / e, m % e);
  }
}
