/** The memory map: banks, mirrors, RAM under ROM and the boot override, over physical cells. */
module Bus {
  import opened Bytes

  const AUX_SIZE := 0x800
  const VIDEO_SIZE := 0x800
  const ROM_SIZE := 0x1000
  const DYNAMIC_SIZE := 0x10000

  type address = x: int | 0 <= x < 0x10000

  /** The physical memories. */
  datatype Chip = Dynamic | Aux | VideoChar | VideoAttr | Rom {
    function Size(): nat {
      match this
      case Dynamic => DYNAMIC_SIZE
      case Aux => AUX_SIZE
      case VideoChar | VideoAttr => VIDEO_SIZE
      case Rom => ROM_SIZE
    }
  }

  datatype Cell = Cell(chip: Chip, offset: nat) {
    predicate Ok() { offset < chip.Size() }
  }

  /** Memory switched out of the upper map, attribute bank selected, boot override in force. */
  datatype Flags = Flags(switched: bool, attr: bool, boot: bool)

  // ---- The map, by address ----

  /** The cell that a read of `a` comes from. */
  function ReadCell(f: Flags, a: address): (c: Cell)
    ensures c.Ok()
  {
    if f.boot then Cell(Rom, a % ROM_SIZE)
    else if f.switched then Cell(Dynamic, a)
    else if 0xB000 <= a < 0xC000 then Cell(Aux, a % AUX_SIZE)
    else if 0xC000 <= a < 0xD000 then Cell(Rom, a % ROM_SIZE)
    else if 0xD000 <= a < 0xE000 then Cell(if f.attr then VideoAttr else VideoChar, a % VIDEO_SIZE)
    else Cell(Dynamic, a)
  }

  /** The cell that a write to `a` goes to: under the ROM there is dynamic RAM. */
  function WriteCell(f: Flags, a: address): Option<Cell> {
    if f.boot then None
    else if ReadCell(f, a).chip == Rom then Some(Cell(Dynamic, a))
    else Some(ReadCell(f, a))
  }

  // ---- A store of physical cells ----

  type Store = Cell -> byte

  function Put(m: Store, c: Cell, v: byte): Store {
    (d: Cell) => if d == c then v else m(d)
  }

  datatype Event =
    | Write(a: address, v: byte) | MemSwitch(on: bool) | VideoBank(attr: bool) | IoAccess | BusRestart | VideoRestart

  function StepFlags(f: Flags, e: Event): Flags {
    match e
    case Write(_, _) => f
    case MemSwitch(on) => f.(switched := on)
    case VideoBank(attr) => f.(attr := attr)
    case IoAccess => f.(boot := false)
    case BusRestart => Flags(false, f.attr, true)
    case VideoRestart => f.(attr := false)
  }

  function StepStore(f: Flags, m: Store, e: Event): Store {
    if e.Write? && WriteCell(f, e.a).Some? then Put(m, WriteCell(f, e.a).value, e.v) else m
  }

  // ---- Lemmas about any history ----

  function RunFlags(f: Flags, es: seq<Event>): Flags
    decreases |es|
  {
    if es == [] then f else RunFlags(StepFlags(f, es[0]), es[1..])
  }

  function RunStore(f: Flags, m: Store, es: seq<Event>): Store
    decreases |es|
  {
    if es == [] then m else RunStore(StepFlags(f, es[0]), StepStore(f, m, es[0]), es[1..])
  }

  // Windows of the upper map, while the memory is not switched.

  predicate InAux(f: Flags, a: address) { !f.switched && 0xB000 <= a < 0xC000 }

  predicate InRom(f: Flags, a: address) { !f.switched && 0xC000 <= a < 0xD000 }

  predicate InVideo(f: Flags, a: address) { !f.switched && 0xD000 <= a < 0xE000 }

  /**
   * What was written to `b` under the flags `h` shows at `a` under the flags `g`: within the
   * auxiliary window, or within the video window and the same bank, if the addresses agree modulo
   * 0x800; in dynamic RAM at the same address, also if the write went under the ROM. The boot
   * override lets nothing be written and hides everything.
   */
  predicate Aliases(h: Flags, b: address, g: Flags, a: address) {
    && !h.boot && !g.boot
    && if InAux(g, a) then InAux(h, b) && a % 0x800 == b % 0x800
       else if InRom(g, a) then false
       else if InVideo(g, a) then InVideo(h, b) && h.attr == g.attr && a % 0x800 == b % 0x800
       else a == b && !InAux(h, b) && !InVideo(h, b)
  }

  /** Address `a` shows the ROM. */
  predicate ShowsRom(f: Flags, a: address) { f.boot || InRom(f, a) }

  /**
   * Two addresses meet in one cell exactly as `Aliases` says, whatever the switches were at the
   * write and are at the read; two reads also meet in the ROM, which repeats every 0x1000 bytes.
   */
  lemma NoOtherAliases(h: Flags, b: address, g: Flags, a: address)
    ensures WriteCell(h, b) == Some(ReadCell(g, a)) <==> Aliases(h, b, g, a)
    ensures ReadCell(h, b) == ReadCell(g, a) <==>
      if ShowsRom(h, b) then ShowsRom(g, a) && a % 0x1000 == b % 0x1000 else Aliases(h, b, g, a)
  {
  }

  /** The value last written where address `a` shows it under the flags `g`. */
  function LastShown(f: Flags, es: seq<Event>, g: Flags, a: address): Option<byte>
    decreases |es|
  {
    if es == [] then None
    else
      var later := LastShown(StepFlags(f, es[0]), es[1..], g, a);
      if later.Some? then later
      else if es[0].Write? && Aliases(f, es[0].a, g, a) then Some(es[0].v)
      else None
  }

  lemma {:induction false} ShowsLast(f: Flags, m: Store, es: seq<Event>, g: Flags, a: address)
    ensures RunStore(f, m, es)(ReadCell(g, a)) == LastShown(f, es, g, a).GetOr(m(ReadCell(g, a)))
    decreases |es|
  {
    hide ReadCell, WriteCell, Aliases;
    if es != [] {
      if es[0].Write? {
        NoOtherAliases(f, es[0].a, g, a);
      }
      ShowsLast(StepFlags(f, es[0]), StepStore(f, m, es[0]), es[1..], g, a);
    }
  }

  /**
   * What a read returns after any history of writes, switches, bank changes and restarts: the last
   * value written to an address that was, at that moment, an alias of the one read now, and
   * without one the first contents.
   */
  lemma ReadsLastWrite(f: Flags, m: Store, es: seq<Event>, a: address)
    ensures var g := RunFlags(f, es);
      RunStore(f, m, es)(ReadCell(g, a)) == LastShown(f, es, g, a).GetOr(m(ReadCell(g, a)))
  {
    ShowsLast(f, m, es, RunFlags(f, es), a);
  }

  /** What the ROM shows, whatever has happened: its 0x1000 bytes, repeated through the address space. */
  lemma ReadsRom(f: Flags, m: Store, es: seq<Event>, a: address)
    requires ShowsRom(RunFlags(f, es), a)
    ensures RunStore(f, m, es)(ReadCell(RunFlags(f, es), a)) == m(Cell(Rom, a % 0x1000))
  {
    RomIsConstant(f, m, es, a % 0x1000);
  }

  /** The physical memories of a computer that is switched on: zeros, and the ROM. */
  function SwitchedOn(rom: seq<byte>): Store
    requires |rom| == 0x1000
  {
    (c: Cell) => if c.chip == Rom && c.offset < 0x1000 then rom[c.offset] else 0
  }

  /**
   * What the CPU reads after any history since power-on: all over the address space the ROM while
   * the boot override holds, the ROM at C000-CFFF while the memory is not switched, and elsewhere
   * the last value written there, or 0.
   */
  lemma ReadsSincePowerOn(rom: seq<byte>, es: seq<Event>, a: address)
    requires |rom| == 0x1000
    ensures var f := Flags(false, false, true);
      var g := RunFlags(f, es);
      RunStore(f, SwitchedOn(rom), es)(ReadCell(g, a)) ==
        if g.boot then rom[a % 0x1000]
        else if !g.switched && 0xC000 <= a < 0xD000 then rom[a - 0xC000]
        else LastShown(f, es, g, a).GetOr(0)
  {
    var f := Flags(false, false, true);
    ReadsLastWrite(f, SwitchedOn(rom), es, a);
    if ShowsRom(RunFlags(f, es), a) {
      ReadsRom(f, SwitchedOn(rom), es, a);
    }
  }

  // The switches, by the last event that concerns them.

  function LastSwitch(es: seq<Event>): Option<bool> {
    if es == [] then None
    else if es[|es| - 1].MemSwitch? then Some(es[|es| - 1].on)
    else if es[|es| - 1].BusRestart? then Some(false)
    else LastSwitch(es[..|es| - 1])
  }

  function LastBank(es: seq<Event>): Option<bool> {
    if es == [] then None
    else if es[|es| - 1].VideoBank? then Some(es[|es| - 1].attr)
    else if es[|es| - 1].VideoRestart? then Some(false)
    else LastBank(es[..|es| - 1])
  }

  function LastBoot(es: seq<Event>): Option<bool> {
    if es == [] then None
    else if es[|es| - 1].BusRestart? then Some(true)
    else if es[|es| - 1].IoAccess? then Some(false)
    else LastBoot(es[..|es| - 1])
  }

  lemma {:induction false} RunFlagsLast(f: Flags, es: seq<Event>)
    requires es != []
    ensures RunFlags(f, es) == StepFlags(RunFlags(f, es[..|es| - 1]), es[|es| - 1])
    decreases |es|
  {
    if |es| > 1 {
      RunFlagsLast(StepFlags(f, es[0]), es[1..]);
      assert es[1..][..|es| - 2] == es[..|es| - 1][1..];
    }
  }

  /** The memory switch, the attribute bank and the boot override are what the last event on each said. */
  lemma {:induction false} SwitchesTell(f: Flags, es: seq<Event>)
    ensures RunFlags(f, es) ==
      Flags(LastSwitch(es).GetOr(f.switched), LastBank(es).GetOr(f.attr), LastBoot(es).GetOr(f.boot))
    decreases |es|
  {
    if es != [] {
      RunFlagsLast(f, es);
      SwitchesTell(f, es[..|es| - 1]);
    }
  }

  /** A write to the video window lands in the memory of the bank selected last, where the display finds it. */
  lemma VideoWrites(f: Flags, es: seq<Event>, a: address)
    requires 0xD000 <= a < 0xE000
    requires !LastBoot(es).GetOr(f.boot) && !LastSwitch(es).GetOr(f.switched)
    ensures WriteCell(RunFlags(f, es), a) ==
      Some(Cell(if LastBank(es).GetOr(f.attr) then VideoAttr else VideoChar, if a < 0xD800 then a - 0xD000 else a - 0xD800))
  {
    SwitchesTell(f, es);
  }

  /** The same by position: a write shows at `a` in the end if it aliases and no later one does. */
  lemma {:induction false} LastIsShown(f: Flags, es: seq<Event>, g: Flags, a: address, i: nat)
    requires i < |es| && es[i].Write? && Aliases(RunFlags(f, es[..i]), es[i].a, g, a)
    requires forall k :: i < k < |es| && es[k].Write? ==> !Aliases(RunFlags(f, es[..k]), es[k].a, g, a)
    ensures LastShown(f, es, g, a) == Some(es[i].v)
    decreases |es|
  {
    hide Aliases;
    var t, rest := StepFlags(f, es[0]), es[1..];
    forall k | 0 < k < |es| ensures RunFlags(f, es[..k]) == RunFlags(t, rest[..k - 1]) {
      assert es[..k][1..] == rest[..k - 1];
    }
    if i > 0 {
      forall k | i - 1 < k < |rest| && rest[k].Write? ensures !Aliases(RunFlags(t, rest[..k]), rest[k].a, g, a) {
        assert rest[k] == es[k + 1];
      }
      LastIsShown(t, rest, g, a, i - 1);
    } else {
      forall k | 0 <= k < |rest| && rest[k].Write? ensures !Aliases(RunFlags(t, rest[..k]), rest[k].a, g, a) {
        assert rest[k] == es[k + 1];
      }
      NoneShown(t, rest, g, a);
    }
  }

  lemma {:induction false} NoneShown(f: Flags, es: seq<Event>, g: Flags, a: address)
    requires forall k :: 0 <= k < |es| && es[k].Write? ==> !Aliases(RunFlags(f, es[..k]), es[k].a, g, a)
    ensures LastShown(f, es, g, a) == None
    decreases |es|
  {
    hide Aliases;
    if es != [] {
      var t, rest := StepFlags(f, es[0]), es[1..];
      assert es[..0] == [];
      forall k | 0 <= k < |rest| && rest[k].Write? ensures !Aliases(RunFlags(t, rest[..k]), rest[k].a, g, a) {
        assert rest[k] == es[k + 1] && es[..k + 1][1..] == rest[..k];
      }
      NoneShown(t, rest, g, a);
    }
  }

  /** The ROM never changes. */
  lemma {:induction false} RomIsConstant(f: Flags, m: Store, es: seq<Event>, offset: nat)
    ensures RunStore(f, m, es)(Cell(Rom, offset)) == m(Cell(Rom, offset))
    decreases |es|
  {
    if es != [] {
      RomIsConstant(StepFlags(f, es[0]), StepStore(f, m, es[0]), es[1..], offset);
    }
  }

  predicate Quiet(es: seq<Event>) {
    forall e :: e in es ==> !e.IoAccess?
  }

  /** While the boot override holds nothing is written; only a restart brings it back. */
  lemma {:induction false} BootDropsWrites(f: Flags, m: Store, es: seq<Event>, c: Cell)
    requires f.boot && Quiet(es)
    ensures RunStore(f, m, es)(c) == m(c) && RunFlags(f, es).boot
    decreases |es|
  {
    if es != [] {
      BootDropsWrites(StepFlags(f, es[0]), StepStore(f, m, es[0]), es[1..], c);
    }
  }

  lemma {:induction false} BootStaysGone(f: Flags, es: seq<Event>)
    requires !f.boot && forall e :: e in es ==> !e.BusRestart?
    ensures !RunFlags(f, es).boot
    decreases |es|
  {
    if es != [] {
      BootStaysGone(StepFlags(f, es[0]), es[1..]);
    }
  }

  /** The two halves of the auxiliary and of the video window are the same cells. */
  lemma Mirrors(f: Flags, a: address)
    requires !f.boot && !f.switched
    requires 0xB000 <= a < 0xB800 || 0xD000 <= a < 0xD800
    ensures ReadCell(f, a) == ReadCell(f, a + 0x800) && WriteCell(f, a) == WriteCell(f, a + 0x800)
  {
  }

  /** A value written under the ROM is not visible there until the memory is switched. */
  lemma UnderRom(f: Flags, m: Store, a: address, v: byte)
    requires !f.boot && !f.switched && 0xC000 <= a < 0xD000
    ensures var m' := StepStore(f, m, Write(a, v));
      m'(ReadCell(f, a)) == m(ReadCell(f, a)) && m'(ReadCell(StepFlags(f, MemSwitch(true)), a)) == v
  {
  }

  // ---- The program: slots and arrays ----

  /** A window of the upper map; a ROM window has no write handler. */
  datatype Slot = Slot(base: nat, top: nat, chip: Chip)

  const SLOTS: seq<Slot> := [
    Slot(0xB000, 0xB800, Aux), Slot(0xB800, 0xC000, Aux), Slot(0xC000, 0xD000, Rom),
    Slot(0xD000, 0xD800, VideoChar), Slot(0xD800, 0xE000, VideoChar)]

  class Memory {
    const dynamicRam: array<byte>
    const auxRam: array<byte>
    const memChar: array<byte>
    const memAttr: array<byte>
    const bios: array<byte>
    var video: array<byte>
    var isMemSwitched: bool
    var isBiosRomSwitched: bool

    ghost predicate Valid()
      reads this
    {
      && dynamicRam.Length == DYNAMIC_SIZE && auxRam.Length == AUX_SIZE && bios.Length == ROM_SIZE
      && memChar.Length == VIDEO_SIZE && memAttr.Length == VIDEO_SIZE
      && auxRam != memChar && auxRam != memAttr && memChar != memAttr
      && (video == memChar || video == memAttr)
    }

    ghost function Switches(): Flags
      reads this
    {
      Flags(isMemSwitched, video == memAttr, isBiosRomSwitched)
    }

    /** The contents of a physical cell. */
    ghost function At(c: Cell): byte
      requires Valid() && c.Ok()
      reads this, dynamicRam, auxRam, memChar, memAttr, bios
    {
      match c.chip
      case Dynamic => dynamicRam[c.offset]
      case Aux => auxRam[c.offset]
      case VideoChar => memChar[c.offset]
      case VideoAttr => memAttr[c.offset]
      case Rom => bios[c.offset]
    }

    constructor (rom: seq<byte>)
      requires |rom| == ROM_SIZE
      ensures Valid() && Switches() == Flags(false, false, true)
      ensures forall c: Cell :: c.Ok() ==> At(c) == if c.chip == Rom then rom[c.offset] else 0
    {
      dynamicRam := new byte[DYNAMIC_SIZE](_ => 0);
      auxRam := new byte[AUX_SIZE](_ => 0);
      memChar := new byte[VIDEO_SIZE](_ => 0);
      memAttr := new byte[VIDEO_SIZE](_ => 0);
      bios := new byte[ROM_SIZE](i requires 0 <= i < ROM_SIZE => rom[i]);
      video := memChar;
      isMemSwitched, isBiosRomSwitched := false, true;
    }

    /** `bus_mem_read`: the first slot that contains the address, else dynamic RAM. */
    method Read(a: address) returns (v: byte)
      requires Valid()
      ensures v == At(ReadCell(Switches(), a))
      ensures isBiosRomSwitched || (!isMemSwitched && 0xC000 <= a < 0xD000) ==> v == bios[a % 0x1000]
    {
      if isBiosRomSwitched {
        return bios[a % ROM_SIZE];
      }
      if !isMemSwitched {
        for i := 0 to |SLOTS|
          invariant forall k :: 0 <= k < i ==> !(SLOTS[k].base <= a < SLOTS[k].top)
        {
          if SLOTS[i].base <= a < SLOTS[i].top {
            var o := a - SLOTS[i].base;
            match SLOTS[i].chip {
              case Aux => return auxRam[o % AUX_SIZE];
              case Rom => return bios[o];
              case VideoChar => return video[o];
              case _ =>
            }
          }
        }
        NoSlot(a);
      }
      v := dynamicRam[a];
    }

    static lemma NoSlot(a: address)
      requires forall k :: 0 <= k < |SLOTS| ==> !(SLOTS[k].base <= a < SLOTS[k].top)
      ensures a < 0xB000 || a >= 0xE000
    {
      assert !(SLOTS[0].base <= a < SLOTS[0].top) && !(SLOTS[1].base <= a < SLOTS[1].top)
          && !(SLOTS[2].base <= a < SLOTS[2].top) && !(SLOTS[3].base <= a < SLOTS[3].top)
          && !(SLOTS[4].base <= a < SLOTS[4].top);
    }

    /** `bus_mem_write`: a slot without a write handler falls through to dynamic RAM. */
    method Write(a: address, v: byte)
      requires Valid()
      modifies dynamicRam, auxRam, memChar, memAttr
      ensures Valid()
      ensures forall c: Cell :: c.Ok() ==>
        At(c) == if WriteCell(Switches(), a) == Some(c) then v else old(At(c))
    {
      if isBiosRomSwitched {
        return;
      }
      if !isMemSwitched {
        for i := 0 to |SLOTS|
          invariant forall k :: 0 <= k < i && SLOTS[k].chip != Rom ==> !(SLOTS[k].base <= a < SLOTS[k].top)
        {
          if SLOTS[i].base <= a < SLOTS[i].top {
            var o := a - SLOTS[i].base;
            match SLOTS[i].chip {
              case Aux =>
                auxRam[o % AUX_SIZE] := v;
                return;
              case VideoChar =>
                video[o] := v;
                return;
              case _ =>
            }
          }
        }
        NoWriteSlot(a);
      }
      dynamicRam[a] := v;
    }

    static lemma NoWriteSlot(a: address)
      requires forall k :: 0 <= k < |SLOTS| && SLOTS[k].chip != Rom ==> !(SLOTS[k].base <= a < SLOTS[k].top)
      ensures a < 0xB000 || a >= 0xE000 || 0xC000 <= a < 0xD000
    {
      assert SLOTS[0].chip != Rom && SLOTS[1].chip != Rom && SLOTS[3].chip != Rom && SLOTS[4].chip != Rom;
      assert !(SLOTS[0].base <= a < SLOTS[0].top) && !(SLOTS[1].base <= a < SLOTS[1].top)
          && !(SLOTS[3].base <= a < SLOTS[3].top) && !(SLOTS[4].base <= a < SLOTS[4].top);
    }

    method MemSwitch(on: bool)
      requires Valid()
      modifies this`isMemSwitched
      ensures Valid() && Switches() == StepFlags(old(Switches()), Event.MemSwitch(on))
    {
      isMemSwitched := on;
    }

    method VideoBank(attr: bool)
      requires Valid()
      modifies this`video
      ensures Valid() && Switches() == StepFlags(old(Switches()), Event.VideoBank(attr))
    {
      video := if attr then memAttr else memChar;
    }

    /** `video_restart`. */
    method VideoReset()
      requires Valid()
      modifies this`video
      ensures Valid() && Switches() == StepFlags(old(Switches()), VideoRestart)
    {
      video := memChar;
    }

    /** Every I/O access, in either direction, ends the boot override. */
    method IoAccess()
      requires Valid()
      modifies this`isBiosRomSwitched
      ensures Valid() && Switches() == StepFlags(old(Switches()), Event.IoAccess)
    {
      isBiosRomSwitched := false;
    }

    method Restart()
      requires Valid()
      modifies this`isMemSwitched, this`isBiosRomSwitched
      ensures Valid() && Switches() == StepFlags(old(Switches()), BusRestart)
    {
      isMemSwitched, isBiosRomSwitched := false, true;
    }
  }
}
