/** The path of a keystroke: keyboard queue, receive queue of SIO/2 channel B, CPU. */
module Serial {
  import opened Bytes
  import opened Interrupts

  // ---- Keyboard ----

  const KEYBOARD_BOUND := 7

  /** What the key table says about a scancode. */
  datatype Association = Unmapped | Key(code: byte) | Modifier(mask: nat) {
    predicate Ok() {
      Modifier? ==> mask == 1 || mask == 2 || mask == 4 || mask == 8
    }
  }

  datatype Keyboard = Keyboard(fifo: seq<byte>, modifiers: byte)

  /** Four NULs for the BIOS to flush, and no modifier held. */
  const KEYBOARD_INIT := Keyboard([0, 0, 0, 0], 0xC0)

  /** A key is queued as a pair, if there is room for both bytes; a release of it is ignored. */
  predicate Accepts(k: Keyboard, a: Association, up: bool) {
    a.Key? && !up && KEYBOARD_BOUND - |k.fifo| >= 2
  }

  function Toggle(b: byte, mask: nat): byte
    requires IsMask(mask)
  {
    if Bit(b, mask) then ClearBit(b, mask) else SetBit(b, mask)
  }

  /** Modifiers toggle on every event, press or release. */
  function HandleEvent(k: Keyboard, a: Association, up: bool): Keyboard
    requires a.Ok()
  {
    match a
    case Unmapped => k
    case Key(code) => if Accepts(k, a, up) then k.(fifo := k.fifo + [code, k.modifiers]) else k
    case Modifier(mask) => k.(modifiers := Toggle(k.modifiers, mask))
  }

  /**
   * What a key event does. A mapped key that goes down is queued as the pair of its code and the
   * modifiers if at most five bytes are queued; its release is ignored. A modifier flips exactly
   * its own bit, pressed or released.
   */
  lemma KeyTells(k: Keyboard, a: Association, up: bool)
    requires a.Ok()
    ensures var t := HandleEvent(k, a, up);
      match a
      case Unmapped => t == k
      case Key(code) =>
        t.modifiers == k.modifiers && t.fifo == if !up && |k.fifo| <= 5 then k.fifo + [code, k.modifiers] else k.fifo
      case Modifier(mask) =>
        t.fifo == k.fifo && forall m | IsMask(m) :: Bit(t.modifiers, m) == (Bit(k.modifiers, m) != (m == mask))
  {
    if a.Modifier? {
      forall m | IsMask(m)
        ensures Bit(Toggle(k.modifiers, a.mask), m) == (Bit(k.modifiers, m) != (m == a.mask))
      {
        FlipsOne(k.modifiers, a.mask, m);
      }
    }
  }

  lemma HalfOf(x: nat, bit: nat, rest: nat)
    requires bit < 2
    ensures x == bit + 2 * rest <==> x % 2 == bit && x / 2 == rest
  {
  }

  lemma Halves(b: byte)
    ensures b / 4 == b / 2 / 2 && b / 8 == b / 4 / 2 && b / 16 == b / 8 / 2
  {
  }

  /** The four low bits of a byte and what is above them. */
  lemma Digits(b: byte, b0: nat, b1: nat, b2: nat, b3: nat, h: nat)
    requires b0 < 2 && b1 < 2 && b2 < 2 && b3 < 2
    ensures b == b0 + 2 * (b1 + 2 * (b2 + 2 * (b3 + 2 * h))) <==>
      b % 2 == b0 && b / 2 % 2 == b1 && b / 4 % 2 == b2 && b / 8 % 2 == b3 && b / 16 == h
  {
    Halves(b);
    HalfOf(b, b0, b1 + 2 * (b2 + 2 * (b3 + 2 * h)));
    HalfOf(b / 2, b1, b2 + 2 * (b3 + 2 * h));
    HalfOf(b / 4, b2, b3 + 2 * h);
    HalfOf(b / 8, b3, h);
  }

  /** The high bits depend on what is above the low ones. */
  lemma HighBits(b: byte)
    ensures Bit(b, 16) == (b / 16 % 2 == 1) && Bit(b, 32) == (b / 16 / 2 % 2 == 1)
    ensures Bit(b, 64) == (b / 16 / 4 % 2 == 1) && Bit(b, 128) == (b / 16 / 8 % 2 == 1)
  {
  }

  lemma FlipsOne(b: byte, mask: nat, m: nat)
    requires (mask == 1 || mask == 2 || mask == 4 || mask == 8) && IsMask(m)
    ensures Bit(Toggle(b, mask), m) == (Bit(b, m) != (m == mask))
  {
    var t := Toggle(b, mask);
    var b0, b1, b2, b3 := b % 2, b / 2 % 2, b / 4 % 2, b / 8 % 2;
    Digits(b, b0, b1, b2, b3, b / 16);
    var t0, t1 := if mask == 1 then 1 - b0 else b0, if mask == 2 then 1 - b1 else b1;
    var t2, t3 := if mask == 4 then 1 - b2 else b2, if mask == 8 then 1 - b3 else b3;
    ToggleIs(b, mask);
    Digits(t, t0, t1, t2, t3, b / 16);
    HighBits(b);
    HighBits(t);
    LowBits(b);
    LowBits(t);
    hide Bit, Toggle;
  }

  lemma LowBits(b: byte)
    ensures Bit(b, 1) == (b % 2 == 1) && Bit(b, 2) == (b / 2 % 2 == 1)
    ensures Bit(b, 4) == (b / 4 % 2 == 1) && Bit(b, 8) == (b / 8 % 2 == 1)
  {
  }

  lemma ToggleIs(b: byte, mask: nat)
    requires mask == 1 || mask == 2 || mask == 4 || mask == 8
    ensures Toggle(b, mask) == if Bit(b, mask) then b - mask else b + mask
  {
  }

  // ---- SIO/2 ----

  const CHANNEL_BOUND := 3

  type ReadRegs = r: seq<byte> | |r| == 3 witness [0, 0, 0]

  datatype Channel = Channel(
    regIndex: nat, regs: ReadRegs, rx: seq<byte>, tx: seq<byte>,
    rxEnabled: bool, txEnabled: bool, rxIntEnabled: bool)

  const CHANNEL_INIT := Channel(0, [4, 0, 0], [], [], false, false, false)

  datatype Reading = Reading(channel: Channel, value: byte)

  function ReadData(c: Channel): Reading {
    if c.rx == [] then Reading(c, 0x55)
    else
      var rest := c.rx[1..];
      Reading(c.(rx := rest, regs := if rest == [] then c.regs[0 := ClearBit(c.regs[0], 1)] else c.regs), c.rx[0])
  }

  function WriteData(c: Channel, value: byte): Channel {
    if |c.tx| >= CHANNEL_BOUND then c
    else
      var tx := c.tx + [value];
      c.(tx := tx, regs := if |tx| < CHANNEL_BOUND then c.regs[0 := SetBit(c.regs[0], 4)] else c.regs)
  }

  function ReadControl(c: Channel): byte {
    if c.regIndex >= 3 then 0x55 else c.regs[c.regIndex]
  }

  /** What is shared by both channels: the interrupt vector and the latch; `fault` is a failed assertion. */
  datatype Shared = Shared(vector: byte, latch: Latch, fault: bool)

  datatype Written = Written(channel: Channel, shared: Shared)

  /** The command field of a write to register 0 asks for a channel reset. */
  predicate IsReset(c: Channel, value: byte) {
    c.regIndex == 0 && value / 8 % 8 == 3
  }

  function WriteRegister(c: Channel, g: Shared, value: byte): Written {
    match c.regIndex
    case 0 =>
      if value / 8 % 8 == 2 then Written(c, g.(latch := Cancel(g.latch, SIO2)))
      else if value / 8 % 8 == 3 then Written(CHANNEL_INIT, g)
      else Written(c, g)
    case 1 =>
      if value / 8 % 4 == 0 then Written(c.(rxIntEnabled := false), g)
      else if value / 8 % 4 == 1 then Written(c, g)
      else if value / 8 % 4 == 3 then Written(c.(rxIntEnabled := true), g)
      else Written(c, g.(fault := true))
    case 2 => Written(c, g.(vector := value))
    case 3 => Written(c.(rxEnabled := Bit(value, 1)), g)
    case 5 => Written(c.(txEnabled := Bit(value, 8)), g)
    case _ => Written(c, g)
  }

  /** A write to the control port: selects a register, or fills the one selected before. */
  function WriteControl(c: Channel, g: Shared, value: byte): Written {
    var w := WriteRegister(c, g, value);
    if w.shared.fault then w
    else Written(w.channel.(regIndex := if c.regIndex == 0 then value % 8 else 0), w.shared)
  }

  /** A byte offered by the peripheral: taken if there is room, but dropped by a disabled receiver. */
  function Receive(c: Channel, incoming: Option<byte>): Channel {
    if |c.rx| < CHANNEL_BOUND && incoming.Some? && c.rxEnabled then c.(rx := c.rx + [incoming.value]) else c
  }

  function Signal(c: Channel, g: Shared): Written {
    if c.rx == [] then Written(c, g)
    else Written(c.(regs := c.regs[0 := SetBit(c.regs[0], 1)]),
                 if c.rxIntEnabled then g.(latch := Request(g.latch, SIO2, g.vector)) else g)
  }

  /** The peripheral is offered the next byte and may refuse it. */
  function Transmit(c: Channel, taken: bool): Channel {
    if c.txEnabled && c.tx != [] && taken then c.(tx := c.tx[1..]) else c
  }

  /** Reading data: the oldest byte, which is removed; 0x55, and no change, if there is none. */
  lemma ReadTells(c: Channel)
    ensures c.rx == [] ==> ReadData(c) == Reading(c, 0x55)
    ensures c.rx != [] ==> ReadData(c) == Reading(c.(rx := c.rx[1..], regs := ReadData(c).channel.regs), c.rx[0])
  {
  }

  /**
   * Two bytes to the control port, the number of a register and then its value. In between the port
   * shows that register, or 0x55 for one that cannot be read. The value of register 1 sets the
   * receive interrupt, 2 the vector, 3 the receiver by bit 0, 5 the transmitter by bit 3, and each
   * of them nothing else; the interrupt mode 2 of register 1 ends the emulator.
   */
  lemma RegisterTells(c: Channel, g: Shared, r: byte, value: byte)
    requires c.regIndex == 0 && 1 <= r < 8 && !g.fault
    ensures var w := WriteControl(c, g, r);
      var t := WriteControl(w.channel, w.shared, value);
      && w == Written(c.(regIndex := r), g)
      && ReadControl(w.channel) == (if r == 1 || r == 2 then c.regs[r] else 0x55)
      && (t.shared.fault <==> r == 1 && value / 8 % 4 == 2)
      && (!t.shared.fault ==>
            && t.channel == c.(
              rxEnabled := if r == 3 then value % 2 == 1 else c.rxEnabled,
              txEnabled := if r == 5 then value / 8 % 2 == 1 else c.txEnabled,
              rxIntEnabled := if r == 1 && value / 8 % 4 != 1 then value / 8 % 4 == 3 else c.rxIntEnabled)
            && t.shared == g.(vector := if r == 2 then value else g.vector))
  {
  }

  /**
   * A byte to the control port while no register is selected: command 2 takes the SIO interrupt
   * back, command 3 empties the channel and disables it, and the low bits select a register.
   */
  lemma CommandTells(c: Channel, g: Shared, value: byte)
    requires c.regIndex == 0 && !g.fault
    ensures var t := WriteControl(c, g, value);
      && t.channel == (if value / 8 % 8 == 3 then Channel(value % 8, [4, 0, 0], [], [], false, false, false)
                       else c.(regIndex := value % 8))
      && !t.shared.fault && t.shared.vector == g.vector
      && (value / 8 % 8 != 2 ==> t.shared == g)
      && (value / 8 % 8 == 2 ==> t.shared.latch.irqs == g.latch.irqs[1 := Irq(false, g.latch.irqs[1].code)])
  {
  }

  // ---- The whole path ----

  datatype System = System(keyboard: Keyboard, a: Channel, b: Channel, shared: Shared)

  /** What the poll takes out of the keyboard: nothing while the receive queue is full. */
  function Offered(s: System): Option<byte> {
    if |s.b.rx| < CHANNEL_BOUND && s.keyboard.fifo != [] then Some(s.keyboard.fifo[0]) else None
  }

  function Poll(s: System, incoming: Option<byte>, takenA: bool, takenB: bool): System {
    var keyboard := if Offered(s).Some? then s.keyboard.(fifo := s.keyboard.fifo[1..]) else s.keyboard;
    var a := Signal(Receive(s.a, incoming), s.shared);
    var b := Signal(Receive(s.b, Offered(s)), a.shared);
    System(keyboard, Transmit(a.channel, takenA), Transmit(b.channel, takenB), b.shared)
  }

  datatype Event =
    | KeyEvent(association: Association, up: bool)
    | PollEvent(incoming: Option<byte>, takenA: bool, takenB: bool)
    | ReadEvent(onB: bool) | WriteEvent(onB: bool, value: byte) | ControlEvent(onB: bool, value: byte)
  {
    predicate Ok() {
      KeyEvent? ==> association.Ok()
    }
  }

  function Step(s: System, e: Event): System
    requires e.Ok()
  {
    if s.shared.fault then s
    else match e
    case KeyEvent(a, up) => s.(keyboard := HandleEvent(s.keyboard, a, up))
    case PollEvent(incoming, takenA, takenB) => Poll(s, incoming, takenA, takenB)
    case ReadEvent(onB) => if onB then s.(b := ReadData(s.b).channel) else s.(a := ReadData(s.a).channel)
    case WriteEvent(onB, v) => if onB then s.(b := WriteData(s.b, v)) else s.(a := WriteData(s.a, v))
    case ControlEvent(onB, v) =>
      if onB then var w := WriteControl(s.b, s.shared, v); s.(b := w.channel, shared := w.shared)
      else var w := WriteControl(s.a, s.shared, v); s.(a := w.channel, shared := w.shared)
  }

  // ---- Invariant ----

  /** Between calls "character available" is shown exactly when the receive queue is not empty. */
  predicate ChannelInv(c: Channel) {
    && c.regIndex < 8 && |c.rx| <= CHANNEL_BOUND && |c.tx| <= CHANNEL_BOUND
    && (Bit(c.regs[0], 1) <==> c.rx != [])
  }

  predicate Inv(s: System) {
    ChannelInv(s.a) && ChannelInv(s.b) && |s.keyboard.fifo| <= KEYBOARD_BOUND
  }

  lemma OtherBits(b: byte)
    ensures Bit(SetBit(b, 4), 1) == Bit(b, 1)
  {
  }

  lemma PortSteps(c: Channel, g: Shared, value: byte)
    requires ChannelInv(c)
    ensures ChannelInv(ReadData(c).channel) && ChannelInv(WriteData(c, value))
    ensures ChannelInv(WriteControl(c, g, value).channel)
  {
    OtherBits(c.regs[0]);
  }

  lemma PollSteps(c: Channel, g: Shared, incoming: Option<byte>, taken: bool)
    requires ChannelInv(c)
    ensures ChannelInv(Transmit(Signal(Receive(c, incoming), g).channel, taken))
  {
  }

  lemma StepKeeps(s: System, e: Event)
    requires Inv(s) && e.Ok()
    ensures Inv(Step(s, e))
  {
    match e
    case KeyEvent(_, _) =>
    case PollEvent(incoming, takenA, takenB) =>
      PollSteps(s.a, s.shared, incoming, takenA);
      PollSteps(s.b, Signal(Receive(s.a, incoming), s.shared).shared, Offered(s), takenB);
    case ReadEvent(onB) => PortSteps(if onB then s.b else s.a, s.shared, 0);
    case WriteEvent(onB, v) => PortSteps(if onB then s.b else s.a, s.shared, v);
    case ControlEvent(onB, v) => PortSteps(if onB then s.b else s.a, s.shared, v);
  }

  function Run(s: System, es: seq<Event>): System
    requires forall e :: e in es ==> e.Ok()
    decreases |es|
  {
    if es == [] then s else Run(Step(s, es[0]), es[1..])
  }

  lemma {:induction false} RunKeeps(s: System, es: seq<Event>)
    requires Inv(s) && forall e :: e in es ==> e.Ok()
    ensures Inv(Run(s, es))
    decreases |es|
  {
    if es != [] {
      StepKeeps(s, es[0]);
      RunKeeps(Step(s, es[0]), es[1..]);
    }
  }

  /** The control port of channel B shows a character exactly when there is one to read. */
  lemma ControlShowsAvailable(s: System, es: seq<Event>)
    requires Inv(s) && forall e :: e in es ==> e.Ok()
    ensures var b := Run(s, es).b;
      b.regIndex == 0 ==> (Bit(ReadControl(b), 1) <==> b.rx != [])
  {
    RunKeeps(s, es);
  }

  /** A poll requests the SIO interrupt, with the vector, exactly if an enabled channel has a character. */
  lemma PollInterrupts(s: System, incoming: Option<byte>, takenA: bool, takenB: bool)
    ensures var t := Poll(s, incoming, takenA, takenB);
      var wanted := (s.a.rxIntEnabled && t.a.rx != []) || (s.b.rxIntEnabled && t.b.rx != []);
      && t.shared.latch.irqs[SIO2] == (if wanted then Irq(true, s.shared.vector) else s.shared.latch.irqs[SIO2])
      && (!wanted ==> t.shared == s.shared)
  {
  }

  // ---- Conservation ----

  /** The bytes on their way, oldest first. */
  function InTransit(s: System): seq<byte> {
    s.b.rx + s.keyboard.fifo
  }

  /** The byte the CPU gets from a non-empty receive queue of channel B. */
  function Delivered(s: System, e: Event): seq<byte> {
    if !s.shared.fault && e.ReadEvent? && e.onB && s.b.rx != [] then [ReadData(s.b).value] else []
  }

  datatype Stroke = Stroke(key: byte, modifiers: byte)

  function Struck(s: System, e: Event): seq<Stroke> {
    if !s.shared.fault && e.KeyEvent? && e.association.Key? && !e.up && |s.keyboard.fifo| <= 5
    then [Stroke(e.association.code, s.keyboard.modifiers)] else []
  }

  function Flatten(ks: seq<Stroke>): seq<byte> {
    if ks == [] then [] else [ks[0].key, ks[0].modifiers] + Flatten(ks[1..])
  }

  /** The bytes a step drops: one polled by a disabled receiver, or a receive queue that is reset. */
  function Lost(s: System, e: Event): seq<byte> {
    if s.shared.fault then []
    else match e
    case PollEvent(_, _, _) => if Offered(s).Some? && !s.b.rxEnabled then [Offered(s).value] else []
    case ControlEvent(onB, v) => if onB && IsReset(s.b, v) then s.b.rx else []
    case _ => []
  }

  lemma PollConserves(s: System, e: Event)
    requires Inv(s) && e.PollEvent? && !s.shared.fault
    ensures |InTransit(Step(s, e))| + |Lost(s, e)| == |InTransit(s)|
    ensures Lost(s, e) == [] ==> InTransit(Step(s, e)) == InTransit(s)
  {
    var t := Step(s, e);
    assert t.b.rx == Receive(s.b, Offered(s)).rx;
    if Offered(s).Some? {
      assert s.keyboard.fifo == [s.keyboard.fifo[0]] + s.keyboard.fifo[1..];
      assert (s.b.rx + [s.keyboard.fifo[0]]) + s.keyboard.fifo[1..] == s.b.rx + s.keyboard.fifo;
    }
  }

  lemma WriteKeepsRx(c: Channel, value: byte)
    ensures WriteData(c, value).rx == c.rx
  {
  }

  lemma ControlKeepsRx(c: Channel, g: Shared, value: byte)
    ensures WriteControl(c, g, value).channel.rx == if IsReset(c, value) then [] else c.rx
  {
  }

  lemma StepConserves(s: System, e: Event)
    requires Inv(s) && e.Ok()
    ensures |Delivered(s, e)| + |InTransit(Step(s, e))| + |Lost(s, e)| == |InTransit(s)| + 2 * |Struck(s, e)|
    ensures Lost(s, e) == [] ==> Delivered(s, e) + InTransit(Step(s, e)) == InTransit(s) + Flatten(Struck(s, e))
  {
    hide WriteControl, WriteData, Poll;
    if e.PollEvent? && !s.shared.fault {
      hide Step;
      PollConserves(s, e);
    } else if e.ControlEvent? {
      ControlKeepsRx(s.b, s.shared, e.value);
    } else if e.WriteEvent? {
      assert WriteData(s.b, e.value).rx == s.b.rx by { WriteKeepsRx(s.b, e.value); }
    } else if Struck(s, e) != [] {
      assert Struck(s, e)[1..] == [];
    }
  }

  function AllDelivered(s: System, es: seq<Event>): seq<byte>
    requires forall e :: e in es ==> e.Ok()
    decreases |es|
  {
    if es == [] then [] else Delivered(s, es[0]) + AllDelivered(Step(s, es[0]), es[1..])
  }

  function AllStruck(s: System, es: seq<Event>): seq<Stroke>
    requires forall e :: e in es ==> e.Ok()
    decreases |es|
  {
    if es == [] then [] else Struck(s, es[0]) + AllStruck(Step(s, es[0]), es[1..])
  }

  function AllLost(s: System, es: seq<Event>): seq<byte>
    requires forall e :: e in es ==> e.Ok()
    decreases |es|
  {
    if es == [] then [] else Lost(s, es[0]) + AllLost(Step(s, es[0]), es[1..])
  }

  lemma {:induction false} FlattenConcat(a: seq<Stroke>, b: seq<Stroke>)
    ensures Flatten(a + b) == Flatten(a) + Flatten(b)
  {
    if a == [] {
      assert a + b == b;
    } else {
      assert (a + b)[1..] == a[1..] + b;
      FlattenConcat(a[1..], b);
    }
  }

  lemma {:induction false} FlattenLength(ks: seq<Stroke>)
    ensures |Flatten(ks)| == 2 * |ks|
  {
    if ks != [] {
      FlattenLength(ks[1..]);
    }
  }

  lemma {:induction false} RunCounts(s: System, es: seq<Event>)
    requires Inv(s) && forall e :: e in es ==> e.Ok()
    ensures |AllDelivered(s, es)| + |InTransit(Run(s, es))| + |AllLost(s, es)| ==
      |InTransit(s)| + 2 * |AllStruck(s, es)|
    decreases |es|
  {
    if es != [] {
      StepConserves(s, es[0]);
      StepKeeps(s, es[0]);
      RunCounts(Step(s, es[0]), es[1..]);
    }
  }

  /** As long as nothing is dropped, bytes move on in order and no pair is split or reordered. */
  lemma {:induction false} RunConserves(s: System, es: seq<Event>)
    requires Inv(s) && (forall e :: e in es ==> e.Ok()) && AllLost(s, es) == []
    ensures AllDelivered(s, es) + InTransit(Run(s, es)) == InTransit(s) + Flatten(AllStruck(s, es))
    decreases |es|
  {
    if es == [] {
      assert InTransit(s) + [] == InTransit(s);
    } else {
      var t := Step(s, es[0]);
      StepConserves(s, es[0]);
      StepKeeps(s, es[0]);
      RunConserves(t, es[1..]);
      FlattenConcat(Struck(s, es[0]), AllStruck(t, es[1..]));
      Splice(Delivered(s, es[0]), InTransit(t), InTransit(s), Flatten(Struck(s, es[0])),
             AllDelivered(t, es[1..]), InTransit(Run(t, es[1..])), Flatten(AllStruck(t, es[1..])));
    }
  }

  lemma Splice(d: seq<byte>, mid: seq<byte>, first: seq<byte>, f: seq<byte>,
               d': seq<byte>, last: seq<byte>, f': seq<byte>)
    requires d + mid == first + f && d' + last == mid + f'
    ensures (d + d') + last == first + (f + f')
  {
    assert (d + d') + last == d + (d' + last) == (d + mid) + f';
  }

  /** After `keyboard_init` and a restart of the SIO. */
  predicate Fresh(s: System) {
    s.keyboard == KEYBOARD_INIT && s.a == CHANNEL_INIT && s.b == CHANNEL_INIT
  }

  /**
   * From a fresh start, over every interleaving of key events, polls, reads and register writes:
   * the bytes the CPU has read, those in the receive queue and those in the keyboard are four
   * NULs and then the accepted (key, modifiers) pairs in order, exactly when no byte was dropped
   * by a disabled receiver or a channel reset.
   */
  lemma Conservation(s: System, es: seq<Event>)
    requires Fresh(s) && forall e :: e in es ==> e.Ok()
    ensures AllLost(s, es) == [] <==>
      AllDelivered(s, es) + Run(s, es).b.rx + Run(s, es).keyboard.fifo == [0, 0, 0, 0] + Flatten(AllStruck(s, es))
  {
    var t := Run(s, es);
    assert AllDelivered(s, es) + t.b.rx + t.keyboard.fifo == AllDelivered(s, es) + InTransit(t);
    assert InTransit(s) == [0, 0, 0, 0];
    FlattenLength(AllStruck(s, es));
    RunCounts(s, es);
    if AllLost(s, es) == [] {
      RunConserves(s, es);
    }
  }

  /** Nothing is dropped if the receiver is enabled at every poll and channel B is never reset. */
  predicate Careful(s: System, es: seq<Event>)
    requires forall e :: e in es ==> e.Ok()
    decreases |es|
  {
    es == [] ||
    ((es[0].PollEvent? ==> s.b.rxEnabled) && (es[0].ControlEvent? && es[0].onB ==> !IsReset(s.b, es[0].value))
     && Careful(Step(s, es[0]), es[1..]))
  }

  lemma {:induction false} CarefulLosesNothing(s: System, es: seq<Event>)
    requires (forall e :: e in es ==> e.Ok()) && Careful(s, es)
    ensures AllLost(s, es) == []
    decreases |es|
  {
    if es != [] {
      CarefulLosesNothing(Step(s, es[0]), es[1..]);
    }
  }

  // ---- Modifiers ----

  function Toggles(es: seq<Event>, mask: nat): nat
    decreases |es|
  {
    if es == [] then 0
    else (if es[0].KeyEvent? && es[0].association == Modifier(mask) then 1 else 0) + Toggles(es[1..], mask)
  }

  lemma {:induction false} FaultStays(s: System, es: seq<Event>)
    requires s.shared.fault && forall e :: e in es ==> e.Ok()
    ensures Run(s, es) == s
    decreases |es|
  {
    if es != [] {
      FaultStays(s, es[1..]);
    }
  }

  lemma StartModifiers(mask: nat)
    requires IsMask(mask)
    ensures Bit(KEYBOARD_INIT.modifiers, mask) <==> mask == 64 || mask == 128
  {
  }

  lemma StepModifiers(s: System, e: Event, mask: nat)
    requires e.Ok() && IsMask(mask) && !s.shared.fault
    ensures Bit(Step(s, e).keyboard.modifiers, mask) ==
      (Bit(s.keyboard.modifiers, mask) != (e.KeyEvent? && e.association == Modifier(mask)))
  {
    hide Bit, WriteControl, HandleEvent;
    if e.KeyEvent? {
      KeyTells(s.keyboard, e.association, e.up);
    }
  }

  /** A modifier bit tells whether its key has had an odd number of events. */
  lemma {:induction false} ModifiersTell(s: System, es: seq<Event>, mask: nat)
    requires IsMask(mask) && (forall e :: e in es ==> e.Ok()) && !Run(s, es).shared.fault
    ensures Bit(Run(s, es).keyboard.modifiers, mask) ==
      (Bit(s.keyboard.modifiers, mask) != (Toggles(es, mask) % 2 == 1))
    decreases |es|
  {
    hide Step, Bit;
    if s.shared.fault {
      FaultStays(s, es);
    } else if es != [] {
      StepModifiers(s, es[0], mask);
      ModifiersTell(Step(s, es[0]), es[1..], mask);
    }
  }

  lemma {:induction false} NoSuchKey(es: seq<Event>, mask: nat)
    requires mask >= 16 && forall e :: e in es ==> e.Ok()
    ensures Toggles(es, mask) == 0
    decreases |es|
  {
    if es != [] {
      assert es[0] in es;
      NoSuchKey(es[1..], mask);
    }
  }

  /** Since the start the two highest bits are set, the four lowest tell their keys, the others are clear. */
  lemma ModifiersSinceStart(s: System, es: seq<Event>, mask: nat)
    requires Fresh(s) && IsMask(mask) && (forall e :: e in es ==> e.Ok()) && !Run(s, es).shared.fault
    ensures Bit(Run(s, es).keyboard.modifiers, mask) <==>
      mask == 64 || mask == 128 || (mask < 16 && Toggles(es, mask) % 2 == 1)
  {
    hide Bit, Run, Toggles;
    ModifiersTell(s, es, mask);
    StartModifiers(mask);
    if mask >= 16 {
      NoSuchKey(es, mask);
    }
  }

  // ---- Transmission ----

  function Side(s: System, onB: bool): Channel {
    if onB then s.b else s.a
  }

  /** The byte a poll hands to the peripheral of a channel. */
  function Sent(s: System, e: Event, onB: bool): seq<byte> {
    if !s.shared.fault && e.PollEvent? && Side(s, onB).txEnabled && Side(s, onB).tx != [] && (if onB then e.takenB else e.takenA)
    then [Side(s, onB).tx[0]] else []
  }

  /** The byte a write of the CPU adds: none if three are waiting. */
  function Added(s: System, e: Event, onB: bool): seq<byte> {
    if !s.shared.fault && e.WriteEvent? && e.onB == onB && |Side(s, onB).tx| < 3 then [e.value] else []
  }

  /** The channel is reset. */
  predicate Resets(s: System, e: Event, onB: bool) {
    !s.shared.fault && e.ControlEvent? && e.onB == onB && IsReset(Side(s, onB), e.value)
  }

  lemma StepTransmits(s: System, e: Event, onB: bool)
    requires e.Ok() && !Resets(s, e, onB)
    ensures Sent(s, e, onB) + Side(Step(s, e), onB).tx == Side(s, onB).tx + Added(s, e, onB)
  {
    hide ReadData, ClearBit, SetBit, Cancel, Request;
    ReadTells(Side(s, onB));
    if e.PollEvent? && Sent(s, e, onB) != [] {
      var tx := Side(s, onB).tx;
      assert tx == [tx[0]] + tx[1..];
    }
  }

  predicate NeverReset(s: System, es: seq<Event>, onB: bool)
    requires forall e :: e in es ==> e.Ok()
    decreases |es|
  {
    es == [] || (!Resets(s, es[0], onB) && NeverReset(Step(s, es[0]), es[1..], onB))
  }

  function AllSent(s: System, es: seq<Event>, onB: bool): seq<byte>
    requires forall e :: e in es ==> e.Ok()
    decreases |es|
  {
    if es == [] then [] else Sent(s, es[0], onB) + AllSent(Step(s, es[0]), es[1..], onB)
  }

  function AllAdded(s: System, es: seq<Event>, onB: bool): seq<byte>
    requires forall e :: e in es ==> e.Ok()
    decreases |es|
  {
    if es == [] then [] else Added(s, es[0], onB) + AllAdded(Step(s, es[0]), es[1..], onB)
  }

  /**
   * Of either channel: what its peripheral has taken and what still waits is what waited at first
   * and what the CPU has added, in order, unless the channel was reset.
   */
  lemma {:induction false} TransmitConserves(s: System, es: seq<Event>, onB: bool)
    requires (forall e :: e in es ==> e.Ok()) && NeverReset(s, es, onB)
    ensures AllSent(s, es, onB) + Side(Run(s, es), onB).tx == Side(s, onB).tx + AllAdded(s, es, onB)
    decreases |es|
  {
    hide Step, Sent, Added, Resets;
    if es == [] {
      assert [] + Side(s, onB).tx == Side(s, onB).tx + [];
    } else {
      var t := Step(s, es[0]);
      StepTransmits(s, es[0], onB);
      TransmitConserves(t, es[1..], onB);
      Splice(Sent(s, es[0], onB), Side(t, onB).tx, Side(s, onB).tx, Added(s, es[0], onB),
             AllSent(t, es[1..], onB), Side(Run(t, es[1..]), onB).tx, AllAdded(t, es[1..], onB));
    }
  }

  // ---- Transmit buffer bit ----

  lemma PortShowsRoom(c: Channel, value: byte)
    requires Bit(c.regs[0], 4)
    ensures Bit(ReadData(c).channel.regs[0], 4) && Bit(WriteData(c, value).regs[0], 4)
  {
    hide Bit, SetBit, ClearBit;
    LowPair(c.regs[0]);
  }

  lemma ControlShowsRoom(c: Channel, g: Shared, value: byte)
    requires Bit(c.regs[0], 4)
    ensures Bit(WriteControl(c, g, value).channel.regs[0], 4)
  {
    hide Cancel, SetBit;
  }

  lemma PollShowsRoom(c: Channel, g: Shared, incoming: Option<byte>, taken: bool)
    requires Bit(c.regs[0], 4)
    ensures Bit(Transmit(Signal(Receive(c, incoming), g).channel, taken).regs[0], 4)
  {
    hide Bit, SetBit, Request;
    LowPair(c.regs[0]);
  }

  lemma StartShowsRoom()
    ensures Bit(CHANNEL_INIT.regs[0], 4)
  {
  }

  lemma LowPair(b: byte)
    ensures Bit(SetBit(b, 1), 4) == Bit(b, 4) == Bit(ClearBit(b, 1), 4) && Bit(SetBit(b, 4), 4)
  {
  }

  /**
   * Register 0 shows an empty transmit buffer in every state since the start, when it does, also
   * while three bytes wait and the next one written would be dropped.
   */
  lemma {:induction false} RoomAlwaysShown(s: System, es: seq<Event>)
    requires Fresh(s) || (Bit(s.a.regs[0], 4) && Bit(s.b.regs[0], 4))
    requires forall e :: e in es ==> e.Ok()
    ensures Bit(Run(s, es).a.regs[0], 4) && Bit(Run(s, es).b.regs[0], 4)
    decreases |es|
  {
    StartShowsRoom();
    hide Bit, ReadData, WriteData, WriteControl, Receive, Signal, Transmit, HandleEvent;
    if es != [] {
      var e := es[0];
      match e {
        case KeyEvent(_, _) =>
        case PollEvent(incoming, takenA, takenB) =>
          PollShowsRoom(s.a, s.shared, incoming, takenA);
          PollShowsRoom(s.b, Signal(Receive(s.a, incoming), s.shared).shared, Offered(s), takenB);
        case ReadEvent(onB) => PortShowsRoom(Side(s, onB), 0);
        case WriteEvent(onB, v) => PortShowsRoom(Side(s, onB), v);
        case ControlEvent(onB, v) => ControlShowsRoom(Side(s, onB), s.shared, v);
      }
      RoomAlwaysShown(Step(s, e), es[1..]);
    }
  }
}
