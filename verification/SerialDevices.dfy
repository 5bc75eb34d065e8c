/** Keyboard and SIO/2 as the program has them: queues, registers and flags updated in place. */
module SerialDevices {
  import opened Bytes
  import opened Fifo
  import I = Interrupts
  import opened Serial

  /** The first entry of the key table for a scancode. */
  function Lookup(table: seq<(int, Association)>, scancode: int): Association {
    if table == [] then Unmapped
    else if table[0].0 == scancode then table[0].1
    else Lookup(table[1..], scancode)
  }

  class KeyboardDevice {
    const fifo: Buffer<byte>
    var modifiers: byte

    ghost predicate Valid()
      reads this, fifo
    {
      fifo.Valid() && fifo.buffer.Length == 8
    }

    ghost function Value(): Keyboard
      requires Valid()
      reads this, fifo, fifo.buffer
    {
      Keyboard(fifo.Contents(), modifiers)
    }

    constructor ()
      ensures Valid() && fresh(fifo) && fresh(fifo.buffer) && Value() == KEYBOARD_INIT
    {
      fifo := new Buffer<byte>(8);
      modifiers := 0xC0;
      new;
      for i := 0 to 4
        invariant fresh(this) && fresh(fifo) && fresh(fifo.buffer) && modifiers == 0xC0
        invariant Valid() && fifo.Contents() == [0, 0, 0, 0][..i]
      {
        fifo.Push(0);
      }
      assert [0, 0, 0, 0][..4] == [0, 0, 0, 0];
    }

    method HandleEvent(table: seq<(int, Association)>, scancode: int, up: bool)
      requires Valid() && forall e :: e in table ==> e.1.Ok()
      modifies this`modifiers, fifo, fifo.buffer
      ensures Valid()
      ensures Lookup(table, scancode).Ok()
      ensures Value() == Serial.HandleEvent(old(Value()), Lookup(table, scancode), up)
    {
      for i := 0 to |table|
        invariant Lookup(table, scancode) == Lookup(table[i..], scancode)
        invariant Valid() && Value() == old(Value())
      {
        if table[i].0 == scancode {
          assert table[i] in table;
          match table[i].1 {
            case Unmapped =>
            case Key(code) =>
              var free := fifo.Free();
              if !up && free >= 2 {
                fifo.Push(code);
                fifo.Push(modifiers);
              }
            case Modifier(mask) => modifiers := Toggle(modifiers, mask);
          }
          return;
        }
      }
    }

    method GetChar() returns (c: Option<byte>)
      requires Valid()
      modifies fifo
      ensures Valid() && modifiers == old(modifiers)
      ensures if old(fifo.Contents()) == [] then c == None && fifo.Contents() == []
              else c == Some(old(fifo.Contents())[0]) && fifo.Contents() == old(fifo.Contents())[1..]
    {
      c := None;
      var empty := fifo.IsEmpty();
      if !empty {
        var v := fifo.Pop();
        c := Some(v);
      }
    }
  }

  class ChannelDevice {
    var regIndex: nat
    const regs: array<byte>
    const rxFifo: Buffer<byte>
    const txFifo: Buffer<byte>
    var rxEnabled: bool
    var txEnabled: bool
    var rxIntEnabled: bool

    ghost predicate Valid()
      reads this, rxFifo, txFifo
    {
      && regs.Length == 3 && rxFifo.Valid() && txFifo.Valid()
      && rxFifo.buffer.Length == 4 && txFifo.buffer.Length == 4
      && rxFifo != txFifo && rxFifo.buffer != txFifo.buffer
      && regs != rxFifo.buffer && regs != txFifo.buffer
    }

    ghost function Value(): Channel
      requires Valid()
      reads this, regs, rxFifo, rxFifo.buffer, txFifo, txFifo.buffer
    {
      Channel(regIndex, regs[..], rxFifo.Contents(), txFifo.Contents(), rxEnabled, txEnabled, rxIntEnabled)
    }

    ghost function Repr(): set<object> {
      {this, regs, rxFifo, rxFifo.buffer, txFifo, txFifo.buffer}
    }

    constructor ()
      ensures Valid() && fresh(Repr()) && Value() == CHANNEL_INIT
    {
      regIndex := 0;
      regs := new byte[3](i => if i == 0 then 4 else 0);
      rxFifo := new Buffer<byte>(4);
      txFifo := new Buffer<byte>(4);
      rxEnabled, txEnabled, rxIntEnabled := false, false, false;
    }

    method Reinit()
      requires Valid()
      modifies Repr()
      ensures Valid() && Value() == CHANNEL_INIT
    {
      regIndex := 0;
      regs[0], regs[1], regs[2] := 4, 0, 0;
      rxFifo.Init();
      txFifo.Init();
      rxEnabled, txEnabled, rxIntEnabled := false, false, false;
    }

    method ReadData() returns (value: byte)
      requires Valid()
      modifies regs, rxFifo
      ensures Valid() && Reading(Value(), value) == Serial.ReadData(old(Value()))
    {
      value := 0x55;
      var empty := rxFifo.IsEmpty();
      if !empty {
        value := rxFifo.Pop();
        empty := rxFifo.IsEmpty();
        if empty {
          regs[0] := ClearBit(regs[0], 1);
        }
      }
    }

    method WriteData(value: byte)
      requires Valid()
      modifies regs, txFifo, txFifo.buffer
      ensures Valid() && Value() == Serial.WriteData(old(Value()), value)
    {
      var full := txFifo.IsFull();
      if full {
        return;
      }
      txFifo.Push(value);
      full := txFifo.IsFull();
      if !full {
        regs[0] := SetBit(regs[0], 4);
      }
    }

    /** What a write to the control port does to the channel itself. */
    method WriteControl(value: byte, ghost g: Shared)
      requires !g.fault
      requires Valid() && regIndex < 8 && !(regIndex == 1 && value / 8 % 4 == 2)
      modifies Repr()
      ensures Valid()
      ensures Value() == Serial.WriteControl(old(Value()), g, value).channel
    {
      var indexed := if regIndex == 0 then value % 8 else 0;
      match regIndex {
        case 0 =>
          if value / 8 % 8 == 3 {
            Reinit();
          }
        case 1 =>
          if value / 8 % 4 == 0 {
            rxIntEnabled := false;
          } else if value / 8 % 4 == 3 {
            rxIntEnabled := true;
          }
        case 3 => rxEnabled := Bit(value, 1);
        case 5 =>
          txEnabled := Bit(value, 8);
          regIndex := 0;
        case _ =>
      }
      regIndex := indexed;
    }

    method Receive(incoming: Option<byte>)
      requires Valid()
      modifies rxFifo, rxFifo.buffer
      ensures Valid() && Value() == Serial.Receive(old(Value()), incoming)
    {
      var full := rxFifo.IsFull();
      if full || incoming == None || !rxEnabled {
        return;
      }
      rxFifo.Push(incoming.value);
    }

    method Transmit(taken: bool)
      requires Valid()
      modifies txFifo
      ensures Valid() && Value() == Serial.Transmit(old(Value()), taken)
    {
      var empty := txFifo.IsEmpty();
      if !txEnabled || empty || !taken {
        return;
      }
      var _ := txFifo.Pop();
    }
  }

  class SioDevice {
    const a: ChannelDevice
    const b: ChannelDevice
    const keyboard: KeyboardDevice
    const latch: I.Controller
    var vector: byte
    var fault: bool

    ghost function Parts(): set<object> {
      a.Repr() + b.Repr() + {keyboard, keyboard.fifo, keyboard.fifo.buffer, latch, latch.irqs}
    }

    ghost predicate Valid()
      reads this, Parts()
    {
      && a.Valid() && b.Valid() && keyboard.Valid() && latch.Valid()
      && this !in Parts() && a.Repr() !! b.Repr()
      && a.Repr() + b.Repr() !! {keyboard, keyboard.fifo, keyboard.fifo.buffer}
      && {latch, latch.irqs} !! a.Repr() + b.Repr() + {keyboard, keyboard.fifo, keyboard.fifo.buffer}
    }

    ghost function Value(): System
      requires Valid()
      reads this, Parts()
    {
      System(keyboard.Value(), a.Value(), b.Value(), Shared(vector, latch.Value(), fault))
    }

    /** Channel B listens to the keyboard. */
    constructor (keyboard: KeyboardDevice, latch: I.Controller)
      requires keyboard.Valid() && latch.Valid()
      requires {latch, latch.irqs} !! {keyboard, keyboard.fifo, keyboard.fifo.buffer}
      ensures Valid() && this.keyboard == keyboard && this.latch == latch
      ensures Value() == System(keyboard.Value(), CHANNEL_INIT, CHANNEL_INIT, Shared(0, latch.Value(), false))
    {
      a := new ChannelDevice();
      b := new ChannelDevice();
      this.keyboard, this.latch := keyboard, latch;
      vector, fault := 0, false;
      new;
      assert a.Repr() + b.Repr() !! {keyboard, keyboard.fifo, keyboard.fifo.buffer, latch, latch.irqs};
    }

    /** A write to the control port of a channel: `sio_channel_write_control`. */
    method WriteControl(onB: bool, value: byte)
      requires Valid() && !fault && a.regIndex < 8 && b.regIndex < 8
      modifies this, Parts()
      ensures Valid()
      ensures Value() == Step(old(Value()), ControlEvent(onB, value))
    {
      hide Step, Bit, Serial.WriteControl;
      ControlIs(Value(), onB, value);
      var channel := if onB then b else a;
      ghost var s := Value();
      if channel.regIndex == 1 && value / 8 % 4 == 2 {
        fault := true;
        return;
      }
      WriteShared(channel.regIndex, value);
      WriteOwn(onB, value, s.shared);
    }

    /** The registers of the channel itself. */
    method WriteOwn(onB: bool, value: byte, ghost g: Shared)
      requires Valid() && !g.fault
      requires var c := if onB then b else a; c.regIndex < 8 && !(c.regIndex == 1 && value / 8 % 4 == 2)
      modifies a.Repr(), b.Repr()
      ensures Valid()
      ensures var s := old(Value());
        Value() == if onB then s.(b := Serial.WriteControl(s.b, g, value).channel)
                   else s.(a := Serial.WriteControl(s.a, g, value).channel)
    {
      hide Serial.WriteControl;
      if onB {
        b.WriteControl(value, g);
      } else {
        a.WriteControl(value, g);
      }
    }

    static lemma ControlIs(s: System, onB: bool, value: byte)
      requires !s.shared.fault
      ensures var c := if onB then s.b else s.a;
        var w := Serial.WriteControl(c, s.shared, value);
        && Step(s, ControlEvent(onB, value)) == (if onB then s.(b := w.channel, shared := w.shared)
                                                 else s.(a := w.channel, shared := w.shared))
        && (if c.regIndex == 1 && value / 8 % 4 == 2 then w == Written(c, s.shared.(fault := true))
            else w.shared == AfterShared(s.shared, c.regIndex, value))
    {
    }

    static function AfterShared(g: Shared, regIndex: nat, value: byte): Shared {
      if regIndex == 0 && value / 8 % 8 == 2 then g.(latch := I.Cancel(g.latch, I.SIO2))
      else if regIndex == 2 then g.(vector := value)
      else g
    }

    /** The registers that concern both channels: the interrupt vector and the latch. */
    method WriteShared(regIndex: nat, value: byte)
      requires Valid() && !fault
      modifies this`vector, latch`pending, latch.irqs
      ensures Valid()
      ensures var s := old(Value());
        Value() == s.(shared := AfterShared(s.shared, regIndex, value))
    {
      if regIndex == 0 && value / 8 % 8 == 2 {
        latch.Withdraw(I.SIO2);
      } else if regIndex == 2 {
        vector := value;
      }
    }

    /** `sio2_poll`: receive, signal, transmit, each over both channels. */
    method Poll(incoming: Option<byte>, takenA: bool, takenB: bool)
      requires Valid() && !fault
      modifies this, Parts()
      ensures Valid()
      ensures Value() == Serial.Poll(old(Value()), incoming, takenA, takenB)
    {
      hide Serial.Receive, Signal, Serial.Transmit;
      ReceiveAll(incoming);
      SignalAll();
      TransmitAll(takenA, takenB);
    }

    method ReceiveAll(incoming: Option<byte>)
      requires Valid()
      modifies a.rxFifo, a.rxFifo.buffer, b.rxFifo, b.rxFifo.buffer, keyboard.fifo
      ensures Valid()
      ensures var s := old(Value());
        Value() == System(
          if Offered(s).Some? then s.keyboard.(fifo := s.keyboard.fifo[1..]) else s.keyboard,
          Serial.Receive(s.a, incoming), Serial.Receive(s.b, Offered(s)), s.shared)
    {
      hide Serial.Receive;
      ghost var s := Value();
      for i := 0 to 2
        invariant Valid()
        invariant Value() == System(
          if i == 2 && Offered(s).Some? then s.keyboard.(fifo := s.keyboard.fifo[1..]) else s.keyboard,
          if i >= 1 then Serial.Receive(s.a, incoming) else s.a,
          if i == 2 then Serial.Receive(s.b, Offered(s)) else s.b, s.shared)
      {
        ReceiveOn(i, incoming);
      }
    }

    method SignalAll()
      requires Valid()
      modifies a.regs, b.regs, latch`pending, latch.irqs
      ensures Valid()
      ensures var s := old(Value());
        var wa := Signal(s.a, s.shared);
        var wb := Signal(s.b, wa.shared);
        Value() == System(s.keyboard, wa.channel, wb.channel, wb.shared)
    {
      hide Signal;
      ghost var s := Value();
      ghost var wa := Signal(s.a, s.shared);
      for i := 0 to 2
        invariant Valid()
        invariant Value() == if i == 0 then s
          else if i == 1 then s.(a := wa.channel, shared := wa.shared)
          else var wb := Signal(s.b, wa.shared); System(s.keyboard, wa.channel, wb.channel, wb.shared)
      {
        SignalOn(i);
      }
    }

    method TransmitAll(takenA: bool, takenB: bool)
      requires Valid()
      modifies a.txFifo, a.txFifo.buffer, b.txFifo, b.txFifo.buffer
      ensures Valid()
      ensures var s := old(Value());
        Value() == s.(a := Serial.Transmit(s.a, takenA), b := Serial.Transmit(s.b, takenB))
    {
      hide Serial.Transmit;
      for i := 0 to 2
        invariant Valid()
        invariant var s := old(Value());
          Value() == s.(a := if i >= 1 then Serial.Transmit(s.a, takenA) else s.a,
                        b := if i == 2 then Serial.Transmit(s.b, takenB) else s.b)
      {
        TransmitOn(i, if i == 0 then takenA else takenB);
      }
    }

    /** One turn of the transmit loop. */
    method TransmitOn(i: nat, taken: bool)
      requires Valid() && i < 2
      modifies a.txFifo, a.txFifo.buffer, b.txFifo, b.txFifo.buffer
      ensures Valid()
      ensures var s := old(Value());
        Value() == if i == 0 then s.(a := Serial.Transmit(s.a, taken)) else s.(b := Serial.Transmit(s.b, taken))
    {
      if i == 0 {
        a.Transmit(taken);
      } else {
        b.Transmit(taken);
      }
    }

    /** One turn of the receive loop: channel A listens to a peripheral, channel B to the keyboard. */
    method ReceiveOn(i: nat, incoming: Option<byte>)
      requires Valid() && i < 2
      modifies a.rxFifo, a.rxFifo.buffer, b.rxFifo, b.rxFifo.buffer, keyboard.fifo
      ensures Valid()
      ensures var s := old(Value());
        Value() == if i == 0 then s.(a := Serial.Receive(s.a, incoming))
                   else s.(b := Serial.Receive(s.b, Offered(s)),
                           keyboard := if Offered(s).Some? then s.keyboard.(fifo := s.keyboard.fifo[1..]) else s.keyboard)
    {
      hide Serial.Receive;
      if i == 0 {
        ReceiveOnA(incoming);
      } else {
        ReceiveOnB();
      }
    }

    method ReceiveOnA(incoming: Option<byte>)
      requires Valid()
      modifies a.rxFifo, a.rxFifo.buffer
      ensures Valid()
      ensures var s := old(Value()); Value() == s.(a := Serial.Receive(s.a, incoming))
    {
      a.Receive(incoming);
    }

    /** The keyboard is asked for a byte only if there is room for it. */
    method ReceiveOnB()
      requires Valid()
      modifies b.rxFifo, b.rxFifo.buffer, keyboard.fifo
      ensures Valid()
      ensures var s := old(Value());
        Value() == s.(b := Serial.Receive(s.b, Offered(s)),
                      keyboard := if Offered(s).Some? then s.keyboard.(fifo := s.keyboard.fifo[1..]) else s.keyboard)
    {
      var full := b.rxFifo.IsFull();
      if full {
        return;
      }
      var c := keyboard.GetChar();
      b.Receive(c);
    }

    /** One turn of the signal loop. */
    method SignalOn(i: nat)
      requires Valid() && i < 2
      modifies a.regs, b.regs, latch`pending, latch.irqs
      ensures Valid()
      ensures var s := old(Value());
        Value() == if i == 0 then (var w := Signal(s.a, s.shared); s.(a := w.channel, shared := w.shared))
                   else (var w := Signal(s.b, s.shared); s.(b := w.channel, shared := w.shared))
    {
      var channel := if i == 0 then a else b;
      var empty := channel.rxFifo.IsEmpty();
      if empty {
        return;
      }
      channel.regs[0] := SetBit(channel.regs[0], 1);
      if channel.rxIntEnabled {
        latch.Post(I.SIO2, vector);
      }
    }
  }
}
