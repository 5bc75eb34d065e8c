/** The interrupt latch between the peripherals and the CPU. */
module Interrupts {
  import opened Bytes

  /** Priorities, highest first: CTC, SIO/2, external. */
  const PRIORITIES := 3
  const SIO2 := 1

  datatype Irq = Irq(request: bool, code: byte)

  type Lines = s: seq<Irq> | |s| == PRIORITIES
    witness [Irq(false, 0), Irq(false, 0), Irq(false, 0)]

  /** `pending` is an unsigned counter; `cpuInt` is the line to the CPU. */
  datatype Latch = Latch(pending: nat, irqs: Lines, cpuInt: bool)

  const WORD := 0x1_0000_0000

  function Decrement(n: nat): nat {
    if n == 0 then WORD - 1 else n - 1
  }

  function Request(l: Latch, p: nat, code: byte): Latch
    requires p < PRIORITIES
  {
    Latch(if l.irqs[p].request then l.pending else (l.pending + 1) % WORD, l.irqs[p := Irq(true, code)], l.cpuInt)
  }

  function Cancel(l: Latch, p: nat): Latch
    requires p < PRIORITIES
  {
    Latch(if l.irqs[p].request then Decrement(l.pending) else l.pending,
          l.irqs[p := l.irqs[p].(request := false)], l.cpuInt)
  }

  function Poll(l: Latch): Latch {
    if l.pending == 0 then l else l.(cpuInt := true)
  }

  /** The first asserted line from `i` on; `PRIORITIES` if there is none. */
  function First(irqs: Lines, i: nat): nat
    requires i <= PRIORITIES
    decreases PRIORITIES - i
  {
    if i == PRIORITIES || irqs[i].request then i else First(irqs, i + 1)
  }

  datatype Popped = Popped(latch: Latch, code: byte)

  /** The acknowledge of the CPU: it asserts that something is pending. */
  function Pop(l: Latch): Popped
    requires l.pending > 0
  {
    var i := First(l.irqs, 0);
    var irqs := if i < PRIORITIES then l.irqs[i := l.irqs[i].(request := false)] else l.irqs;
    Popped(Latch(l.pending - 1, irqs, l.cpuInt && l.pending != 1), if i < PRIORITIES then l.irqs[i].code else 0)
  }

  /** Initialisation cancels the requests but does not touch the counter. */
  function Init(l: Latch): Latch {
    l.(irqs := [l.irqs[0].(request := false), l.irqs[1].(request := false), l.irqs[2].(request := false)])
  }

  // ---- The counter tells the truth ----

  function Asserted(irqs: seq<Irq>): nat {
    if irqs == [] then 0 else (if irqs[0].request then 1 else 0) + Asserted(irqs[1..])
  }

  predicate Inv(l: Latch) {
    l.pending == Asserted(l.irqs)
  }

  lemma AssertedThree(irqs: Lines)
    ensures Asserted(irqs) ==
      (if irqs[0].request then 1 else 0) + (if irqs[1].request then 1 else 0) + (if irqs[2].request then 1 else 0)
  {
    assert Asserted(irqs[2..]) == (if irqs[2].request then 1 else 0) + Asserted(irqs[2..][1..]);
    assert irqs[1..][1..] == irqs[2..];
  }

  /** Initialisation makes the counter right exactly when it was 0. */
  lemma InitRight(l: Latch)
    ensures Inv(Init(l)) <==> l.pending == 0
  {
    AssertedThree(Init(l).irqs);
  }

  datatype Event = Post(p: nat, code: byte) | Withdraw(p: nat) | Polled | Acknowledge {
    predicate Ok() {
      (Post? || Withdraw?) ==> p < PRIORITIES
    }
  }

  /** The CPU acknowledges only when something is pending. */
  function Step(l: Latch, e: Event): Latch
    requires e.Ok()
  {
    match e
    case Post(p, code) => Request(l, p, code)
    case Withdraw(p) => Cancel(l, p)
    case Polled => Poll(l)
    case Acknowledge => if l.pending > 0 then Pop(l).latch else l
  }

  /**
   * What each event does, line by line. A post asserts its line with its byte, a withdrawal takes it
   * back, and neither touches another line; a poll raises the CPU line if and only if something is
   * pending; an acknowledge takes the first asserted line.
   */
  lemma EventTells(l: Latch, e: Event, p: nat)
    requires Inv(l) && e.Ok() && p < PRIORITIES
    ensures var t := Step(l, e);
      match e
      case Post(q, code) => t.irqs[p] == (if p == q then Irq(true, code) else l.irqs[p]) && t.cpuInt == l.cpuInt
      case Withdraw(q) =>
        t.irqs[p].request == (p != q && l.irqs[p].request) && t.irqs[p].code == l.irqs[p].code && t.cpuInt == l.cpuInt
      case Polled => t.irqs == l.irqs && (t.cpuInt <==> l.cpuInt || l.irqs[0].request || l.irqs[1].request || l.irqs[2].request)
      case Acknowledge =>
        && t.irqs[p].code == l.irqs[p].code
        && (t.irqs[p].request <==> l.irqs[p].request && exists q: nat :: q < p && l.irqs[q].request)
  {
    AssertedThree(l.irqs);
    FirstThree(l.irqs);
    if e.Acknowledge? && l.pending > 0 {
      var i := First(l.irqs, 0);
      assert l.irqs[i].request && forall q :: 0 <= q < i ==> !l.irqs[q].request;
    }
  }

  lemma FirstThree(irqs: Lines)
    ensures First(irqs, 0) == if irqs[0].request then 0 else if irqs[1].request then 1 else if irqs[2].request then 2 else 3
  {
    assert First(irqs, 1) == if irqs[1].request then 1 else First(irqs, 2);
    assert First(irqs, 2) == if irqs[2].request then 2 else First(irqs, 3);
  }

  lemma StepKeeps(l: Latch, e: Event)
    requires Inv(l) && e.Ok()
    ensures Inv(Step(l, e))
  {
    AssertedThree(l.irqs);
    AssertedThree(Step(l, e).irqs);
  }

  function Run(l: Latch, es: seq<Event>): Latch
    requires forall e :: e in es ==> e.Ok()
    decreases |es|
  {
    if es == [] then l else Run(Step(l, es[0]), es[1..])
  }

  /** In every reachable state the counter is the number of asserted requests. */
  lemma {:induction false} PendingCounts(l: Latch, es: seq<Event>)
    requires Inv(l) && forall e :: e in es ==> e.Ok()
    ensures Inv(Run(l, es))
    decreases |es|
  {
    if es != [] {
      StepKeeps(l, es[0]);
      PendingCounts(Step(l, es[0]), es[1..]);
    }
  }

  /** The last byte posted at priority `p`. */
  function LastPost(es: seq<Event>, p: nat): Option<byte>
    decreases |es|
  {
    if es == [] then None
    else if LastPost(es[1..], p).Some? then LastPost(es[1..], p)
    else if es[0].Post? && es[0].p == p then Some(es[0].code)
    else None
  }

  /**
   * After any history of posts, withdrawals, polls and acknowledges an asserted line carries the
   * last byte posted at its priority, and it was not asserted out of nothing.
   */
  lemma {:induction false} LastPosted(l: Latch, p: nat, es: seq<Event>)
    requires p < PRIORITIES && forall e :: e in es ==> e.Ok()
    ensures Run(l, es).irqs[p].code == LastPost(es, p).GetOr(l.irqs[p].code)
    ensures Run(l, es).irqs[p].request ==> LastPost(es, p).Some? || l.irqs[p].request
    decreases |es|
  {
    if es != [] {
      LastPosted(Step(l, es[0]), p, es[1..]);
    }
  }

  // ---- Draining ----

  /** The bytes of the asserted lines from `i` on, in priority order. */
  function Codes(irqs: Lines, i: nat): seq<byte>
    requires i <= PRIORITIES
    decreases PRIORITIES - i
  {
    if i == PRIORITIES then [] else (if irqs[i].request then [irqs[i].code] else []) + Codes(irqs, i + 1)
  }

  lemma CodesFirst(irqs: Lines)
    requires Asserted(irqs) > 0
    ensures var i := First(irqs, 0);
      i < PRIORITIES && irqs[i].request && (forall k :: 0 <= k < i ==> !irqs[k].request)
      && Codes(irqs, 0) == [irqs[i].code] + Codes(irqs[i := irqs[i].(request := false)], 0)
  {
    AssertedThree(irqs);
    var i := First(irqs, 0);
    assert First(irqs, 0) == if irqs[0].request then 0 else First(irqs, 1);
    assert First(irqs, 1) == if irqs[1].request then 1 else First(irqs, 2);
    var rest := irqs[i := irqs[i].(request := false)];
    CodesThree(irqs);
    CodesThree(rest);
  }

  lemma CodesThree(irqs: Lines)
    ensures Codes(irqs, 0) ==
      (if irqs[0].request then [irqs[0].code] else []) + (if irqs[1].request then [irqs[1].code] else [])
      + (if irqs[2].request then [irqs[2].code] else [])
  {
    assert Codes(irqs, 2) == (if irqs[2].request then [irqs[2].code] else []) + Codes(irqs, 3);
    assert Codes(irqs, 1) == (if irqs[1].request then [irqs[1].code] else []) + Codes(irqs, 2);
    assert Codes(irqs, 0) == (if irqs[0].request then [irqs[0].code] else []) + Codes(irqs, 1);
  }

  /** `n` acknowledges in a row: the bytes they return. */
  function PopMany(l: Latch, n: nat): (Latch, seq<byte>)
    requires n <= l.pending
    decreases n
  {
    if n == 0 then (l, [])
    else
      var p := Pop(l);
      var rest := PopMany(p.latch, n - 1);
      (rest.0, [p.code] + rest.1)
  }

  /** Acknowledging until nothing is pending returns the posted bytes in strict priority order. */
  lemma {:induction false} PopDrains(l: Latch)
    requires Inv(l)
    ensures PopMany(l, l.pending).1 == Codes(l.irqs, 0)
    ensures PopMany(l, l.pending).0.pending == 0
    ensures l.pending > 0 ==> !PopMany(l, l.pending).0.cpuInt
    decreases l.pending
  {
    if l.pending == 0 {
      AssertedThree(l.irqs);
      CodesThree(l.irqs);
    } else {
      CodesFirst(l.irqs);
      StepKeeps(l, Acknowledge);
      PopDrains(Pop(l).latch);
      if l.pending == 1 {
        assert PopMany(Pop(l).latch, 0) == (Pop(l).latch, []);
      }
    }
  }

  /** The line to the CPU is dropped exactly by the acknowledge that empties the latch. */
  lemma LineDrops(l: Latch, e: Event)
    requires Inv(l) && e.Ok() && l.cpuInt
    ensures !Step(l, e).cpuInt <==> e == Acknowledge && l.pending == 1
    ensures !Step(l, e).cpuInt ==> Asserted(Step(l, e).irqs) == 0
  {
    StepKeeps(l, e);
  }

  // ---- The latch in place ----

  class Controller {
    var pending: nat
    const irqs: array<Irq>
    var cpuInt: bool

    ghost predicate Valid() {
      irqs.Length == PRIORITIES
    }

    ghost function Value(): Latch
      requires Valid()
      reads this, irqs
    {
      Latch(pending, irqs[..], cpuInt)
    }

    constructor ()
      ensures Valid() && fresh(irqs) && Inv(Value()) && Value().pending == 0
    {
      pending, cpuInt := 0, false;
      irqs := new Irq[PRIORITIES](_ => Irq(false, 0));
      new;
      AssertedThree(Value().irqs);
    }

    method Post(p: nat, code: byte)
      requires Valid() && p < PRIORITIES
      modifies this`pending, irqs
      ensures Value() == Request(old(Value()), p, code)
    {
      if !irqs[p].request {
        pending := (pending + 1) % WORD;
      }
      irqs[p] := Irq(true, irqs[p].code);
      irqs[p] := Irq(irqs[p].request, code);
    }

    method Withdraw(p: nat)
      requires Valid() && p < PRIORITIES
      modifies this`pending, irqs
      ensures Value() == Cancel(old(Value()), p)
    {
      if irqs[p].request {
        pending := Decrement(pending);
      }
      irqs[p] := irqs[p].(request := false);
    }

    method PollCpu()
      requires Valid()
      modifies this`cpuInt
      ensures Value() == Poll(old(Value()))
    {
      if pending == 0 {
        return;
      }
      cpuInt := true;
    }

    method Acknowledge() returns (code: byte)
      requires Valid() && pending > 0
      modifies this`pending, this`cpuInt, irqs
      ensures Popped(Value(), code) == Pop(old(Value()))
    {
      code := 0;
      ghost var l := Value();
      var i := 0;
      while i < PRIORITIES && !irqs[i].request
        invariant 0 <= i <= PRIORITIES && First(l.irqs, 0) == First(l.irqs, i)
        decreases PRIORITIES - i
      {
        i := i + 1;
      }
      if i < PRIORITIES {
        code := irqs[i].code;
        irqs[i] := irqs[i].(request := false);
      }
      pending := pending - 1;
      if pending == 0 {
        cpuInt := false;
      }
    }
  }
}
