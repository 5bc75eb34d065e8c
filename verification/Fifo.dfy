/** The ring buffer: an array of N slots of which one always stays unused. */
module Fifo {

  /** `head` is the slot extracted next, `tail` the one after the last insertion. */
  datatype Ring<T> = Ring(buffer: seq<T>, head: nat, tail: nat) {
    predicate Ok() {
      |buffer| >= 2 && head < |buffer| && tail < |buffer|
    }

    function End(): nat
      requires Ok()
    {
      |buffer| - 1
    }

    predicate IsEmpty() {
      head == tail
    }

    predicate IsFull()
      requires Ok()
    {
      (head == 0 && tail == End()) || tail + 1 == head
    }

    function Next(i: nat): nat
      requires Ok()
    {
      if i == End() then 0 else i + 1
    }

    function Push(c: T): Ring<T>
      requires Ok()
    {
      Ring(buffer[tail := c], head, Next(tail))
    }

    function Pop(): (Ring<T>, T)
      requires Ok()
    {
      (Ring(buffer, Next(head), tail), buffer[head])
    }

    function Peek(): T
      requires Ok()
    {
      buffer[head]
    }

    function Flush(): Ring<T> {
      Ring(buffer, tail, tail)
    }

    function Count(): int
      requires Ok()
    {
      if tail - head < 0 then tail - head + |buffer| else tail - head
    }

    function Free(): int
      requires Ok()
    {
      |buffer| - 1 - Count()
    }

    /** What is in the queue, oldest first. */
    function Contents(): seq<T>
      requires Ok()
    {
      if head <= tail then buffer[head..tail] else buffer[head..] + buffer[..tail]
    }
  }

  // ---- One operation ----

  lemma Sizes<T>(r: Ring<T>)
    requires r.Ok()
    ensures r.Count() == |r.Contents()| < |r.buffer| && r.Free() == |r.buffer| - 1 - |r.Contents()|
    ensures r.IsEmpty() <==> r.Contents() == []
    ensures r.IsFull() <==> |r.Contents()| == |r.buffer| - 1
  {
  }

  /** Inserting appends, exactly when the ring is not full; otherwise it loses the whole contents. */
  lemma PushAppends<T>(r: Ring<T>, c: T)
    requires r.Ok()
    ensures r.Push(c).Ok() && |r.Push(c).buffer| == |r.buffer|
    ensures r.Push(c).Contents() == r.Contents() + [c] <==> !r.IsFull()
    ensures r.IsFull() ==> r.Push(c).Contents() == []
  {
    if !r.IsFull() && r.Next(r.tail) == 0 {
      assert r.Push(c).Contents() == r.buffer[r.tail := c][r.head..];
    }
  }

  /** Extracting takes the oldest element, exactly when there is one; otherwise N - 1 stale slots appear. */
  lemma PopTakes<T>(r: Ring<T>)
    requires r.Ok()
    ensures r.Pop().0.Ok() && |r.Pop().0.buffer| == |r.buffer|
    ensures r.Contents() == [r.Pop().1] + r.Pop().0.Contents() <==> !r.IsEmpty()
    ensures r.IsEmpty() ==> |r.Pop().0.Contents()| == |r.buffer| - 1
    ensures !r.IsEmpty() ==> r.Peek() == r.Contents()[0]
  {
  }

  lemma FlushClears<T>(r: Ring<T>)
    requires r.Ok()
    ensures r.Flush().Ok() && r.Flush().Contents() == []
  {
  }

  /** For every size each half of the full test is the only one to recognise some full ring. */
  lemma BothTestsNeeded<T>(buffer: seq<T>)
    requires |buffer| >= 2
    ensures var r := Ring(buffer, 0, |buffer| - 1); |r.Contents()| == |buffer| - 1 && r.tail + 1 != r.head
    ensures var r := Ring(buffer, 1, 0); |r.Contents()| == |buffer| - 1 && r.head != 0
  {
  }

  // ---- Runs ----

  datatype Op<T> = PushOp(c: T) | PopOp | FlushOp

  /** A user that checks before it inserts and before it extracts. */
  function StepRing<T>(r: Ring<T>, op: Op<T>): Ring<T>
    requires r.Ok()
  {
    match op
    case PushOp(c) => if r.IsFull() then r else r.Push(c)
    case PopOp => if r.IsEmpty() then r else r.Pop().0
    case FlushOp => r.Flush()
  }

  /** The bounded queue the ring stands for. */
  function StepQueue<T>(q: seq<T>, bound: nat, op: Op<T>): seq<T> {
    match op
    case PushOp(c) => if |q| >= bound then q else q + [c]
    case PopOp => if q == [] then q else q[1..]
    case FlushOp => []
  }

  lemma StepRefines<T>(r: Ring<T>, op: Op<T>)
    requires r.Ok()
    ensures StepRing(r, op).Ok() && |StepRing(r, op).buffer| == |r.buffer|
    ensures StepRing(r, op).Contents() == StepQueue(r.Contents(), |r.buffer| - 1, op)
  {
    Sizes(r);
    match op
    case PushOp(c) => PushAppends(r, c);
    case PopOp => PopTakes(r);
    case FlushOp => FlushClears(r);
  }

  function RunRing<T>(r: Ring<T>, ops: seq<Op<T>>): (t: Ring<T>)
    requires r.Ok()
    ensures t.Ok() && |t.buffer| == |r.buffer|
    decreases |ops|
  {
    if ops == [] then r else RunRing(StepRing(r, ops[0]), ops[1..])
  }

  function RunQueue<T>(q: seq<T>, bound: nat, ops: seq<Op<T>>): seq<T>
    decreases |ops|
  {
    if ops == [] then q else RunQueue(StepQueue(q, bound, ops[0]), bound, ops[1..])
  }

  /** Over any run, however often it wraps around, a ring of N slots is a queue bounded by N - 1. */
  lemma {:induction false} RunRefines<T>(r: Ring<T>, ops: seq<Op<T>>)
    requires r.Ok()
    ensures RunRing(r, ops).Contents() == RunQueue(r.Contents(), |r.buffer| - 1, ops)
    decreases |ops|
  {
    if ops != [] {
      StepRefines(r, ops[0]);
      RunRefines(StepRing(r, ops[0]), ops[1..]);
    }
  }

  // ---- The buffer in place ----

  class Buffer<T(0)> {
    const buffer: array<T>
    var head: nat
    var tail: nat

    ghost predicate Valid()
      reads this
    {
      buffer.Length >= 2 && head < buffer.Length && tail < buffer.Length
    }

    ghost function AsRing(): Ring<T>
      reads this, buffer
    {
      Ring(buffer[..], head, tail)
    }

    ghost function Contents(): seq<T>
      requires Valid()
      reads this, buffer
    {
      AsRing().Contents()
    }

    constructor (size: nat)
      requires size >= 2
      ensures Valid() && fresh(buffer) && buffer.Length == size && Contents() == []
    {
      buffer := new T[size];
      head, tail := 0, 0;
    }

    method IsEmpty() returns (b: bool)
      requires Valid()
      ensures b <==> Contents() == []
    {
      b := head == tail;
    }

    method IsFull() returns (b: bool)
      requires Valid()
      ensures b <==> |Contents()| == buffer.Length - 1
    {
      b := (head == 0 && tail == buffer.Length - 1) || tail + 1 == head;
    }

    method Push(c: T)
      requires Valid() && |Contents()| < buffer.Length - 1
      modifies this`tail, buffer
      ensures Valid() && AsRing() == old(AsRing()).Push(c) && Contents() == old(Contents()) + [c]
    {
      ghost var r := AsRing();
      PushAppends(r, c);
      Sizes(r);
      buffer[tail] := c;
      if tail == buffer.Length - 1 {
        tail := 0;
      } else {
        tail := tail + 1;
      }
    }

    method Pop() returns (ret: T)
      requires Valid() && Contents() != []
      modifies this`head
      ensures Valid() && (AsRing(), ret) == old(AsRing()).Pop() && old(Contents()) == [ret] + Contents()
    {
      ghost var r := AsRing();
      PopTakes(r);
      if head == buffer.Length - 1 {
        head := 0;
        ret := buffer[buffer.Length - 1];
      } else {
        ret := buffer[head];
        head := head + 1;
      }
    }

    method Peek() returns (ret: T)
      requires Valid() && Contents() != []
      ensures ret == Contents()[0]
    {
      ret := buffer[head];
    }

    method Flush()
      requires Valid()
      modifies this`head
      ensures Valid() && Contents() == []
    {
      head := tail;
    }

    method Init()
      requires Valid()
      modifies this`head, this`tail
      ensures Valid() && Contents() == []
    {
      head, tail := 0, 0;
    }

    method Count() returns (cnt: int)
      requires Valid()
      ensures cnt == |Contents()|
    {
      cnt := tail - head;
      if cnt < 0 {
        cnt := cnt + buffer.Length;
      }
    }

    method Free() returns (n: int)
      requires Valid()
      ensures n == buffer.Length - 1 - |Contents()|
    {
      n := Count();
      n := buffer.Length - 1 - n;
    }
  }
}
