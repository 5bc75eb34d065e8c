/**
 * One producer and one consumer on the same ring buffer, interleaved at every access to a shared
 * variable: the slots, `head` (written by the consumer only) and `tail` (written by the producer
 * only). Memory is sequentially consistent.
 */
module FifoConcurrent {
  import opened Bytes
  import Fifo

  /**
   * The producer: the full test reads `head` twice, once per disjunct; then the slot is written,
   * then `tail` advances. `Looked` remembers how often `head` had advanced at its first read.
   */
  datatype Producer = Ready | Looked(at: nat) | Granted | Stored(c: byte)

  /**
   * The consumer: the empty test; then `head` advances and the slot is read, in this order when
   * `head` wraps around (`Freed`) and in either order otherwise (`Read`: not yet advanced).
   */
  datatype Consumer = Waiting | Entitled | Freed(slot: nat) | Read

  /** `heads` counts the advances of `head`. */
  datatype System = System(
    buffer: seq<byte>, head: nat, tail: nat, producer: Producer, consumer: Consumer,
    produced: seq<byte>, consumed: seq<byte>, heads: nat)
  {
    function Size(): nat { |buffer| }

    function Next(i: nat): nat {
      if i == Size() - 1 then 0 else i + 1
    }
  }

  /** Which side moves next; the producer with the byte it would store, the consumer with its order. */
  datatype Turn = Produce(c: byte) | Consume(readFirst: bool)

  predicate Shaped(s: System) {
    s.Size() >= 2 && s.head < s.Size() && s.tail < s.Size() && (s.consumer.Freed? ==> s.consumer.slot < s.Size())
  }

  function StepProducer(s: System, c: byte): (t: System)
    requires Shaped(s)
    ensures Shaped(t)
  {
    match s.producer
    case Ready =>
      if s.head == 0 && s.tail == s.Size() - 1 then s else s.(producer := Looked(s.heads))
    case Looked(_) => s.(producer := if s.tail + 1 == s.head then Ready else Granted)
    case Granted => s.(buffer := s.buffer[s.tail := c], producer := Stored(c))
    case Stored(stored) => s.(tail := s.Next(s.tail), producer := Ready, produced := s.produced + [stored])
  }

  function StepConsumer(s: System, readFirst: bool): (t: System)
    requires Shaped(s)
    ensures Shaped(t)
  {
    match s.consumer
    case Waiting => if s.head == s.tail then s else s.(consumer := Entitled)
    case Entitled =>
      if readFirst && s.head != s.Size() - 1
      then s.(consumer := Read, consumed := s.consumed + [s.buffer[s.head]])
      else s.(consumer := Freed(s.head), head := s.Next(s.head), heads := s.heads + 1)
    case Freed(slot) => s.(consumer := Waiting, consumed := s.consumed + [s.buffer[slot]])
    case Read => s.(consumer := Waiting, head := s.Next(s.head), heads := s.heads + 1)
  }

  function Step(s: System, t: Turn): System
    requires Shaped(s)
  {
    match t
    case Produce(c) => StepProducer(s, c)
    case Consume(readFirst) => StepConsumer(s, readFirst)
  }

  /** An empty ring on which nothing has happened yet. */
  predicate Initial(s: System) {
    && s.Size() >= 2 && s.head == s.tail == 0 && s.producer == Ready && s.consumer == Waiting
    && s.produced == s.consumed == [] && s.heads == 0
  }

  /** How far reading is ahead of (or behind) the advances of `head`. */
  function Taken(s: System): int {
    match s.consumer
    case Waiting | Entitled => s.heads
    case Freed(_) => s.heads - 1
    case Read => s.heads + 1
  }

  predicate ProducerInv(s: System)
    requires Shaped(s)
  {
    var n, t := s.Size(), |s.produced|;
    match s.producer
    case Ready => true
    case Looked(at) => at <= s.heads && t <= at + n - 1 && !(at % n == 0 && s.tail == n - 1)
    case Granted => t + 1 <= s.heads + n - 1
    case Stored(c) => t + 1 <= s.heads + n - 1 && s.buffer[s.tail] == c
  }

  /** The bytes not taken yet are still in their slots. */
  predicate Kept(s: System)
    requires s.Size() >= 2
  {
    forall i {:trigger s.produced[i]} :: 0 <= Taken(s) <= i < |s.produced| ==> s.buffer[i % s.Size()] == s.produced[i]
  }

  predicate Inv(s: System) {
    && Shaped(s)
    && s.heads <= |s.produced| <= s.heads + s.Size() - 1
    && s.head == s.heads % s.Size() && s.tail == |s.produced| % s.Size()
    && (s.consumer.Freed? ==> s.heads >= 1 && s.consumer.slot == (s.heads - 1) % s.Size())
    && (s.consumer.Entitled? || s.consumer.Read? ==> s.heads < |s.produced|)
    && 0 <= Taken(s) == |s.consumed| <= |s.produced| && s.consumed == s.produced[..|s.consumed|]
    && ProducerInv(s)
    && Kept(s)
  }

  lemma ModStep(k: nat, n: nat)
    requires n >= 2
    ensures (k + 1) % n == if k % n == n - 1 then 0 else k % n + 1
  {
    var q, r := k / n, k % n;
    assert k + 1 == q * n + (r + 1);
    if r == n - 1 {
      assert k + 1 == (q + 1) * n;
      ModUnique(k + 1, n, q + 1, 0);
    } else {
      ModUnique(k + 1, n, q, r + 1);
    }
  }

  lemma ModUnique(m: nat, n: nat, q: nat, r: nat)
    requires r < n && m == q * n + r
    ensures m % n == r
  {
    var q', r' := m / n, m % n;
    MulGap(n, q, q');
    MulGap(n, q', q);
  }

  lemma MulGap(n: nat, p: nat, q: nat)
    ensures p < q ==> p * n + n <= q * n
  {
    if p < q {
      assert q * n == (p + 1) * n + (q - p - 1) * n;
    }
  }

  /** Counters less than one round apart never meet in the same slot. */
  lemma ModDistinct(a: nat, b: nat, n: nat)
    requires n >= 2 && a <= b < a + n
    ensures a % n == b % n <==> a == b
  {
    var q, r := a / n, a % n;
    assert a == q * n + r;
    var d := b - a;
    if r + d < n {
      ModUnique(b, n, q, r + d);
    } else {
      assert (q + 1) * n == q * n + n;
      ModUnique(b, n, q + 1, r + d - n);
    }
  }

  /** The two reads of `head` together rule out a full ring, whatever the consumer did in between. */
  lemma FullTestIsSafe(s: System)
    requires Inv(s) && s.producer.Looked? && s.tail + 1 != s.head
    ensures |s.produced| + 1 <= s.heads + s.Size() - 1
  {
    var n := s.Size();
    if |s.produced| == s.heads + n - 1 {
      assert |s.produced| + 1 == s.heads + n;
      ModRound(s.heads, n);
      ModStep(|s.produced|, n);
    }
  }

  lemma ModRound(k: nat, n: nat)
    requires n >= 2
    ensures (k + n) % n == k % n
  {
    var q, r := k / n, k % n;
    assert k + n == (q + 1) * n + r;
    ModUnique(k + n, n, q + 1, r);
  }

  /** Writing the free slot leaves the bytes on their way alone. */
  lemma StoreKeeps(s: System, c: byte)
    requires Inv(s) && s.producer == Granted
    ensures Inv(StepProducer(s, c))
  {
    var n, t := s.Size(), |s.produced|;
    var s' := StepProducer(s, c);
    forall i | 0 <= Taken(s) <= i < t ensures s'.buffer[i % n] == s.produced[i] {
      ModDistinct(i, t, n);
    }
  }

  /** Publishing the byte appends it to what has been produced. */
  lemma PublishKeeps(s: System)
    requires Inv(s) && s.producer.Stored?
    ensures Inv(StepProducer(s, 0))
  {
    var n, t := s.Size(), |s.produced|;
    var s' := StepProducer(s, 0);
    ModStep(t, n);
    assert s'.produced[..|s.consumed|] == s.produced[..|s.consumed|];
    forall i | 0 <= Taken(s) <= i < t + 1 ensures s'.buffer[i % n] == s'.produced[i] {
      if i < t {
        assert s'.produced[i] == s.produced[i];
      }
    }
  }

  lemma ProducerKeeps(s: System, c: byte)
    requires Inv(s)
    ensures Inv(StepProducer(s, c))
  {
    match s.producer
    case Ready =>
      assert Kept(StepProducer(s, c));
    case Looked(_) =>
      if s.tail + 1 != s.head {
        FullTestIsSafe(s);
      }
      assert Kept(StepProducer(s, c));
    case Granted => StoreKeeps(s, c);
    case Stored(stored) =>
      PublishKeeps(s);
      assert StepProducer(s, c) == StepProducer(s, 0);
  }

  lemma ConsumerKeeps(s: System, readFirst: bool)
    requires Inv(s)
    ensures Inv(StepConsumer(s, readFirst))
  {
    var n := s.Size();
    var s' := StepConsumer(s, readFirst);
    match s.consumer
    case Waiting =>
      ModDistinct(s.heads, |s.produced|, n);
      assert Kept(s');
    case Entitled =>
      ModStep(s.heads, n);
      assert s.buffer[s.heads % n] == s.produced[s.heads];
      assert Kept(s');
    case Freed(slot) =>
      assert s.buffer[(s.heads - 1) % n] == s.produced[s.heads - 1];
      assert Kept(s');
    case Read =>
      ModStep(s.heads, n);
      assert Kept(s');
  }

  lemma StepKeeps(s: System, t: Turn)
    requires Inv(s)
    ensures Inv(Step(s, t))
  {
    match t
    case Produce(c) => ProducerKeeps(s, c);
    case Consume(readFirst) => ConsumerKeeps(s, readFirst);
  }

  lemma InitialInv(s: System)
    requires Initial(s)
    ensures Inv(s)
  {
  }

  function Run(s: System, turns: seq<Turn>): System
    requires Shaped(s)
    decreases |turns|
  {
    if turns == [] then s else Run(Step(s, turns[0]), turns[1..])
  }

  lemma {:induction false} RunKeeps(s: System, turns: seq<Turn>)
    requires Inv(s)
    ensures Inv(Run(s, turns))
    decreases |turns|
  {
    if turns != [] {
      StepKeeps(s, turns[0]);
      RunKeeps(Step(s, turns[0]), turns[1..]);
    }
  }

  /**
   * Under every interleaving the values consumed are a prefix of the values produced: nothing is
   * lost, duplicated, reordered or overwritten before it is read.
   */
  lemma ConsumedIsPrefix(s: System, turns: seq<Turn>)
    requires Initial(s)
    ensures var t := Run(s, turns);
      t.consumed <= t.produced && |t.produced| - |t.consumed| <= t.Size()
  {
    InitialInv(s);
    RunKeeps(s, turns);
  }

  // ---- The steps of one side are the operations of the ring ----

  function RingOf(s: System): Fifo.Ring<byte> {
    Fifo.Ring(s.buffer, s.head, s.tail)
  }

  /**
   * A producer whose consumer rests: on a ring that is not full it inserts its byte in four steps
   * and is ready for the next; on a full one it gives up, having changed nothing.
   */
  lemma ProducerInserts(s: System, c: byte)
    requires Shaped(s) && s.producer == Ready
    ensures var t := Run(s, [Produce(c), Produce(c), Produce(c), Produce(c)]);
      !RingOf(s).IsFull() ==>
        RingOf(t) == RingOf(s).Push(c) && t.producer == Ready && t.consumer == s.consumer
        && t.produced == s.produced + [c] && t.consumed == s.consumed
    ensures RingOf(s).IsFull() ==>
      var t := Run(s, [Produce(c), Produce(c)]); t == s
  {
    RunFour(s, Produce(c));
    RunTwo(s, Produce(c));
  }

  /**
   * A consumer whose producer rests: on a ring that is not empty it extracts the oldest byte in three
   * steps, in either order of slot and head; on an empty one it waits.
   */
  lemma ConsumerExtracts(s: System, readFirst: bool)
    requires Shaped(s) && s.consumer == Waiting
    ensures var t := Run(s, [Consume(readFirst), Consume(readFirst), Consume(readFirst)]);
      if RingOf(s).IsEmpty() then t == s
      else
        && RingOf(t) == RingOf(s).Pop().0 && t.consumed == s.consumed + [RingOf(s).Pop().1]
        && t.consumer == Waiting && t.producer == s.producer && t.produced == s.produced && t.heads == s.heads + 1
  {
    RunThree(s, Consume(readFirst));
  }

  lemma RunTwo(s: System, e: Turn)
    requires Shaped(s)
    ensures Run(s, [e, e]) == Step(Step(s, e), e)
  {
    assert [e, e][1..] == [e];
    assert [e][1..] == [];
    assert Run(Step(s, e), [e]) == Run(Step(Step(s, e), e), []);
  }

  lemma RunThree(s: System, e: Turn)
    requires Shaped(s)
    ensures Run(s, [e, e, e]) == Step(Step(Step(s, e), e), e)
  {
    assert [e, e, e][1..] == [e, e];
    RunTwo(Step(s, e), e);
  }

  lemma RunFour(s: System, e: Turn)
    requires Shaped(s)
    ensures Run(s, [e, e, e, e]) == Step(Step(Step(Step(s, e), e), e), e)
  {
    assert [e, e, e, e][1..] == [e, e, e];
    RunThree(Step(s, e), e);
  }
}
