/**
 The shared queues of the network components (include/sddf/network/queue.h): 16-bit head and tail counters over an array
 of descriptors. Lengths are computed in 16 bits, but the test for a full queue compares the promoted difference.
 */
module NetQueue {
  import opened Modular

  const MODULUS: nat := 0x1_0000

  datatype Queue<T> = Queue(head: nat, tail: nat, slots: seq<T>)

  /** net_queue_length: tail - head in 16 bits. */
  function Length<T>(q: Queue<T>): nat
  {
    (q.tail - q.head) % MODULUS
  }

  /** net_queue_empty: equal counters. */
  predicate EmptyTest<T>(q: Queue<T>)
  {
    q.tail - q.head == 0
  }

  /** net_queue_full: both counters are promoted to int before the subtraction, which therefore does not wrap. */
  predicate FullTest<T>(q: Queue<T>)
  {
    q.tail - q.head == |q.slots|
  }

  /** The capacity divides the range of the counters, and no more is queued than fits. */
  predicate Valid<T>(q: Queue<T>)
  {
    0 < |q.slots| < MODULUS && MODULUS % |q.slots| == 0 && q.head < MODULUS && q.tail < MODULUS
        && Length(q) <= |q.slots|
  }

  function At<T>(q: Queue<T>, i: nat): T
    requires |q.slots| > 0
  {
    q.slots[((q.head + i) % MODULUS) % |q.slots|]
  }

  function Contents<T>(q: Queue<T>): (s: seq<T>)
    requires |q.slots| > 0
    ensures |s| == Length(q) && forall i :: 0 <= i < |s| ==> s[i] == At(q, i)
  {
    seq(Length(q), i requires 0 <= i < Length(q) => At(q, i))
  }

  /** net_enqueue: false when the queue is found full. */
  function Enqueue<T>(q: Queue<T>, x: T): (Queue<T>, bool)
    requires |q.slots| > 0
  {
    if FullTest(q) then (q, false)
    else (Queue(q.head, (q.tail + 1) % MODULUS, q.slots[q.tail % |q.slots| := x]), true)
  }

  /** net_dequeue of a queue that is not empty. */
  function Dequeue<T>(q: Queue<T>): (Queue<T>, T)
    requires |q.slots| > 0
  {
    (q.(head := (q.head + 1) % MODULUS), q.slots[q.head % |q.slots|])
  }

  lemma Difference(h: nat, t: nat)
    requires h < MODULUS && t < MODULUS
    ensures (t - h) % MODULUS == if t >= h then t - h else t - h + MODULUS
  {
  }

  /** The test finds a full queue exactly when the counters have not wrapped apart. */
  lemma FullTestExact<T>(q: Queue<T>)
    requires Valid(q)
    ensures FullTest(q) <==> Length(q) == |q.slots| && q.head <= q.tail
    ensures EmptyTest(q) <==> Length(q) == 0
  {
    Difference(q.head, q.tail);
  }

  /** Where an element is, wrapped or not. */
  lemma Place<T>(q: Queue<T>, i: nat)
    requires Valid(q)
    ensures ((q.head + i) % MODULUS) % |q.slots| == (q.head + i) % |q.slots|
    ensures i == Length(q) ==> q.tail % |q.slots| == (q.head + i) % |q.slots|
  {
    ModMod(q.head + i, MODULUS, |q.slots|);
    if i == Length(q) {
      Difference(q.head, q.tail);
      assert (q.head + i) % MODULUS == q.tail;
    }
  }

  /** Enqueuing, when not everything is in use, succeeds and appends. */
  lemma EnqueueAppends<T>(q: Queue<T>, x: T)
    requires Valid(q) && Length(q) < |q.slots|
    ensures Enqueue(q, x).1 && Valid(Enqueue(q, x).0) && Contents(Enqueue(q, x).0) == Contents(q) + [x]
  {
    var q' := Enqueue(q, x).0;
    FullTestExact(q);
    CountersStep(q.head, q.tail);
    Place(q, Length(q));
    forall i | 0 <= i < Length(q)
      ensures At(q', i) == At(q, i)
    {
      EnqueueLeaves(q, x, i);
    }
  }

  lemma EnqueueLeaves<T>(q: Queue<T>, x: T, i: nat)
    requires Valid(q) && i < Length(q) < |q.slots|
    ensures At(Enqueue(q, x).0, i) == At(q, i)
  {
    Place(q, i);
    Place(q, Length(q));
    ModApart(q.head + i, q.head + Length(q), |q.slots|);
  }

  /** Stepping a counter changes the length by one. */
  lemma CountersStep(h: nat, t: nat)
    requires h < MODULUS && t < MODULUS
    ensures (t - h) % MODULUS < MODULUS - 1 ==> ((t + 1) % MODULUS - h) % MODULUS == (t - h) % MODULUS + 1
    ensures (t - h) % MODULUS > 0 ==> (t - (h + 1) % MODULUS) % MODULUS == (t - h) % MODULUS - 1
  {
    Difference(h, t);
    Difference(h, (t + 1) % MODULUS);
    Difference((h + 1) % MODULUS, t);
  }

  /** Dequeuing a queue that is not empty takes the oldest. */
  lemma DequeueTakesOldest<T>(q: Queue<T>)
    requires Valid(q) && Length(q) > 0
    ensures Valid(Dequeue(q).0) && Contents(q) == [Dequeue(q).1] + Contents(Dequeue(q).0)
  {
    var q' := Dequeue(q).0;
    CountersStep(q.head, q.tail);
    Place(q, 0);
    forall i | 0 <= i < Length(q')
      ensures At(q', i) == At(q, i + 1)
    {
      ModAdd(q.head + 1, i, MODULUS);
    }
  }

  /**
   Enqueuing to a queue in which everything is in use is refused exactly when the counters have not wrapped apart;
   otherwise it overwrites the oldest element and leaves a queue longer than its capacity.
   */
  lemma EnqueueWhenFull<T>(q: Queue<T>, x: T)
    requires Valid(q) && Length(q) == |q.slots|
    ensures !Enqueue(q, x).1 <==> q.head <= q.tail
    ensures q.head <= q.tail ==> Enqueue(q, x).0 == q
    ensures q.head > q.tail ==> Length(Enqueue(q, x).0) == |q.slots| + 1 && At(Enqueue(q, x).0, 0) == x
  {
    FullTestExact(q);
    if q.head > q.tail {
      var q', n := Enqueue(q, x).0, |q.slots|;
      Difference(q.head, q.tail);
      Difference(q'.head, q'.tail);
      Place(q, n);
      Place(q, 0);
      ModPlus(q.head, 1, n);
    }
  }

  /** Such a queue: eight slots, the counters on either side of the wrap. */
  lemma WrappedFullExists()
    ensures var q := Queue(MODULUS - 4, 4, [0, 1, 2, 3, 4, 5, 6, 7]);
            Valid(q) && Length(q) == |q.slots| && !FullTest(q)
  {
  }

  datatype Op<T> = Put(x: T) | Get

  function Step<T>(q: Queue<T>, op: Op<T>): (q': Queue<T>)
    requires |q.slots| > 0
    ensures |q'.slots| == |q.slots|
  {
    match op
    case Put(x) => Enqueue(q, x).0
    case Get => if EmptyTest(q) then q else Dequeue(q).0
  }

  function Run<T>(q: Queue<T>, ops: seq<Op<T>>): (q': Queue<T>)
    requires |q.slots| > 0
    ensures |q'.slots| == |q.slots|
  {
    if ops == [] then q else Step(Run(q, ops[..|ops| - 1]), ops[|ops| - 1])
  }

  /** The same on an unbounded list. */
  function Ideal<T>(s: seq<T>, ops: seq<Op<T>>): seq<T>
  {
    if ops == [] then s
    else
      var t := Ideal(s, ops[..|ops| - 1]);
      match ops[|ops| - 1]
      case Put(x) => t + [x]
      case Get => if t == [] then t else t[1..]
  }

  /** As long as the list never outgrows the capacity, through any number of wraps, the queue is the list. */
  lemma {:induction false} QueueIsList<T>(q: Queue<T>, ops: seq<Op<T>>)
    requires Valid(q)
    requires forall k :: 0 <= k <= |ops| ==> |Ideal(Contents(q), ops[..k])| <= |q.slots|
    ensures Valid(Run(q, ops)) && Contents(Run(q, ops)) == Ideal(Contents(q), ops)
  {
    if ops != [] {
      var init, op := ops[..|ops| - 1], ops[|ops| - 1];
      forall k | 0 <= k <= |init|
        ensures |Ideal(Contents(q), init[..k])| <= |q.slots|
      {
        assert init[..k] == ops[..k];
      }
      QueueIsList(q, init);
      var t := Run(q, init);
      assert ops[..|ops|] == ops;
      FullTestExact(t);
      match op {
        case Put(x) => EnqueueAppends(t, x);
        case Get => if Length(t) > 0 { DequeueTakesOldest(t); }
      }
    }
  }
}
