/**
 Which capacities the network queues work with: their counters have 16 bits, and a slot is the counter modulo the
 capacity, so that the slots follow each other across the wrap only if the capacity divides 2^16.
 */
module NetCapacity {
  import opened Modular
  import opened NetQueue

  lemma Pushed<T>(q: Queue<T>, s: seq<T>, ops: seq<Op<T>>, op: Op<T>)
    requires |q.slots| > 0
    ensures Run(q, ops + [op]) == Step(Run(q, ops), op)
    ensures Ideal(s, ops + [op]) == match op
                                    case Put(x) => Ideal(s, ops) + [x]
                                    case Get => if Ideal(s, ops) == [] then [] else Ideal(s, ops)[1..]
  {
    assert (ops + [op])[..|ops|] == ops;
  }

  /** No more is ever queued than the capacity. */
  predicate Fitting<T>(ops: seq<Op<T>>, capacity: nat)
  {
    forall k :: 0 <= k <= |ops| ==> |Ideal([], ops[..k])| <= capacity
  }

  lemma FittingPush<T>(ops: seq<Op<T>>, op: Op<T>, capacity: nat)
    requires Fitting(ops, capacity) && |Ideal([], ops + [op])| <= capacity
    ensures Fitting(ops + [op], capacity)
  {
    forall k | 0 <= k <= |ops| + 1
      ensures |Ideal([], (ops + [op])[..k])| <= capacity
    {
      if k <= |ops| {
        assert (ops + [op])[..k] == ops[..k];
      } else {
        assert (ops + [op])[..k] == ops + [op];
      }
    }
  }

  /** Of a queue's run: where the counters are, and what would be queued. */
  ghost predicate Reaches(q: Queue<nat>, ops: seq<Op<nat>>, head: nat, tail: nat, ideal: seq<nat>)
    requires |q.slots| > 0
  {
    && Fitting(ops, |q.slots|) && Ideal([], ops) == ideal
    && Run(q, ops).head == head && Run(q, ops).tail == tail
  }

  /** One buffer passes through an empty queue. */
  lemma OneThrough(q: Queue<nat>, ops: seq<Op<nat>>, k: nat)
    requires 1 < |q.slots| && k < MODULUS - 1 && Reaches(q, ops, k, k, [])
    ensures Reaches(q, ops + [Put(0)] + [Get], k + 1, k + 1, [])
  {
    var put := ops + [Put(0)];
    Pushed(q, [], ops, Put(0));
    FittingPush(ops, Put(0), |q.slots|);
    Pushed(q, [], put, Get);
    FittingPush(put, Get, |q.slots|);
  }

  /** Buffers pass through it one by one, until the counters are at k. */
  lemma {:induction false} Travels(q: Queue<nat>, k: nat) returns (ops: seq<Op<nat>>)
    requires 1 < |q.slots| && q.head == q.tail == 0 && k < MODULUS
    ensures Reaches(q, ops, k, k, [])
  {
    ops := [];
    if k > 0 {
      ops := Travels(q, k - 1);
      OneThrough(q, ops, k - 1);
      ops := ops + [Put(0)] + [Get];
    }
  }

  lemma PutOne(q: Queue<nat>, k: nat)
    requires 0 < |q.slots| < MODULUS && q.head == MODULUS - 1 && q.tail == k < |q.slots|
    ensures Step(q, Put(1)) == Queue(q.head, k + 1, q.slots[k := 1])
  {
    ModSmall(k, |q.slots|);
  }

  lemma ModSmall(k: nat, n: nat)
    requires k < n
    ensures k % n == k
  {
    DivModUnique(k, 0, k, n);
  }

  /** With the head at the last position of the counters: one buffer there, and ones in the first k slots. */
  lemma {:induction false} Ones(q: Queue<nat>, start: seq<Op<nat>>, k: nat) returns (ops: seq<Op<nat>>)
    requires 0 < |q.slots| < MODULUS && k < |q.slots| && Reaches(q, start, MODULUS - 1, 0, [0])
    ensures Fitting(ops, |q.slots|) && |Ideal([], ops)| == k + 1 && Ideal([], ops)[0] == 0
    ensures Run(q, ops).head == MODULUS - 1 && Run(q, ops).tail == k
    ensures forall i :: 0 <= i < k ==> Run(q, ops).slots[i] == 1
  {
    ops := start;
    if k > 0 {
      ops := Ones(q, start, k - 1);
      Pushed(q, [], ops, Put(1));
      FittingPush(ops, Put(1), |q.slots|);
      PutOne(Run(q, ops), k - 1);
      ops := ops + [Put(1)];
    }
  }

  /** The last slot before the wrap, if the capacity does not divide the range: one of the first after it. */
  lemma LastSlot(n: nat)
    requires 0 < n < MODULUS && MODULUS % n != 0
    ensures (MODULUS - 1) % n == MODULUS % n - 1
  {
    ModAdd(MODULUS - 1, 1, n);
  }

  lemma FirstAcross(q: Queue<nat>, r: nat)
    requires 0 < |q.slots| < MODULUS && q.head == MODULUS - 1 && q.tail == r == MODULUS % |q.slots| && r > 0
    ensures r - 1 < |q.slots| && |Contents(q)| == r + 1 && Contents(q)[0] == q.slots[r - 1]
  {
    LastSlot(|q.slots|);
    Difference(q.head, q.tail);
  }

  /** A buffer enqueued at the last position of the counters is overwritten by one enqueued after the wrap. */
  lemma Clobbers(q: Queue<nat>) returns (ops: seq<Op<nat>>)
    requires q.head == q.tail == 0 && 0 < |q.slots| < MODULUS && MODULUS % |q.slots| != 0
    ensures Fitting(ops, |q.slots|) && Contents(Run(q, ops)) != Ideal([], ops)
  {
    var r := MODULUS % |q.slots|;
    var travel := Travels(q, MODULUS - 1);
    Pushed(q, [], travel, Put(0));
    FittingPush(travel, Put(0), |q.slots|);
    ops := Ones(q, travel + [Put(0)], r);
    FirstAcross(Run(q, ops), r);
  }

  /** A queue of this capacity, from its initial state on, behaves as a list whenever no more is queued than fits. */
  ghost predicate Behaves(capacity: nat)
    requires capacity > 0
  {
    forall q: Queue<nat>, ops: seq<Op<nat>> ::
      |q.slots| == capacity && q.head == q.tail == 0 && Fitting(ops, capacity) ==>
        Contents(Run(q, ops)) == Ideal([], ops)
  }

  /** It does so exactly if its capacity divides the range of its counters. */
  lemma CapacityExactly(n: nat)
    requires 0 < n < 0x1_0000
    ensures Behaves(n) <==> 0x1_0000 % n == 0
  {
    if MODULUS % n == 0 {
      forall q: Queue<nat>, ops: seq<Op<nat>> | |q.slots| == n && q.head == q.tail == 0 && Fitting(ops, n)
        ensures Contents(Run(q, ops)) == Ideal([], ops)
      {
        assert Contents(q) == [];
        QueueIsList(q, ops);
      }
    } else {
      var q := Queue(0, 0, seq(n, _ => 0));
      var ops := Clobbers(q);
    }
  }
}
