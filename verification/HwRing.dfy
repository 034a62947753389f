/**
 The descriptor ring shared with an Ethernet device (drivers/network/imx and drivers/network/meson): 32-bit
 free-running head and tail counters over a fixed array of slots. The device fills slots in ring order.
 */
module HwRing {
  import opened Modular
  import opened Sequences

  /** Counters are 32-bit and wrap around. */
  const MODULUS: nat := 0x1_0000_0000

  datatype Slot = Slot(addr: nat, len: nat, owned: bool, error: bool)

  /** done is how many of the slots in use the device has completed. */
  datatype Ring = Ring(head: nat, tail: nat, slots: seq<Slot>, done: nat)

  /** tail - head in unsigned 32-bit arithmetic. */
  function Occupancy(r: Ring): nat
  {
    (r.tail - r.head) % MODULUS
  }

  predicate Full(r: Ring)
  {
    Occupancy(r) == |r.slots|
  }

  predicate Empty(r: Ring)
  {
    Occupancy(r) == 0
  }

  /** The array index of the i-th slot in use: the slots start at the head's and wrap around the array. */
  function Index(r: Ring, i: nat): (k: nat)
    requires 0 < |r.slots| && i <= |r.slots|
    ensures k < |r.slots|
  {
    var h := r.head % |r.slots|;
    if h + i < |r.slots| then h + i else h + i - |r.slots|
  }

  /** Index k holds none of the slots in use. */
  predicate Unused(r: Ring, k: nat)
    requires |r.slots| > 0
  {
    forall i :: 0 <= i < Occupancy(r) && i < |r.slots| ==> Index(r, i) != k
  }

  /** The capacity divides the counter range; the device owns exactly the slots in use that it has not completed. */
  predicate Valid(r: Ring)
  {
    && 0 < |r.slots| < MODULUS && MODULUS % |r.slots| == 0
    && r.head < MODULUS && r.tail < MODULUS
    && r.done <= Occupancy(r) <= |r.slots|
    && (forall i :: 0 <= i < Occupancy(r) ==> (r.slots[Index(r, i)].owned <==> i >= r.done))
    && (forall k :: 0 <= k < |r.slots| && Unused(r, k) ==> !r.slots[k].owned)
  }

  /** The slots in use, oldest first. */
  function Contents(r: Ring): (s: seq<Slot>)
    requires |r.slots| > 0
    ensures Occupancy(r) <= |r.slots| ==> |s| == Occupancy(r)
    ensures forall i :: 0 <= i < |s| ==> i < |r.slots| && s[i] == r.slots[Index(r, i)]
  {
    seq(if Occupancy(r) <= |r.slots| then Occupancy(r) else 0,
        i requires 0 <= i < Occupancy(r) <= |r.slots| => r.slots[Index(r, i)])
  }

  /** update_ring_slot at the tail, then tail++. */
  function Arm(r: Ring, addr: nat, len: nat): Ring
    requires |r.slots| > 0
  {
    r.(slots := r.slots[r.tail % |r.slots| := Slot(addr, len, true, false)], tail := (r.tail + 1) % MODULUS)
  }

  /** head++. */
  function Pop(r: Ring): Ring
  {
    r.(head := (r.head + 1) % MODULUS, done := if r.done > 0 then r.done - 1 else 0)
  }

  /** The device completes the oldest slot it owns. */
  function Complete(r: Ring, len: nat, error: bool): Ring
    requires 0 < |r.slots| && r.done < |r.slots|
  {
    var k := Index(r, r.done);
    r.(slots := r.slots[k := r.slots[k].(len := len, error := error, owned := false)], done := r.done + 1)
  }

  /** The meson driver's error path: arm the tail with the head's buffer, then take the head out. */
  function Recycle(r: Ring): Ring
    requires |r.slots| > 0
  {
    Pop(Arm(r, r.slots[r.head % |r.slots|].addr, 0))
  }

  // ---- One step at a time -----------------------------------------------------------------

  lemma WrappedDifference(h: nat, t: nat)
    requires h < MODULUS && t < MODULUS
    ensures (t - h) % MODULUS == if t >= h then t - h else t - h + MODULUS
  {
    if t >= h {
      ModSmall(t - h, MODULUS);
    } else {
      ModSmall(t - h + MODULUS, MODULUS);
      ModPlus(t - h, 1, MODULUS);
    }
  }

  /** Stepping one of two 32-bit counters changes their wrapped difference by one; stepping both leaves it. */
  lemma CounterStep(h: nat, t: nat)
    requires h < MODULUS && t < MODULUS
    ensures (t - h) % MODULUS < MODULUS - 1 ==> ((t + 1) % MODULUS - h) % MODULUS == (t - h) % MODULUS + 1
    ensures (t - h) % MODULUS > 0 ==> (t - (h + 1) % MODULUS) % MODULUS == (t - h) % MODULUS - 1
    ensures ((t + 1) % MODULUS - (h + 1) % MODULUS) % MODULUS == (t - h) % MODULUS
  {
    var h', t' := (h + 1) % MODULUS, (t + 1) % MODULUS;
    WrappedDifference(h, t);
    WrappedDifference(h, t');
    WrappedDifference(h', t);
    WrappedDifference(h', t');
  }

  /** The slot of the counter i places after the head, wrapped or not. */
  lemma IndexIsMod(r: Ring, i: nat)
    requires Valid(r) && i <= |r.slots|
    ensures ((r.head + i) % MODULUS) % |r.slots| == Index(r, i)
  {
    var n := |r.slots|;
    ModMod(r.head + i, MODULUS, n);
    ModAdd(r.head, i, n);
    var x := r.head % n + i;
    if x < n {
      ModSmall(x, n);
    } else if x < 2 * n {
      ModPlus(x - n, 1, n);
      ModSmall(x - n, n);
    }
  }

  /** The next slot to arm is the one after the last slot in use. */
  lemma TailIndex(r: Ring)
    requires Valid(r)
    ensures r.tail % |r.slots| == Index(r, Occupancy(r))
  {
    IndexIsMod(r, Occupancy(r));
    WrappedDifference(r.head, r.tail);
    assert (r.head + Occupancy(r)) % MODULUS == r.tail;
  }

  lemma PopIndex(r: Ring, i: nat)
    requires Valid(r) && i < |r.slots|
    ensures Index(Pop(r), i) == Index(r, i + 1)
  {
    IndexIsMod(r, 1);
  }

  lemma ArmShape(r: Ring, addr: nat, len: nat)
    requires Valid(r) && !Full(r)
    ensures Occupancy(Arm(r, addr, len)) == Occupancy(r) + 1
    ensures r.tail % |r.slots| == Index(r, Occupancy(r)) && Unused(r, r.tail % |r.slots|)
    ensures forall i: nat :: i <= Occupancy(r) < |r.slots| ==> Index(Arm(r, addr, len), i) == Index(r, i)
  {
    TailIndex(r);
    CounterStep(r.head, r.tail);
  }

  /** Arming a ring that is not full overwrites no slot in use and none the device owns, and appends to the contents. */
  lemma ArmRefines(r: Ring, addr: nat, len: nat)
    requires Valid(r) && !Full(r)
    ensures Unused(r, r.tail % |r.slots|) && !r.slots[r.tail % |r.slots|].owned
    ensures Valid(Arm(r, addr, len)) && Contents(Arm(r, addr, len)) == Contents(r) + [Slot(addr, len, true, false)]
  {
    var r', n := Arm(r, addr, len), Occupancy(r);
    ArmShape(r, addr, len);
    forall i | 0 <= i < n
      ensures r'.slots[Index(r', i)] == r.slots[Index(r, i)]
    {
      assert Index(r, i) != r.tail % |r.slots|;
    }
    forall k | 0 <= k < |r.slots| && Unused(r', k)
      ensures !r'.slots[k].owned
    {
      StillUnused(r, r', n, k);
    }
  }

  lemma StillUnused(r: Ring, r': Ring, n: nat, k: nat)
    requires |r.slots| == |r'.slots| > n && Occupancy(r) == n && Occupancy(r') == n + 1 && Unused(r', k)
    requires forall i: nat :: i <= n ==> Index(r', i) == Index(r, i)
    ensures Unused(r, k) && Index(r, n) != k
  {
    forall i | 0 <= i <= n
      ensures Index(r, i) != k
    {
      assert Index(r', i) != k;
    }
  }

  /** Taking the head out removes the oldest completed slot. */
  lemma PopRefines(r: Ring)
    requires Valid(r) && r.done > 0
    ensures Valid(Pop(r)) && Contents(Pop(r)) == Contents(r)[1..] && Pop(r).done == r.done - 1
  {
    var r', n := Pop(r), Occupancy(r);
    CounterStep(r.head, r.tail);
    assert Occupancy(r') == n - 1;
    forall i: nat | i < n
      ensures Index(r', i) == Index(r, i + 1)
    {
      PopIndex(r, i);
    }
    forall k | 0 <= k < |r.slots| && Unused(r', k)
      ensures !r'.slots[k].owned
    {
      if k != Index(r, 0) {
        assert Unused(r, k) by {
          forall i | 0 <= i < n
            ensures Index(r, i) != k
          {
            if i > 0 {
              assert Index(r', i - 1) != k;
            }
          }
        }
      }
    }
  }

  /** The device completing a slot changes that slot only. */
  lemma CompleteRefines(r: Ring, len: nat, error: bool)
    requires Valid(r) && r.done < Occupancy(r)
    ensures Valid(Complete(r, len, error)) && Complete(r, len, error).done == r.done + 1
    ensures Contents(Complete(r, len, error))
              == Contents(r)[r.done := Contents(r)[r.done].(len := len, error := error, owned := false)]
  {
    var r', n := Complete(r, len, error), Occupancy(r);
    assert forall i :: 0 <= i < n ==> Index(r', i) == Index(r, i);
    forall k | 0 <= k < |r.slots| && Unused(r', k)
      ensures !r'.slots[k].owned
    {
      assert Unused(r, k) by {
        forall i | 0 <= i < n
          ensures Index(r, i) != k
        {
          assert Index(r', i) != k;
        }
      }
    }
  }

  lemma FullWraps(r: Ring)
    requires Valid(r) && Full(r)
    ensures r.tail % |r.slots| == Index(r, 0) == Index(r, |r.slots|)
  {
    TailIndex(r);
  }

  lemma RecycleShape(r: Ring)
    requires Valid(r) && Full(r)
    ensures Occupancy(Recycle(r)) == |r.slots|
    ensures forall i: nat :: i < |r.slots| ==> Index(Recycle(r), i) == Index(r, i + 1)
    ensures forall i: nat :: 0 < i < |r.slots| ==> Index(r, i) != Index(r, 0)
  {
    CounterStep(r.head, r.tail);
    forall i: nat | i < |r.slots|
      ensures Index(Recycle(r), i) == Index(r, i + 1)
    {
      PopIndex(r, i);
    }
  }

  lemma RecycleWhenFull(r: Ring)
    requires Valid(r) && r.done > 0 && Full(r)
    ensures Valid(Recycle(r)) && Recycle(r).done == r.done - 1
    ensures Contents(Recycle(r)) == Contents(r)[1..] + [Slot(Contents(r)[0].addr, 0, true, false)]
  {
    var r', n := Recycle(r), |r.slots|;
    RecycleShape(r);
    FullWraps(r);
    assert r.head % n == Index(r, 0);
    forall i: nat | i < n
      ensures r'.slots[Index(r', i)] ==
              if i < n - 1 then r.slots[Index(r, i + 1)] else Slot(r.slots[Index(r, 0)].addr, 0, true, false)
    {
      assert i < n - 1 ==> Index(r, i + 1) != Index(r, 0);
    }
    forall k | 0 <= k < n && Unused(r', k)
      ensures !r'.slots[k].owned
    {
      assert Index(r', n - 1) != k;
      assert Unused(r, k) by {
        forall i | 0 <= i < n
          ensures Index(r, i) != k
        {
          if i > 0 {
            assert Index(r', i - 1) != k;
          }
        }
      }
    }
  }

  /** Recycling a buffer after an error moves it from the oldest to the newest slot, even when the ring is full. */
  lemma RecycleRefines(r: Ring)
    requires Valid(r) && r.done > 0
    ensures Valid(Recycle(r)) && Recycle(r).done == r.done - 1
    ensures Contents(Recycle(r)) == Contents(r)[1..] + [Slot(Contents(r)[0].addr, 0, true, false)]
  {
    if Full(r) {
      RecycleWhenFull(r);
    } else {
      TailIndex(r);
      var addr := r.slots[r.head % |r.slots|].addr;
      assert addr == Contents(r)[0].addr;
      ArmRefines(r, addr, 0);
      PopRefines(Arm(r, addr, 0));
    }
  }

  // ---- Whole runs -------------------------------------------------------------------------

  datatype Op = OpArm(addr: nat, len: nat) | OpComplete(len: nat, error: bool) | OpPop | OpRecycle

  /** A ring, the buffers ever armed, and the buffers ever taken out, in order. */
  datatype History = History(ring: Ring, armed: seq<nat>, taken: seq<nat>)

  /** The driver finds a completed slot at the head. */
  predicate HeadReady(r: Ring)
    requires |r.slots| > 0
  {
    !Empty(r) && !r.slots[r.head % |r.slots|].owned
  }

  function Step(h: History, op: Op): (h': History)
    requires |h.ring.slots| > 0
    ensures |h'.ring.slots| == |h.ring.slots|
  {
    var r := h.ring;
    match op
    case OpArm(addr, len) => if Full(r) then h else h.(ring := Arm(r, addr, len), armed := h.armed + [addr])
    case OpComplete(len, error) =>
      if r.done < Occupancy(r) && r.done < |r.slots| then h.(ring := Complete(r, len, error)) else h
    case OpPop => if HeadReady(r) then h.(ring := Pop(r), taken := h.taken + [r.slots[r.head % |r.slots|].addr]) else h
    case OpRecycle => if HeadReady(r) then h.(ring := Recycle(r)) else h
  }

  function Run(h: History, ops: seq<Op>): (h': History)
    requires |h.ring.slots| > 0
    ensures |h'.ring.slots| == |h.ring.slots|
  {
    if ops == [] then h else Step(Run(h, ops[..|ops| - 1]), ops[|ops| - 1])
  }

  function Addresses(q: seq<Slot>): (r: seq<nat>)
    ensures |r| == |q| && forall i :: 0 <= i < |q| ==> r[i] == q[i].addr
  {
    seq(|q|, i requires 0 <= i < |q| => q[i].addr)
  }

  /** What was armed is what was taken followed by what is in the ring. */
  predicate InOrder(h: History)
    requires |h.ring.slots| > 0
  {
    h.armed == h.taken + Addresses(Contents(h.ring))
  }

  predicate Conserved(h: History)
    requires |h.ring.slots| > 0
  {
    multiset(h.armed) == multiset(h.taken) + multiset(Addresses(Contents(h.ring)))
  }

  lemma HeadReadyMeans(r: Ring)
    requires Valid(r)
    ensures HeadReady(r) <==> r.done > 0
    ensures r.done > 0 ==> Contents(r)[0] == r.slots[r.head % |r.slots|]
  {
    assert Index(r, 0) == r.head % |r.slots|;
    if Occupancy(r) > 0 {
      assert r.slots[Index(r, 0)].owned <==> 0 >= r.done;
    }
  }

  lemma AddressesOf(a: seq<Slot>, b: seq<Slot>)
    ensures Addresses(a + b) == Addresses(a) + Addresses(b)
    ensures a != [] ==> Addresses(a) == [a[0].addr] + Addresses(a[1..])
  {
  }

  lemma StepValid(h: History, op: Op)
    requires Valid(h.ring)
    ensures Valid(Step(h, op).ring)
  {
    HeadReadyMeans(h.ring);
    match op {
      case OpArm(addr, len) => if !Full(h.ring) { ArmRefines(h.ring, addr, len); }
      case OpComplete(len, error) => if h.ring.done < Occupancy(h.ring) { CompleteRefines(h.ring, len, error); }
      case OpPop => if HeadReady(h.ring) { PopRefines(h.ring); }
      case OpRecycle => if HeadReady(h.ring) { RecycleRefines(h.ring); }
    }
  }

  lemma ArmInOrder(h: History, addr: nat, len: nat)
    requires Valid(h.ring) && !Full(h.ring)
    ensures var h' := h.(ring := Arm(h.ring, addr, len), armed := h.armed + [addr]);
            (Conserved(h) ==> Conserved(h')) && (InOrder(h) ==> InOrder(h'))
  {
    ArmRefines(h.ring, addr, len);
    var last := Slot(addr, len, true, false);
    AddressesOf(Contents(h.ring), [last]);
    assert Addresses([last]) == [addr];
    AppendAssociates(h.taken, Addresses(Contents(h.ring)), [addr]);
  }

  lemma PopInOrder(h: History)
    requires Valid(h.ring) && h.ring.done > 0
    ensures var h' := h.(ring := Pop(h.ring), taken := h.taken + [Contents(h.ring)[0].addr]);
            (Conserved(h) ==> Conserved(h')) && (InOrder(h) ==> InOrder(h'))
  {
    PopRefines(h.ring);
    AddressesOf(Contents(h.ring), []);
    AppendAssociates(h.taken, [Contents(h.ring)[0].addr], Addresses(Contents(Pop(h.ring))));
  }

  lemma CompleteInOrder(h: History, len: nat, error: bool)
    requires Valid(h.ring) && h.ring.done < Occupancy(h.ring)
    ensures Addresses(Contents(Complete(h.ring, len, error))) == Addresses(Contents(h.ring))
  {
    CompleteRefines(h.ring, len, error);
  }

  lemma RecycleConserved(h: History)
    requires Valid(h.ring) && h.ring.done > 0
    ensures multiset(Addresses(Contents(Recycle(h.ring)))) == multiset(Addresses(Contents(h.ring)))
  {
    RecycleRefines(h.ring);
    var c := Contents(h.ring);
    var last := Slot(c[0].addr, 0, true, false);
    AddressesOf(c, []);
    AddressesOf(c[1..], [last]);
    assert Addresses([last]) == [c[0].addr];
  }

  lemma StepInOrder(h: History, op: Op)
    requires Valid(h.ring)
    ensures Valid(Step(h, op).ring)
    ensures Conserved(h) ==> Conserved(Step(h, op))
    ensures InOrder(h) && !op.OpRecycle? ==> InOrder(Step(h, op))
  {
    StepValid(h, op);
    HeadReadyMeans(h.ring);
    match op {
      case OpArm(addr, len) => if !Full(h.ring) { ArmInOrder(h, addr, len); }
      case OpComplete(len, error) => if h.ring.done < Occupancy(h.ring) { CompleteInOrder(h, len, error); }
      case OpPop => if HeadReady(h.ring) { PopInOrder(h); }
      case OpRecycle => if HeadReady(h.ring) { RecycleConserved(h); }
    }
  }

  /**
   Through any number of counter wraps, whatever the driver and the device do, the ring stays valid; buffers are
   neither lost nor duplicated; and as long as no error recycles a buffer they come out in the order they went in.
   */
  lemma {:induction false} RingIsFifo(h: History, ops: seq<Op>)
    requires Valid(h.ring) && h.armed == h.taken + Addresses(Contents(h.ring))
    ensures Valid(Run(h, ops).ring) && Conserved(Run(h, ops))
    ensures (forall i :: 0 <= i < |ops| ==> !ops[i].OpRecycle?) ==> InOrder(Run(h, ops))
  {
    if ops != [] {
      var init, op := ops[..|ops| - 1], ops[|ops| - 1];
      RingIsFifo(h, init);
      StepInOrder(Run(h, init), op);
      assert forall i :: 0 <= i < |init| ==> init[i] == ops[i];
    }
  }

  /** The next slot index is the next counter's index, for every counter, exactly when the capacity divides 2^32. */
  lemma CapacityMustDivide(n: nat)
    requires n > 0
    ensures (forall c: nat :: c < MODULUS ==> ((c + 1) % MODULUS) % n == (c % n + 1) % n) <==> 0x1_0000_0000 % n == 0
  {
    if MODULUS % n == 0 {
      forall c: nat | c < MODULUS
        ensures ((c + 1) % MODULUS) % n == (c % n + 1) % n
      {
        ModMod(c + 1, MODULUS, n);
        ModAdd(c, 1, n);
      }
    } else {
      var c: nat := MODULUS - 1;
      ModAdd(c, 1, n);
      assert ((c + 1) % MODULUS) % n == 0 != (c % n + 1) % n;
    }
  }
}
