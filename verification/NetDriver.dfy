/** The receive handlers of the imx and meson Ethernet drivers over the descriptor ring of HwRing. */
module NetDriver {
  import opened HwRing
  import opened Sequences

  datatype Filled = Filled(addr: nat, len: nat)

  /** What the driver passes on from these slots: the buffers received without error, in order. */
  function Good(q: seq<Slot>): seq<Filled>
  {
    if q == [] then []
    else Good(q[..|q| - 1]) + if q[|q| - 1].error then [] else [Filled(q[|q| - 1].addr, q[|q| - 1].len)]
  }

  /** The slots the meson driver arms again: the buffers received with an error, in order. */
  function Rearmed(q: seq<Slot>): seq<Slot>
  {
    if q == [] then []
    else Rearmed(q[..|q| - 1]) + if q[|q| - 1].error then [Slot(q[|q| - 1].addr, 0, true, false)] else []
  }

  /** All of these slots, as the imx driver passes them on. */
  function AllFilled(q: seq<Slot>): (r: seq<Filled>)
    ensures |r| == |q| && forall i :: 0 <= i < |q| ==> r[i] == Filled(q[i].addr, q[i].len)
  {
    seq(|q|, i requires 0 <= i < |q| => Filled(q[i].addr, q[i].len))
  }

  lemma SlotPush(q: seq<Slot>, d: Slot)
    ensures Good(q + [d]) == Good(q) + if d.error then [] else [Filled(d.addr, d.len)]
    ensures Rearmed(q + [d]) == Rearmed(q) + if d.error then [Slot(d.addr, 0, true, false)] else []
    ensures AllFilled(q + [d]) == AllFilled(q) + [Filled(d.addr, d.len)]
    ensures Addresses(q + [d]) == Addresses(q) + [d.addr]
  {
    assert (q + [d])[..|q|] == q;
  }

  /** Names the places where a proof looks inside the ring; everywhere else its contents are enough. */
  predicate Inside(k: int)
  {
    true
  }

  /** The ring is valid and its slots in use are q, oldest first. */
  ghost predicate Holds(r: Ring, q: seq<Slot>)
  {
    && r.done <= |q| <= |r.slots| && 0 < |r.slots| && Occupancy(r) == |q|
    && (forall k: int {:trigger Inside(k)} :: Inside(k) ==> Valid(r) && Contents(r) == q)
  }

  lemma HoldsIf(r: Ring, q: seq<Slot>)
    requires Valid(r) && Contents(r) == q
    ensures Holds(r, q)
  {
  }

  /** The driver sees the oldest slot at the head, and finds it completed exactly when the device has completed any. */
  lemma HoldsHead(r: Ring, q: seq<Slot>)
    requires Holds(r, q) && q != []
    ensures r.slots[r.head % |r.slots|] == q[0] && (q[0].owned <==> r.done == 0)
  {
    assert Inside(0);
    HeadReadyMeans(r);
    assert Index(r, 0) == r.head % |r.slots|;
  }

  lemma HoldsArm(r: Ring, q: seq<Slot>, addr: nat)
    requires Holds(r, q) && |q| < |r.slots|
    ensures !r.slots[r.tail % |r.slots|].owned
    ensures Holds(Arm(r, addr, 0), q + [Slot(addr, 0, true, false)])
  {
    assert Inside(0);
    ArmRefines(r, addr, 0);
    HoldsIf(Arm(r, addr, 0), q + [Slot(addr, 0, true, false)]);
  }

  lemma HoldsPop(r: Ring, q: seq<Slot>)
    requires Holds(r, q) && r.done > 0
    ensures Holds(Pop(r), q[1..])
  {
    assert Inside(0);
    PopRefines(r);
    HoldsIf(Pop(r), q[1..]);
  }

  lemma HoldsRecycle(r: Ring, q: seq<Slot>)
    requires Holds(r, q) && r.done > 0
    ensures Holds(Recycle(r), q[1..] + [Slot(q[0].addr, 0, true, false)])
  {
    assert Inside(0);
    RecycleRefines(r);
    HoldsIf(Recycle(r), q[1..] + [Slot(q[0].addr, 0, true, false)]);
  }

  lemma HoldsComplete(r: Ring, q: seq<Slot>, len: nat, error: bool)
    requires Holds(r, q) && r.done < |q|
    ensures Holds(Complete(r, len, error), q[r.done := q[r.done].(len := len, error := error, owned := false)])
  {
    assert Inside(0);
    CompleteRefines(r, len, error);
    HoldsIf(Complete(r, len, error), q[r.done := q[r.done].(len := len, error := error, owned := false)]);
  }

  /** The device reports on a slot: how many bytes it received, and whether with an error. */
  datatype Completion = Completion(len: nat, error: bool)

  /** What the device reported on these slots. */
  function Reports(q: seq<Slot>): (r: seq<Completion>)
    ensures |r| == |q| && forall i :: 0 <= i < |q| ==> r[i] == Completion(q[i].len, q[i].error)
  {
    seq(|q|, i requires 0 <= i < |q| => Completion(q[i].len, q[i].error))
  }

  lemma ReportsAppend(a: seq<Slot>, b: seq<Slot>)
    ensures Reports(a + b) == Reports(a) + Reports(b)
  {
  }

  /** What the device may change in the slots in use while the driver works: those it had not completed. */
  predicate Progressed(fifo: seq<Slot>, done: nat, fifo': seq<Slot>, done': nat)
  {
    && done <= done' <= |fifo'| == |fifo| && done <= |fifo|
    && fifo'[..done] == fifo[..done] && Addresses(fifo') == Addresses(fifo)
  }

  /** The device went on, completing slots with some of these reports, in order. */
  predicate Reported(fifo: seq<Slot>, done: nat, fifo': seq<Slot>, done': nat, told: seq<Completion>,
                     cs: seq<Completion>)
  {
    && Progressed(fifo, done, fifo', done') && IsSubsequence(told, cs)
    && Reports(fifo'[..done']) == Reports(fifo[..done]) + told
  }

  lemma ReportedNone(fifo: seq<Slot>, done: nat)
    requires done <= |fifo|
    ensures Reported(fifo, done, fifo, done, [], [])
  {
    assert Reports(fifo[..done]) + [] == Reports(fifo[..done]);
  }

  lemma ReportedSkip(fifo: seq<Slot>, done: nat, fifo': seq<Slot>, done': nat, told: seq<Completion>,
                     cs: seq<Completion>, c: Completion)
    requires Reported(fifo, done, fifo', done', told, cs)
    ensures Reported(fifo, done, fifo', done', told, cs + [c])
  {
    SubsequenceSkip(told, cs, c);
  }

  lemma ReportedNext(fifo: seq<Slot>, done: nat, fifo': seq<Slot>, done': nat, told: seq<Completion>,
                     cs: seq<Completion>, c: Completion)
    requires Reported(fifo, done, fifo', done', told, cs) && done' < |fifo'|
    ensures var last := fifo'[done'].(len := c.len, error := c.error, owned := false);
            Reported(fifo, done, fifo'[done' := last], done' + 1, told + [c], cs + [c])
  {
    var last := fifo'[done'].(len := c.len, error := c.error, owned := false);
    var now := fifo'[done' := last];
    assert now[..done' + 1] == fifo'[..done'] + [last];
    ReportsAppend(fifo'[..done'], [last]);
    assert Reports([last]) == [c];
    AppendAssociates(Reports(fifo[..done]), told, [c]);
    SubsequenceKeep(told, cs, c);
    assert now[..done] == fifo'[..done];
    assert Addresses(now) == Addresses(fifo');
  }

  /** Where the slots in use went: taken out in this order, still in the ring, or armed again after an error. */
  predicate Accounted(before: seq<Slot>, again: seq<Slot>, seen: seq<Slot>, fifo: seq<Slot>)
  {
    Addresses(before) + Addresses(again) == Addresses(seen) + Addresses(fifo)
  }

  lemma AccountedPop(before: seq<Slot>, again: seq<Slot>, seen: seq<Slot>, fifo: seq<Slot>)
    requires Accounted(before, again, seen, fifo) && fifo != []
    ensures Accounted(before, again, seen + [fifo[0]], fifo[1..])
  {
    SlotPush(seen, fifo[0]);
    AddressesOf(fifo, []);
    AppendAssociates(Addresses(seen), [fifo[0].addr], Addresses(fifo[1..]));
  }

  lemma AccountedRecycle(before: seq<Slot>, again: seq<Slot>, seen: seq<Slot>, fifo: seq<Slot>)
    requires Accounted(before, again, seen, fifo) && fifo != []
    ensures var last := Slot(fifo[0].addr, 0, true, false);
            Accounted(before, again + [last], seen + [fifo[0]], fifo[1..] + [last])
  {
    var last := Slot(fifo[0].addr, 0, true, false);
    AccountedPop(before, again, seen, fifo);
    SlotPush(again, last);
    SlotPush(fifo[1..], last);
    AppendAssociates(Addresses(before), Addresses(again), [last.addr]);
    AppendAssociates(Addresses(seen + [fifo[0]]), Addresses(fifo[1..]), [last.addr]);
  }

  class Driver {
    const slots: array<Slot>
    var head: nat
    var tail: nat
    var done: nat                 // the device's progress
    var free: seq<nat>            // rx_queue.free: buffers to arm
    var active: seq<Filled>       // rx_queue.active: buffers received
    var freeSignalWanted: bool
    ghost var fifo: seq<Slot>     // the slots in use, oldest first

    function Abs(): Ring
      reads this, slots
    {
      Ring(head, tail, slots[..], done)
    }

    /** The ring is valid and holds fifo. */
    ghost predicate Ok()
      reads this, slots
    {
      Holds(Abs(), fifo)
    }

    constructor (capacity: nat)
      requires 0 < capacity < MODULUS && MODULUS % capacity == 0
      ensures Ok() && fifo == [] && free == [] && active == [] && fresh(slots) && slots.Length == capacity
    {
      slots := new Slot[capacity](_ => Slot(0, 0, false, false));
      head, tail, done, free, active, freeSignalWanted, fifo := 0, 0, 0, [], [], false, [];
    }

    /** update_ring_slot at the tail. */
    method WriteTail(d: Slot)
      requires slots.Length > 0
      modifies slots
      ensures slots[..] == old(slots[..])[tail % slots.Length := d]
    {
      var idx := tail % slots.Length;
      slots[idx] := d;
    }

    /** Arm one slot with the next free buffer. */
    method ArmOne()
      requires Ok() && !Full(Abs()) && free != []
      modifies this`tail, this`free, this`fifo, slots
      ensures Ok() && free == old(free)[1..] && fifo == old(fifo) + [Slot(old(free)[0], 0, true, false)]
    {
      ghost var r := Abs();
      HoldsArm(r, fifo, free[0]);
      WriteTail(Slot(free[0], 0, true, false));
      tail := (tail + 1) % MODULUS;
      fifo := fifo + [Slot(free[0], 0, true, false)];
      free := free[1..];
      assert Abs() == Arm(r, old(free)[0], 0);
    }

    /** The slot at the head, and whether the device has completed it. */
    method LookAtHead() returns (d: Slot)
      requires Ok() && !Empty(Abs())
      ensures fifo != [] && d == fifo[0] && (d.owned <==> done == 0)
    {
      HoldsHead(Abs(), fifo);
      d := slots[head % slots.Length];
    }

    /** head++ past a completed slot. */
    method PopOne()
      requires Ok() && done > 0
      modifies this`head, this`done, this`fifo
      ensures Ok() && fifo == old(fifo)[1..] && done == old(done) - 1
    {
      ghost var r := Abs();
      HoldsPop(r, fifo);
      head, done, fifo := (head + 1) % MODULUS, done - 1, fifo[1..];
      assert Abs() == Pop(r);
    }

    /** Arm the tail with the buffer at the head, then head++. */
    method RecycleOne(d: Slot)
      requires Ok() && done > 0 && d == fifo[0]
      modifies this`head, this`tail, this`done, this`fifo, slots
      ensures Ok() && fifo == old(fifo)[1..] + [Slot(d.addr, 0, true, false)] && done == old(done) - 1
    {
      ghost var r := Abs();
      HoldsHead(r, fifo);
      HoldsRecycle(r, fifo);
      WriteTail(Slot(d.addr, 0, true, false));
      tail := (tail + 1) % MODULUS;
      head, done := (head + 1) % MODULUS, done - 1;
      fifo := fifo[1..] + [Slot(d.addr, 0, true, false)];
      assert Abs() == Recycle(r);
    }

    /** Arm free buffers, in order, until the ring is full or none is left. */
    method ArmAll()
      requires Ok()
      modifies this`tail, this`free, this`fifo, slots
      ensures Ok() && old(fifo) <= fifo && (free == [] || Full(Abs()))
      ensures Addresses(fifo) + free == old(Addresses(fifo)) + old(free)
    {
      while !Full(Abs()) && free != []
        invariant Ok() && old(fifo) <= fifo
        invariant Addresses(fifo) + free == old(Addresses(fifo)) + old(free)
        decreases |free|
      {
        AddressesOf(fifo, [Slot(free[0], 0, true, false)]);
        assert Addresses([Slot(free[0], 0, true, false)]) == [free[0]];
        AppendMove(Addresses(fifo), free);
        ArmOne();
      }
    }

    /**
     rx_provide of the imx driver. The rounds say what the virtualiser adds to the free queue before each second look.
     Buffers are armed in the order they were freed, until the ring is full or none is left; a signal is wanted
     afterwards exactly when the ring is not full. So many rounds were taken until then.
     */
    method RxProvide(rounds: seq<seq<nat>>) returns (ghost used: nat)
      requires Ok()
      modifies this`tail, this`free, this`freeSignalWanted, this`fifo, slots
      ensures Ok() && (free == [] || |fifo| == slots.Length) && (freeSignalWanted <==> |fifo| < slots.Length)
      ensures old(fifo) <= fifo && used <= |rounds|
      ensures Addresses(fifo) + free == old(Addresses(fifo)) + (old(free) + Concat(rounds[..used]))
    {
      ghost var before, arrived := Addresses(fifo), [];
      var reprocess, round := true, 0;
      while reprocess
        invariant Ok() && round <= |rounds| && old(fifo) <= fifo && arrived == Concat(rounds[..round])
        invariant !reprocess ==> (free == [] || Full(Abs())) && (freeSignalWanted <==> !Full(Abs()))
        invariant Addresses(fifo) + free == before + (old(free) + arrived)
        decreases |rounds| - round, reprocess
      {
        ArmAll();
        freeSignalWanted := !Full(Abs());
        reprocess := false;
        if round < |rounds| {
          AppendAssociates(old(free), arrived, rounds[round]);
          AppendAssociates(before, old(free) + arrived, rounds[round]);
          AppendAssociates(Addresses(fifo), free, rounds[round]);
          ConcatPush(rounds[..round], rounds[round]);
          assert rounds[..round + 1] == rounds[..round] + [rounds[round]];
          free, arrived, round := free + rounds[round], arrived + rounds[round], round + 1;
        }
        if free != [] && !Full(Abs()) {
          freeSignalWanted := false;
          reprocess := true;
        }
      }
      used := round;
    }

    method WriteSlot(k: nat, d: Slot)
      requires k < slots.Length
      modifies slots
      ensures slots[..] == old(slots[..])[k := d]
    {
      slots[k] := d;
    }

    /** The device completes the oldest slot it owns. */
    method CompleteOne(c: Completion)
      requires Ok() && done < |fifo|
      modifies this`done, this`fifo, slots
      ensures Ok() && done == old(done) + 1
      ensures fifo == old(fifo)[old(done) := old(fifo)[old(done)].(len := c.len, error := c.error, owned := false)]
    {
      ghost var r := Abs();
      HoldsComplete(r, fifo, c.len, c.error);
      var k := Index(Abs(), done);
      WriteSlot(k, slots[k].(len := c.len, error := c.error, owned := false));
      fifo := fifo[done := fifo[done].(len := c.len, error := c.error, owned := false)];
      done := done + 1;
      assert Abs() == Complete(r, c.len, c.error);
    }

    /** The device completes slots while the driver works, as far as it owns any. */
    method Device(cs: seq<Completion>) returns (ghost told: seq<Completion>)
      requires Ok()
      modifies this`done, this`fifo, slots
      ensures Ok() && Reported(old(fifo), old(done), fifo, done, told, cs)
      ensures cs == [] ==> fifo == old(fifo) && done == old(done)
    {
      told := [];
      ReportedNone(fifo, done);
      for i := 0 to |cs|
        invariant Ok() && Reported(old(fifo), old(done), fifo, done, told, cs[..i])
        invariant i == 0 ==> fifo == old(fifo) && done == old(done)
      {
        assert cs[..i + 1] == cs[..i] + [cs[i]];
        if done < ((tail - head) % MODULUS) {
          ReportedNext(old(fifo), old(done), fifo, done, told, cs[..i], cs[i]);
          CompleteOne(cs[i]);
          told := told + [cs[i]];
        } else {
          ReportedSkip(old(fifo), old(done), fifo, done, told, cs[..i], cs[i]);
        }
      }
      assert cs[..|cs|] == cs;
    }

    /** One look at the head, after the device has acted: a completed slot is taken out, and passed on. */
    method TakeOne(cs: seq<Completion>, ghost before: seq<Slot>, ghost done0: nat, ghost seen: seq<Slot>,
                   ghost told: seq<Completion>, ghost quiet: bool)
      returns (more: bool, ghost seen': seq<Slot>, ghost told': seq<Completion>)
      requires Ok() && Taking(before, done0, [], seen, fifo, done, told, quiet) && (quiet ==> cs == [])
      modifies this`head, this`done, this`active, this`fifo, slots
      ensures Ok() && Taking(before, done0, [], seen', fifo, done, told + told', quiet) && IsSubsequence(told', cs)
      ensures if more then |seen'| == |seen| + 1 && seen' == seen + [seen'[|seen|]] && (cs == [] ==> done < old(done))
                           && active == old(active) + [Filled(seen'[|seen|].addr, seen'[|seen|].len)]
              else seen' == seen && active == old(active) && done == 0
    {
      ghost var fifo0 := fifo;
      told' := Device(cs);
      TakingProgress(before, done0, [], seen, fifo0, old(done), told, fifo, done, told', quiet);
      more, seen' := !Empty(Abs()), seen;
      if more {
        var d := LookAtHead();
        more := !d.owned;
        if more {
          TakingPop(before, done0, [], seen, fifo, done, told + told', quiet);
          active := active + [Filled(d.addr, d.len)];
          PopOne();
          seen' := seen + [d];
        }
      }
    }

    /**
     rx_return of the imx driver, while the device goes on completing slots: everything it has completed goes to the
     active queue, in order, until the driver finds a slot it has not. All that was completed at entry is among that.
     */
    method RxReturn(env: seq<seq<Completion>>) returns (ghost seen: seq<Slot>)
      requires Ok()
      modifies this`head, this`done, this`active, this`fifo, slots
      ensures Ok() && done == 0 && Addresses(old(fifo)) == Addresses(seen) + Addresses(fifo)
      ensures old(fifo)[..old(done)] <= seen && active == old(active) + AllFilled(seen)
      ensures IsSubsequence(Reports(seen[old(done)..]), Concat(env))
      ensures env == [] ==> seen == old(fifo)[..old(done)] && fifo == old(fifo)[old(done)..]
    {
      var round, busy := 0, true;
      seen := [];
      ghost var told: seq<Completion> := [];
      TakingStart(fifo, done, env == []);
      while busy
        invariant Ok() && round <= |env| && active == old(active) + AllFilled(seen)
        invariant Taking(old(fifo), old(done), [], seen, fifo, done, told, env == [])
        invariant IsSubsequence(told, Concat(env[..round]))
        invariant !busy ==> done == 0
        decreases |env| - round, done, busy
      {
        ghost var seen0 := seen;
        ghost var more;
        busy, seen, more :=
          TakeOne(if round < |env| then env[round] else [], old(fifo), old(done), seen, told, env == []);
        ToldMore(env, round, told, more);
        told := told + more;
        if busy {
          SlotPush(seen0, seen[|seen0|]);
        }
        round := if round < |env| then round + 1 else round;
      }
      TakingEnd(old(fifo), old(done), [], seen, fifo, told, env == []);
      ToldAll(env, round, told);
      assert Addresses([]) == [];
    }

    /** A completed slot: passed on, or armed again if it was received with an error. */
    method PassOrRecycle(d: Slot, ghost before: seq<Slot>, ghost done0: nat, ghost seen: seq<Slot>,
                         ghost told: seq<Completion>, ghost quiet: bool)
      requires Ok() && done > 0 && d == fifo[0] && Taking(before, done0, Rearmed(seen), seen, fifo, done, told, quiet)
      modifies this`head, this`tail, this`done, this`active, this`fifo, slots
      ensures Ok() && done == old(done) - 1
      ensures Taking(before, done0, Rearmed(seen + [d]), seen + [d], fifo, done, told, quiet)
      ensures active == old(active) + Good([d])
    {
      SlotPush(seen, d);
      SlotPush([], d);
      assert [] + [d] == [d];
      if d.error {
        TakingRecycle(before, done0, Rearmed(seen), seen, fifo, done, told, quiet);
        RecycleOne(d);
      } else {
        TakingPop(before, done0, Rearmed(seen), seen, fifo, done, told, quiet);
        active := active + [Filled(d.addr, d.len)];
        PopOne();
      }
    }

    /** One look at the head, as above, except that a buffer received with an error is armed again. */
    method TakeOneMeson(cs: seq<Completion>, ghost before: seq<Slot>, ghost done0: nat, ghost seen: seq<Slot>,
                        ghost told: seq<Completion>, ghost quiet: bool)
      returns (more: bool, ghost seen': seq<Slot>, ghost told': seq<Completion>)
      requires Ok() && Taking(before, done0, Rearmed(seen), seen, fifo, done, told, quiet) && (quiet ==> cs == [])
      modifies this`head, this`tail, this`done, this`active, this`fifo, slots
      ensures Ok() && Taking(before, done0, Rearmed(seen'), seen', fifo, done, told + told', quiet)
      ensures IsSubsequence(told', cs)
      ensures if more then |seen'| == |seen| + 1 && seen' == seen + [seen'[|seen|]] && (cs == [] ==> done < old(done))
              else seen' == seen && done == 0
      ensures active == old(active) + if more then Good([seen'[|seen|]]) else []
    {
      ghost var fifo0, again := fifo, Rearmed(seen);
      told' := Device(cs);
      TakingProgress(before, done0, again, seen, fifo0, old(done), told, fifo, done, told', quiet);
      more, seen' := !Empty(Abs()), seen;
      if more {
        var d := LookAtHead();
        more := !d.owned;
        if more {
          PassOrRecycle(d, before, done0, seen, told + told', quiet);
          seen' := seen + [d];
        }
      }
    }

    /**
     rx_return of the meson driver, while the device goes on completing slots: as above, except that buffers received
     with an error are armed again at the tail, even when the ring is full.
     */
    method RxReturnMeson(env: seq<seq<Completion>>) returns (ghost seen: seq<Slot>)
      requires Ok()
      modifies this`head, this`tail, this`done, this`active, this`fifo, slots
      ensures Ok() && done == 0
      ensures Addresses(old(fifo)) + Addresses(Rearmed(seen)) == Addresses(seen) + Addresses(fifo)
      ensures old(fifo)[..old(done)] <= seen && active == old(active) + Good(seen)
      ensures IsSubsequence(Reports(seen[old(done)..]), Concat(env))
      ensures env == [] ==> seen == old(fifo)[..old(done)] && fifo == old(fifo)[old(done)..] + Rearmed(seen)
    {
      var round, busy := 0, true;
      seen := [];
      ghost var told: seq<Completion> := [];
      TakingStart(fifo, done, env == []);
      while busy
        invariant Ok() && round <= |env| && active == old(active) + Good(seen)
        invariant Taking(old(fifo), old(done), Rearmed(seen), seen, fifo, done, told, env == [])
        invariant IsSubsequence(told, Concat(env[..round]))
        invariant !busy ==> done == 0
        decreases |env| - round, done, busy
      {
        ghost var seen0 := seen;
        ghost var more;
        busy, seen, more :=
          TakeOneMeson(if round < |env| then env[round] else [], old(fifo), old(done), seen, told, env == []);
        ToldMore(env, round, told, more);
        told := told + more;
        if busy {
          GoodPush(old(active), seen0, seen[|seen0|]);
        }
        round := if round < |env| then round + 1 else round;
      }
      TakingEnd(old(fifo), old(done), Rearmed(seen), seen, fifo, told, env == []);
      ToldAll(env, round, told);
    }
  }

  lemma GoodPush(active: seq<Filled>, q: seq<Slot>, d: Slot)
    ensures (active + Good(q)) + Good([d]) == active + Good(q + [d])
  {
    SlotPush(q, d);
    SlotPush([], d);
    assert [] + [d] == [d];
  }

  /** What was completed at first is what has been taken out, or stands at the head of what is completed now. */
  predicate Ahead(first: seq<Slot>, seen: seq<Slot>, ready: seq<Slot>)
  {
    first <= seen + ready
  }

  lemma AheadProgress(first: seq<Slot>, seen: seq<Slot>, fifo: seq<Slot>, done: nat, fifo': seq<Slot>, done': nat)
    requires Progressed(fifo, done, fifo', done') && Ahead(first, seen, fifo[..done])
    ensures Ahead(first, seen, fifo'[..done'])
  {
    assert seen + fifo[..done] <= seen + fifo'[..done'] by {
      assert fifo'[..done'][..done] == fifo'[..done];
    }
  }

  lemma AheadPop(first: seq<Slot>, seen: seq<Slot>, fifo: seq<Slot>, done: nat)
    requires 0 < done <= |fifo| && Ahead(first, seen, fifo[..done])
    ensures Ahead(first, seen + [fifo[0]], fifo[1..][..done - 1])
    ensures forall x :: Ahead(first, seen + [fifo[0]], (fifo[1..] + [x])[..done - 1])
  {
    var rest := fifo[1..][..done - 1];
    assert fifo[..done] == [fifo[0]] + rest;
    AppendAssociates(seen, [fifo[0]], rest);
    forall x
      ensures Ahead(first, seen + [fifo[0]], (fifo[1..] + [x])[..done - 1])
    {
      assert (fifo[1..] + [x])[..done - 1] == rest;
    }
  }

  /** Names the places where a proof looks at what became of the slots. */
  predicate Viewed(k: int, seen: seq<Slot>, fifo: seq<Slot>)
  {
    true
  }

  /** The device's reports, round by round. */
  lemma ToldMore(env: seq<seq<Completion>>, round: nat, told: seq<Completion>, more: seq<Completion>)
    requires round <= |env| && IsSubsequence(told, Concat(env[..round]))
    requires IsSubsequence(more, if round < |env| then env[round] else [])
    ensures IsSubsequence(told + more, Concat(env[..if round < |env| then round + 1 else round]))
  {
    if round < |env| {
      ConcatPush(env[..round], env[round]);
      assert env[..round + 1] == env[..round] + [env[round]];
      SubsequenceJoin(told, Concat(env[..round]), more, env[round]);
    } else {
      assert told + [] == told;
    }
  }

  lemma {:induction false} ToldAll(env: seq<seq<Completion>>, round: nat, told: seq<Completion>)
    requires round <= |env| && IsSubsequence(told, Concat(env[..round]))
    ensures IsSubsequence(told, Concat(env))
    decreases |env| - round
  {
    if round < |env| {
      ToldMore(env, round, told, []);
      assert told + [] == told;
      ToldAll(env, round + 1, told);
    } else {
      assert env[..round] == env;
    }
  }

  /**
   How far a handler has come: slots taken out, slots in the ring, buffers armed again, and what the device reported
   meanwhile; quiet if it does nothing.
   */
  ghost predicate Taking(before: seq<Slot>, done0: nat, again: seq<Slot>, seen: seq<Slot>, fifo: seq<Slot>, done: nat,
                         told: seq<Completion>, quiet: bool)
  {
    && done0 <= |before| && done <= |fifo|
    && forall k: int {:trigger Viewed(k, seen, fifo)} :: Viewed(k, seen, fifo) ==>
         TakingSo(before, done0, again, seen, fifo, done, told, quiet)
  }

  ghost predicate TakingSo(before: seq<Slot>, done0: nat, again: seq<Slot>, seen: seq<Slot>, fifo: seq<Slot>, done: nat,
                           told: seq<Completion>, quiet: bool)
    requires done0 <= |before| && done <= |fifo|
  {
    && Accounted(before, again, seen, fifo) && Ahead(before[..done0], seen, fifo[..done])
    && Reports(seen + fifo[..done]) == Reports(before[..done0]) + told
    && (quiet ==> seen + fifo == before + again && |seen| + done == done0)
  }

  lemma TakingStart(fifo: seq<Slot>, done: nat, quiet: bool)
    requires done <= |fifo|
    ensures Taking(fifo, done, [], [], fifo, done, [], quiet)
  {
    assert Addresses([]) == [] && Addresses(fifo) + [] == Addresses(fifo);
    assert [] + fifo == fifo + [] && [] + fifo[..done] == fifo[..done];
    assert Reports(fifo[..done]) + [] == Reports(fifo[..done]);
    assert TakingSo(fifo, done, [], [], fifo, done, [], quiet);
  }

  lemma TakingProgress(before: seq<Slot>, done0: nat, again: seq<Slot>, seen: seq<Slot>, fifo: seq<Slot>, done: nat,
                       told: seq<Completion>, fifo': seq<Slot>, done': nat, more: seq<Completion>, quiet: bool)
    requires Taking(before, done0, again, seen, fifo, done, told, quiet) && Progressed(fifo, done, fifo', done')
    requires Reports(fifo'[..done']) == Reports(fifo[..done]) + more
    requires quiet ==> fifo' == fifo && done' == done
    ensures Taking(before, done0, again, seen, fifo', done', told + more, quiet)
  {
    assert Viewed(0, seen, fifo);
    AheadProgress(before[..done0], seen, fifo, done, fifo', done');
    ReportsAppend(seen, fifo[..done]);
    ReportsAppend(seen, fifo'[..done']);
    AppendAssociates(Reports(seen), Reports(fifo[..done]), more);
    AppendAssociates(Reports(before[..done0]), told, more);
    assert TakingSo(before, done0, again, seen, fifo', done', told + more, quiet);
  }

  /** The slots taken out and those completed are the same, in order, when the first of these is taken out. */
  lemma SameReports(seen: seq<Slot>, fifo: seq<Slot>, done: nat, tail: seq<Slot>)
    requires 0 < done <= |fifo|
    ensures (seen + [fifo[0]]) + (fifo[1..] + tail)[..done - 1] == seen + fifo[..done]
  {
    assert (fifo[1..] + tail)[..done - 1] == fifo[1..done];
    assert fifo[..done] == [fifo[0]] + fifo[1..done];
    AppendAssociates(seen, [fifo[0]], fifo[1..done]);
  }

  lemma TakingPop(before: seq<Slot>, done0: nat, again: seq<Slot>, seen: seq<Slot>, fifo: seq<Slot>, done: nat,
                  told: seq<Completion>, quiet: bool)
    requires Taking(before, done0, again, seen, fifo, done, told, quiet) && done > 0
    ensures Taking(before, done0, again, seen + [fifo[0]], fifo[1..], done - 1, told, quiet)
  {
    assert Viewed(0, seen, fifo);
    AccountedPop(before, again, seen, fifo);
    AheadPop(before[..done0], seen, fifo, done);
    AppendMove(seen, fifo);
    SameReports(seen, fifo, done, []);
    assert fifo[1..] + [] == fifo[1..];
    assert TakingSo(before, done0, again, seen + [fifo[0]], fifo[1..], done - 1, told, quiet);
  }

  lemma TakingRecycle(before: seq<Slot>, done0: nat, again: seq<Slot>, seen: seq<Slot>, fifo: seq<Slot>, done: nat,
                      told: seq<Completion>, quiet: bool)
    requires Taking(before, done0, again, seen, fifo, done, told, quiet) && done > 0
    ensures var last := Slot(fifo[0].addr, 0, true, false);
            Taking(before, done0, again + [last], seen + [fifo[0]], fifo[1..] + [last], done - 1, told, quiet)
  {
    var last := Slot(fifo[0].addr, 0, true, false);
    assert Viewed(0, seen, fifo);
    AccountedRecycle(before, again, seen, fifo);
    AheadPop(before[..done0], seen, fifo, done);
    AppendMove(seen, fifo);
    AppendAssociates(seen + [fifo[0]], fifo[1..], [last]);
    AppendAssociates(before, again, [last]);
    SameReports(seen, fifo, done, [last]);
    assert TakingSo(before, done0, again + [last], seen + [fifo[0]], fifo[1..] + [last], done - 1, told, quiet);
  }

  lemma TakingEnd(before: seq<Slot>, done0: nat, again: seq<Slot>, seen: seq<Slot>, fifo: seq<Slot>,
                  told: seq<Completion>, quiet: bool)
    requires Taking(before, done0, again, seen, fifo, 0, told, quiet)
    ensures Addresses(before) + Addresses(again) == Addresses(seen) + Addresses(fifo) && before[..done0] <= seen
    ensures Reports(seen[done0..]) == told
    ensures quiet ==> seen == before[..done0] && fifo == before[done0..] + again
  {
    assert Viewed(0, seen, fifo);
    assert seen + fifo[..0] == seen;
    assert Reports(seen)[done0..] == Reports(seen[done0..]);
    if quiet {
      assert (seen + fifo)[..done0] == seen && (seen + fifo)[done0..] == fifo;
      assert (before + again)[..done0] == before[..done0] && (before + again)[done0..] == before[done0..] + again;
    }
  }
}
