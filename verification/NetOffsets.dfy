/**
 The buffers of a network data region: they lie one after another, 2048 bytes each. What the transmit virtualiser makes
 of a queue of offsets is said here in terms of buffers; how it tests an offset is in module NetTx.
 */
module NetOffsets {
  import opened Sequences

  /** The offset of a buffer. */
  function BufferAt(k: nat): nat
  {
    2048 * k
  }

  /** The offset is that of one of so many buffers. */
  ghost predicate IsBuffer(cap: nat, off: nat)
  {
    exists k: nat :: k < cap && off == BufferAt(k)
  }

  /** The address a buffer of a region goes to the driver by, if it is one. */
  ghost function Forwarded(io: nat, cap: nat, off: nat): seq<nat>
  {
    if IsBuffer(cap, off) then [io + off] else []
  }

  /** A queue of offsets, as the driver gets it: the buffers among them, in the same order. */
  ghost function ToDriver(io: nat, cap: nat, offs: seq<nat>): seq<nat>
  {
    if offs == [] then [] else Forwarded(io, cap, offs[0]) + ToDriver(io, cap, offs[1..])
  }

  /** The queues of the first n clients, one after another. */
  ghost function AllToDriver(io: seq<nat>, caps: seq<nat>, queues: seq<seq<nat>>, n: nat): seq<nat>
    requires n <= |io| && n <= |caps| && n <= |queues|
  {
    if n == 0 then [] else AllToDriver(io, caps, queues, n - 1) + ToDriver(io[n - 1], caps[n - 1], queues[n - 1])
  }

  /** The test of an offset: it is a multiple of the size of a buffer, and below the end of the region. */
  lemma IsBufferExactly(cap: nat, off: nat)
    ensures IsBuffer(cap, off) <==> off % 2048 == 0 && off < 2048 * cap
  {
    if off % 2048 == 0 && off < 2048 * cap {
      assert off == BufferAt(off / 2048);
    }
  }

  /** A queue of buffers only reaches the driver whole. */
  lemma {:induction false} BuffersAllForwarded(io: nat, cap: nat, offs: seq<nat>)
    requires forall i :: 0 <= i < |offs| ==> IsBuffer(cap, offs[i])
    ensures |ToDriver(io, cap, offs)| == |offs|
    ensures forall i :: 0 <= i < |offs| ==> ToDriver(io, cap, offs)[i] == io + offs[i]
  {
    if offs != [] {
      BuffersAllForwarded(io, cap, offs[1..]);
    }
  }

  // ---- Emptying queues ----------------------------------------------------------------------------

  /** Names the places where a proof looks at what was passed on. */
  predicate Passing(k: int, passed: seq<nat>)
  {
    true
  }

  /** Of a queue `was`, some has been taken, and `passed` on to the driver; `now` is left. */
  ghost predicate Drained(io: nat, cap: nat, was: seq<nat>, passed: seq<nat>, now: seq<nat>)
  {
    forall k: int {:trigger Passing(k, passed)} :: Passing(k, passed) ==>
      ToDriver(io, cap, was) == passed + ToDriver(io, cap, now)
  }

  lemma DrainedMeans(io: nat, cap: nat, was: seq<nat>, passed: seq<nat>, now: seq<nat>)
    ensures Drained(io, cap, was, passed, now) <==> ToDriver(io, cap, was) == passed + ToDriver(io, cap, now)
  {
    assert Passing(0, passed);
  }

  lemma DrainedFirst(io: nat, cap: nat, was: seq<nat>)
    ensures Drained(io, cap, was, [], was)
  {
    assert [] + ToDriver(io, cap, was) == ToDriver(io, cap, was);
    DrainedMeans(io, cap, was, [], was);
  }

  lemma DrainedNext(io: nat, cap: nat, was: seq<nat>, passed: seq<nat>, now: seq<nat>, more: seq<nat>)
    requires Drained(io, cap, was, passed, now) && now != [] && more == Forwarded(io, cap, now[0])
    ensures Drained(io, cap, was, passed + more, now[1..])
  {
    DrainedMeans(io, cap, was, passed, now);
    AppendAssociates(passed, more, ToDriver(io, cap, now[1..]));
    DrainedMeans(io, cap, was, passed + more, now[1..]);
  }

  lemma DrainedJoin(io: nat, cap: nat, was: seq<nat>, passed: seq<nat>, mid: seq<nat>, more: seq<nat>, now: seq<nat>)
    requires Drained(io, cap, was, passed, mid) && Drained(io, cap, mid, more, now)
    ensures Drained(io, cap, was, passed + more, now)
  {
    DrainedMeans(io, cap, was, passed, mid);
    DrainedMeans(io, cap, mid, more, now);
    AppendAssociates(passed, more, ToDriver(io, cap, now));
    DrainedMeans(io, cap, was, passed + more, now);
  }

  /** The first n queues have been emptied, and passed on to the driver; the others are as they were. */
  ghost predicate AllDrained(io: seq<nat>, caps: seq<nat>, was: seq<seq<nat>>, passed: seq<nat>, now: seq<seq<nat>>,
                             n: nat)
  {
    forall k: int {:trigger Passing(k, passed)} :: Passing(k, passed) ==>
      TakenOut(was, now, n) && |was| <= |io| == |caps| && passed == AllToDriver(io, caps, was, n)
  }

  /** The first n queues have been emptied, and the others are as they were. */
  predicate TakenOut(was: seq<seq<nat>>, now: seq<seq<nat>>, n: nat)
  {
    && n <= |was| == |now|
    && (forall i :: 0 <= i < n ==> now[i] == []) && (forall i :: n <= i < |was| ==> now[i] == was[i])
  }

  lemma AllDrainedFirst(io: seq<nat>, caps: seq<nat>, was: seq<seq<nat>>)
    requires |was| <= |io| == |caps|
    ensures AllDrained(io, caps, was, [], was, 0)
  {
    assert TakenOut(was, was, 0);
  }

  lemma AllDrainedNext(io: seq<nat>, caps: seq<nat>, was: seq<seq<nat>>, passed: seq<nat>, now: seq<seq<nat>>, n: nat,
                       more: seq<nat>)
    requires AllDrained(io, caps, was, passed, now, n) && n < |was| == |now| && |was| <= |io| == |caps|
    requires Drained(io[n], caps[n], now[n], more, [])
    ensures AllDrained(io, caps, was, passed + more, now[n := []], n + 1)
  {
    assert Passing(0, passed);
    DrainedMeans(io[n], caps[n], now[n], more, []);
    assert more + [] == more;
    assert TakenOut(was, now[n := []], n + 1);
    assert passed + more == AllToDriver(io, caps, was, n + 1);
  }

  lemma AllDrainedLast(io: seq<nat>, caps: seq<nat>, was: seq<seq<nat>>, passed: seq<nat>, now: seq<seq<nat>>)
    requires AllDrained(io, caps, was, passed, now, |was|) && |was| <= |io| == |caps|
    ensures |now| == |was| && (forall i :: 0 <= i < |now| ==> now[i] == [])
    ensures passed == AllToDriver(io, caps, was, |was|)
  {
    assert Passing(0, passed);
  }
}
