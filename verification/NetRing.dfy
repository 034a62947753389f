/**
 The driver's descriptor ring (HwRing), with its 32-bit counters and ownership bits, is the pair of lists by which the
 receive system (NetRx) speaks of it: the buffers filled and not yet seen by the driver, then the buffers still owned by
 the device. Arming, completing and taking out a slot are steps of the system, and in every run the ring goes along.
 */
module NetRing {
  import HwRing
  import opened NetCopyState
  import opened NetRoute
  import opened NetRx
  import opened Sequences

  /** The address the driver and the device use for a buffer, the DMA region starting at base. */
  function Address(base: nat, b: nat): nat
  {
    base + NET_BUFFER_SIZE * b
  }

  function AddressesOf(base: nat, bufs: seq<nat>): (r: seq<nat>)
    ensures |r| == |bufs| && forall i :: 0 <= i < |bufs| ==> r[i] == Address(base, bufs[i])
  {
    seq(|bufs|, i requires 0 <= i < |bufs| => Address(base, bufs[i]))
  }

  /** The ring's slots in use are the system's filled buffers and then its pending ones. */
  predicate Represents(base: nat, w: World, r: HwRing.Ring)
  {
    && HwRing.Valid(r) && r.done == |w.ringDone|
    && HwRing.Addresses(HwRing.Contents(r)) == AddressesOf(base, w.ringDone + w.ringPend)
  }

  lemma InUse(base: nat, w: World, r: HwRing.Ring)
    requires Represents(base, w, r)
    ensures HwRing.Occupancy(r) == |w.ringDone| + |w.ringPend|
  {
  }

  lemma AddressesAppend(base: nat, a: seq<nat>, b: seq<nat>)
    ensures AddressesOf(base, a + b) == AddressesOf(base, a) + AddressesOf(base, b)
  {
  }

  /** Arming a slot with the buffer the driver took is the system's DrvArm. */
  lemma ArmIsStep(cfg: Config, base: nat, s: State, r: HwRing.Ring, len: nat)
    requires Shaped(cfg, s) && s.w.drv.DTook? && Represents(base, s.w, r) && !HwRing.Full(r)
    ensures Represents(base, ApplyDriver(cfg, s, DrvArm).w, HwRing.Arm(r, Address(base, s.w.drv.buf), len))
  {
    var b := s.w.drv.buf;
    HwRing.ArmRefines(r, Address(base, b), len);
    var last := HwRing.Slot(Address(base, b), len, true, false);
    HwRing.AddressesOf(HwRing.Contents(r), [last]);
    assert HwRing.Addresses([last]) == [Address(base, b)] == AddressesOf(base, [b]);
    AddressesAppend(base, s.w.ringDone + s.w.ringPend, [b]);
    AppendAssociates(s.w.ringDone, s.w.ringPend, [b]);
  }

  /** The device completing its oldest slot is DevReceive: it fills the buffer that slot names. */
  lemma CompleteIsStep(cfg: Config, base: nat, s: State, r: HwRing.Ring, p: Packet, len: nat)
    requires Shaped(cfg, s) && Represents(base, s.w, r)
    ensures s.w.ringPend != [] <==> r.done < HwRing.Occupancy(r)
    ensures s.w.ringPend != [] ==>
              && HwRing.Contents(r)[r.done].addr == Address(base, s.w.ringPend[0])
              && Represents(base, ApplyDriver(cfg, s, DevReceive(p)).w, HwRing.Complete(r, len, false))
  {
    InUse(base, s.w, r);
    if s.w.ringPend != [] {
      assert HwRing.Addresses(HwRing.Contents(r))[r.done] == Address(base, (s.w.ringDone + s.w.ringPend)[r.done]);
      HwRing.CompleteRefines(r, len, false);
      var w' := ApplyDriver(cfg, s, DevReceive(p)).w;
      assert w'.ringDone + w'.ringPend == s.w.ringDone + s.w.ringPend;
      assert HwRing.Addresses(HwRing.Contents(HwRing.Complete(r, len, false))) == HwRing.Addresses(HwRing.Contents(r));
    }
  }

  lemma PopAddresses(r: HwRing.Ring)
    requires HwRing.Valid(r) && r.done > 0
    ensures HwRing.Valid(HwRing.Pop(r)) && HwRing.Pop(r).done == r.done - 1
    ensures HwRing.Addresses(HwRing.Contents(HwRing.Pop(r))) == HwRing.Addresses(HwRing.Contents(r))[1..]
  {
    HwRing.PopRefines(r);
  }

  lemma PopRepresents(base: nat, w: World, r: HwRing.Ring)
    requires Represents(base, w, r) && w.ringDone != []
    ensures Represents(base, w.(ringDone := w.ringDone[1..]), HwRing.Pop(r))
  {
    PopAddresses(r);
    var all := w.ringDone + w.ringPend;
    assert all[1..] == w.ringDone[1..] + w.ringPend;
    assert AddressesOf(base, all)[1..] == AddressesOf(base, all[1..]);
  }

  lemma HeadIsFirst(base: nat, w: World, r: HwRing.Ring)
    requires Represents(base, w, r)
    ensures HwRing.HeadReady(r) <==> w.ringDone != []
    ensures w.ringDone != [] ==> r.slots[r.head % |r.slots|].addr == Address(base, w.ringDone[0])
  {
    InUse(base, w, r);
    HwRing.HeadReadyMeans(r);
    if w.ringDone != [] {
      assert HwRing.Addresses(HwRing.Contents(r))[0] == Address(base, (w.ringDone + w.ringPend)[0]);
    }
  }

  /** Taking out the head, once it is completed, is DrvReturn: the driver gets the buffer filled first. */
  lemma PopIsStep(cfg: Config, base: nat, s: State, r: HwRing.Ring)
    requires Shaped(cfg, s) && s.w.drv == DIdle && Represents(base, s.w, r)
    ensures HwRing.HeadReady(r) <==> s.w.ringDone != []
    ensures s.w.ringDone != [] ==>
              && r.slots[r.head % |r.slots|].addr == Address(base, s.w.ringDone[0])
              && Represents(base, ApplyDriver(cfg, s, DrvReturn).w, HwRing.Pop(r))
  {
    HeadIsFirst(base, s.w, r);
    if s.w.ringDone != [] {
      PopRepresents(base, s.w, r);
    }
  }

  // ---- Whole runs -------------------------------------------------------------------------------

  /**
   The ring, of the capacity the system gives it, represents the system's lists; a buffer in the driver's hands fits.
   */
  predicate Follows(cfg: Config, base: nat, s: State, r: HwRing.Ring)
  {
    && Shaped(cfg, s) && Represents(base, s.w, r) && |r.slots| == cfg.ringCapacity
    && (s.w.drv.DTook? ==> |s.w.ringPend| + |s.w.ringDone| < cfg.ringCapacity)
  }

  /** What the driver or the device does to the ring at this step: nothing, or one operation. */
  function RingOps(cfg: Config, base: nat, s: State, step: Step): seq<HwRing.Op>
  {
    if !Shaped(cfg, s) || !Enabled(cfg, s, step) then []
    else match step
      case DrvArm => [HwRing.OpArm(Address(base, s.w.drv.buf), 0)]
      case DevReceive(p) => [HwRing.OpComplete(|Bytes(p)|, false)]
      case DrvReturn => [HwRing.OpPop]
      case _ => []
  }

  /** The ring after that. */
  function Along(h: HwRing.History, ops: seq<HwRing.Op>): HwRing.History
    requires |h.ring.slots| > 0
  {
    if ops == [] then h else HwRing.Step(h, ops[0])
  }

  lemma ArmFollows(cfg: Config, base: nat, s: State, h: HwRing.History)
    requires Follows(cfg, base, s, h.ring) && s.w.drv.DTook?
    ensures Follows(cfg, base, ApplyDriver(cfg, s, DrvArm),
              HwRing.Step(h, HwRing.OpArm(Address(base, s.w.drv.buf), 0)).ring)
  {
    InUse(base, s.w, h.ring);
    ArmIsStep(cfg, base, s, h.ring, 0);
  }

  lemma ReceiveFollows(cfg: Config, base: nat, s: State, h: HwRing.History, p: Packet)
    requires Follows(cfg, base, s, h.ring) && s.w.ringPend != []
    ensures Follows(cfg, base, ApplyDriver(cfg, s, DevReceive(p)),
              HwRing.Step(h, HwRing.OpComplete(|Bytes(p)|, false)).ring)
  {
    InUse(base, s.w, h.ring);
    CompleteIsStep(cfg, base, s, h.ring, p, |Bytes(p)|);
  }

  lemma ReturnFollows(cfg: Config, base: nat, s: State, h: HwRing.History)
    requires Follows(cfg, base, s, h.ring) && s.w.drv == DIdle && s.w.ringDone != []
    ensures Follows(cfg, base, ApplyDriver(cfg, s, DrvReturn), HwRing.Step(h, HwRing.OpPop).ring)
  {
    PopIsStep(cfg, base, s, h.ring);
  }

  lemma StepFollows(cfg: Config, base: nat, s: State, h: HwRing.History, step: Step)
    requires cfg.Valid() && Follows(cfg, base, s, h.ring)
    ensures Follows(cfg, base, Next(cfg, s, step), Along(h, RingOps(cfg, base, s, step)).ring)
  {
    if Enabled(cfg, s, step) {
      match step {
        case DrvArm => ArmFollows(cfg, base, s, h);
        case DevReceive(p) => ReceiveFollows(cfg, base, s, h, p);
        case DrvReturn => ReturnFollows(cfg, base, s, h);
        case _ => SameRing(cfg, s, step);
      }
    }
  }

  lemma SameRing(cfg: Config, s: State, step: Step)
    requires cfg.Valid() && Shaped(cfg, s) && Enabled(cfg, s, step)
    requires !step.DrvArm? && !step.DevReceive? && !step.DrvReturn?
    ensures var w' := Apply(cfg, s, step).w;
            && w'.ringPend == s.w.ringPend && w'.ringDone == s.w.ringDone
            && (w'.drv == s.w.drv || |s.w.ringPend| + |s.w.ringDone| < cfg.ringCapacity)
  {
  }

  lemma AlongRun(h: HwRing.History, done: seq<HwRing.Op>, ops: seq<HwRing.Op>)
    requires |h.ring.slots| > 0 && |ops| <= 1
    ensures HwRing.Run(h, done + ops) == Along(HwRing.Run(h, done), ops)
  {
    if ops == [] {
      assert done + ops == done;
    } else {
      assert (done + ops)[..|done|] == done;
    }
  }

  /** The operations on the ring that a run of the system stands for. */
  function OpsOf(cfg: Config, base: nat, s: State, steps: seq<Step>): seq<HwRing.Op>
    requires cfg.Valid()
  {
    if steps == [] then []
    else
      var init, last := steps[..|steps| - 1], steps[|steps| - 1];
      OpsOf(cfg, base, s, init) + RingOps(cfg, base, Run(cfg, s, init), last)
  }

  /** A longer run stands for the same operations, and then some. */
  lemma {:induction false} OpsExtend(cfg: Config, base: nat, s: State, steps: seq<Step>, k: nat)
    requires cfg.Valid() && k <= |steps|
    ensures OpsOf(cfg, base, s, steps[..k]) <= OpsOf(cfg, base, s, steps)
  {
    if k < |steps| {
      var init := steps[..|steps| - 1];
      OpsExtend(cfg, base, s, init, k);
      assert init[..k] == steps[..k];
    } else {
      assert steps[..k] == steps;
    }
  }

  /** The buffer the driver passes on at this step, if any. */
  function ReturnedBy(cfg: Config, s: State, step: Step): seq<nat>
  {
    if step.DrvReturn? && Shaped(cfg, s) && Enabled(cfg, s, step) then [s.w.ringDone[0]] else []
  }

  /** The buffers the driver passes on in a run, in order. */
  function ReturnedIn(cfg: Config, s: State, steps: seq<Step>): seq<nat>
    requires cfg.Valid()
  {
    if steps == [] then []
    else
      var init, last := steps[..|steps| - 1], steps[|steps| - 1];
      ReturnedIn(cfg, s, init) + ReturnedBy(cfg, Run(cfg, s, init), last)
  }

  /** What comes out of the ring is the address of the buffer passed on. */
  lemma StepTakes(cfg: Config, base: nat, s: State, h: HwRing.History, step: Step)
    requires cfg.Valid() && Follows(cfg, base, s, h.ring)
    ensures Along(h, RingOps(cfg, base, s, step)).taken == h.taken + AddressesOf(base, ReturnedBy(cfg, s, step))
  {
    if step.DrvReturn? && Enabled(cfg, s, step) {
      HeadIsFirst(base, s.w, h.ring);
      assert AddressesOf(base, [s.w.ringDone[0]]) == [Address(base, s.w.ringDone[0])];
    }
  }

  /** The ring represents the system's lists, and has handed out the addresses of what was passed on. */
  predicate Stands(cfg: Config, base: nat, s: State, h: HwRing.History, taken0: seq<nat>, returned: seq<nat>)
  {
    Follows(cfg, base, s, h.ring) && h.taken == taken0 + AddressesOf(base, returned)
  }

  lemma StandsNext(cfg: Config, base: nat, s: State, h: HwRing.History, taken0: seq<nat>, returned: seq<nat>,
                   step: Step)
    requires cfg.Valid() && Stands(cfg, base, s, h, taken0, returned)
    ensures Stands(cfg, base, Next(cfg, s, step), Along(h, RingOps(cfg, base, s, step)), taken0,
              returned + ReturnedBy(cfg, s, step))
  {
    var more := ReturnedBy(cfg, s, step);
    StepFollows(cfg, base, s, h, step);
    StepTakes(cfg, base, s, h, step);
    AddressesAppend(base, returned, more);
    AppendAssociates(taken0, AddressesOf(base, returned), AddressesOf(base, more));
  }

  lemma OpsLast(cfg: Config, base: nat, s: State, steps: seq<Step>, step: Step)
    requires cfg.Valid()
    ensures OpsOf(cfg, base, s, steps + [step])
              == OpsOf(cfg, base, s, steps) + RingOps(cfg, base, Run(cfg, s, steps), step)
    ensures ReturnedIn(cfg, s, steps + [step]) == ReturnedIn(cfg, s, steps) + ReturnedBy(cfg, Run(cfg, s, steps), step)
  {
    assert (steps + [step])[..|steps|] == steps;
  }

  /** That is so after a run. */
  predicate Matched(cfg: Config, base: nat, s0: State, h0: HwRing.History, steps: seq<Step>)
    requires cfg.Valid() && |h0.ring.slots| > 0
  {
    Stands(cfg, base, Run(cfg, s0, steps), HwRing.Run(h0, OpsOf(cfg, base, s0, steps)), h0.taken,
           ReturnedIn(cfg, s0, steps))
  }

  lemma AtMostOne(cfg: Config, base: nat, s: State, step: Step)
    ensures |RingOps(cfg, base, s, step)| <= 1
  {
  }

  lemma MatchedNext(cfg: Config, base: nat, s0: State, h0: HwRing.History, steps: seq<Step>, step: Step)
    requires cfg.Valid() && |h0.ring.slots| > 0 && Matched(cfg, base, s0, h0, steps)
    ensures Matched(cfg, base, s0, h0, steps + [step])
  {
    var s, ops, returned := Run(cfg, s0, steps), OpsOf(cfg, base, s0, steps), ReturnedIn(cfg, s0, steps);
    StandsNext(cfg, base, s, HwRing.Run(h0, ops), h0.taken, returned, step);
    AtMostOne(cfg, base, s, step);
    AlongRun(h0, ops, RingOps(cfg, base, s, step));
    RunLast(cfg, s0, steps, step);
    OpsLast(cfg, base, s0, steps, step);
  }

  lemma MatchedFirst(cfg: Config, base: nat, mem: seq<Packet>, h0: HwRing.History)
    requires cfg.Valid() && |mem| == cfg.numBuffers
    requires HwRing.Valid(h0.ring) && HwRing.Empty(h0.ring) && |h0.ring.slots| == cfg.ringCapacity
    ensures Matched(cfg, base, Init(cfg, mem), h0, [])
  {
    assert HwRing.Run(h0, []) == h0;
  }

  lemma {:induction false} RunMatched(cfg: Config, base: nat, s0: State, h0: HwRing.History, steps: seq<Step>)
    requires cfg.Valid() && |h0.ring.slots| > 0 && Matched(cfg, base, s0, h0, [])
    ensures Matched(cfg, base, s0, h0, steps)
  {
    if steps != [] {
      var init, last := steps[..|steps| - 1], steps[|steps| - 1];
      assert steps == init + [last];
      RunMatched(cfg, base, s0, h0, init);
      MatchedNext(cfg, base, s0, h0, init, last);
    }
  }

  /**
   In every run of the system the ring goes along, operation by operation: after each part of the run it represents the
   system's two lists, and the addresses taken out of it are those of the buffers the driver passed on, in order.
   */
  lemma RingFollows(cfg: Config, base: nat, mem: seq<Packet>, h0: HwRing.History, steps: seq<Step>, k: nat)
    requires cfg.Valid() && |mem| == cfg.numBuffers && k <= |steps|
    requires HwRing.Valid(h0.ring) && HwRing.Empty(h0.ring) && |h0.ring.slots| == cfg.ringCapacity
    ensures OpsOf(cfg, base, Init(cfg, mem), steps[..k]) <= OpsOf(cfg, base, Init(cfg, mem), steps)
    ensures Matched(cfg, base, Init(cfg, mem), h0, steps[..k])
  {
    OpsExtend(cfg, base, Init(cfg, mem), steps, k);
    MatchedFirst(cfg, base, mem, h0);
    RunMatched(cfg, base, Init(cfg, mem), h0, steps[..k]);
  }
}
