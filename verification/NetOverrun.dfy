/**
 When a copier's last assertion holds: that the client's active queue has room for the packet just copied (copy.c). The
 copier relies on the client here. It holds in every run exactly if the client lets no more of its buffers circulate
 than its queues hold; a client that offers more, and does not take what waits for it, makes it fail.
 */
module NetOverrun {
  import opened NetRoute
  import opened NetRx
  import opened Sequences

  /** One more step of a run. */
  lemma Take(cfg: Config, mem: seq<Packet>, steps: seq<Step>, s: State, step: Step)
    returns (steps': seq<Step>, s': State)
    requires IsReachable(cfg, mem, steps, s) && Enabled(cfg, s, step)
    ensures IsReachable(cfg, mem, steps', s') && s' == Apply(cfg, s, step)
  {
    steps', s' := steps + [step], Apply(cfg, s, step);
    RunLast(cfg, Init(cfg, mem), steps, step);
  }

  /** Between packets: all buffers of the device are free, and nothing is on its way to client c. */
  predicate Calm(cfg: Config, s: State, c: nat)
    requires Shaped(cfg, s) && c < |cfg.macs|
  {
    && s.w.drv == DIdle && s.w.ringPend == s.w.ringDone == [] && s.drvActive == [] && s.drvFree != []
    && Ready(cfg, s, c) && s.cliActive[c] == []
  }

  /** Virtualiser and copier are between buffers, and the copier owes none. */
  predicate Ready(cfg: Config, s: State, c: nat)
    requires Shaped(cfg, s) && c < |cfg.macs|
  {
    s.virt == VIdle && s.w.copiers[c] == CIdle && s.cliFree[c] == []
  }

  /** The driver and the device are done with the packet. */
  predicate Rested(s: State)
  {
    s.w.drv == DIdle && s.w.ringPend == s.w.ringDone == []
  }

  /** A packet comes off the wire and reaches the driver's active queue. */
  lemma Arrives(cfg: Config, mem: seq<Packet>, steps: seq<Step>, s: State, c: nat, p: Packet)
    returns (steps': seq<Step>, s': State)
    requires IsReachable(cfg, mem, steps, s) && c < |cfg.macs| && Calm(cfg, s, c) && cfg.ringCapacity > 0
    ensures IsReachable(cfg, mem, steps', s') && Rested(s') && Ready(cfg, s', c)
    ensures |s'.drvActive| == 1 && s'.w.mem[s'.drvActive[0]] == p
    ensures s'.cliActive[c] == [] && s'.w.own == s.w.own
  {
    steps', s' := Take(cfg, mem, steps, s, DrvTakeFree);
    steps', s' := Take(cfg, mem, steps', s', DrvArm);
    steps', s' := Take(cfg, mem, steps', s', DevReceive(p));
    steps', s' := Take(cfg, mem, steps', s', DrvReturn);
  }

  /** The virtualiser routes it to client c. */
  lemma Routed(cfg: Config, mem: seq<Packet>, steps: seq<Step>, s: State, c: nat) returns (steps': seq<Step>, s': State)
    requires IsReachable(cfg, mem, steps, s) && c < |cfg.macs| && Rested(s) && Ready(cfg, s, c)
    requires |s.drvActive| == 1 && Route(cfg.macs, s.w.mem[s.drvActive[0]].dest) == ToClient(c) && s.cliActive[c] == []
    ensures IsReachable(cfg, mem, steps', s') && Rested(s') && Ready(cfg, s', c) && s'.drvActive == []
    ensures |s'.cliActive[c]| == 1 && s'.refs[s'.cliActive[c][0]] == 1 && s'.w.own == s.w.own
  {
    steps', s' := Take(cfg, mem, steps, s, VirtTakeActive);
    steps', s' := Take(cfg, mem, steps', s', VirtRoute);
    steps', s' := Take(cfg, mem, steps', s', VirtPut);
  }

  /** The copier takes it, and a buffer of the client for it. */
  lemma Taken(cfg: Config, mem: seq<Packet>, steps: seq<Step>, s: State, c: nat) returns (steps': seq<Step>, s': State)
    requires IsReachable(cfg, mem, steps, s) && c < |cfg.macs| && Rested(s) && Ready(cfg, s, c) && s.drvActive == []
    requires |s.cliActive[c]| == 1 && s.refs[s.cliActive[c][0]] == 1 && s.w.own[c].offered > 0
    ensures IsReachable(cfg, mem, steps', s') && Rested(s') && s'.drvActive == [] && s'.virt == VIdle
    ensures s'.w.copiers[c].CFull? && s'.refs[s'.w.copiers[c].buf] == 1 && s'.cliActive[c] == [] && s'.cliFree[c] == []
    ensures s'.w.own[c] == Own(s.w.own[c].offered - 1, s.w.own[c].waiting)
  {
    steps', s' := Take(cfg, mem, steps, s, CopyTakeRoom(c));
    steps', s' := Take(cfg, mem, steps', s', CopyTakeActive(c));
  }

  /** The copier hands the packet to the client and the device's buffer back. */
  lemma Delivered(cfg: Config, mem: seq<Packet>, steps: seq<Step>, s: State, c: nat)
    returns (steps': seq<Step>, s': State)
    requires IsReachable(cfg, mem, steps, s) && c < |cfg.macs| && Rested(s) && s.drvActive == [] && s.virt == VIdle
    requires s.w.copiers[c].CFull? && s.refs[s.w.copiers[c].buf] == 1 && s.cliActive[c] == [] && s.cliFree[c] == []
    ensures IsReachable(cfg, mem, steps', s') && Rested(s') && s'.drvActive == [] && s'.virt == VIdle
    ensures s'.w.copiers[c] == CIdle && s'.cliActive[c] == []
    ensures |s'.cliFree[c]| == 1 && s'.refs[s'.cliFree[c][0]] == 1
    ensures s'.w.own[c] == Own(s.w.own[c].offered, s.w.own[c].waiting + 1)
  {
    steps', s' := Take(cfg, mem, steps, s, CopyDeliver(c));
    steps', s' := Take(cfg, mem, steps', s', CopyReturn(c));
  }

  /** The virtualiser gives the buffer back to the driver. */
  lemma GivenBack(cfg: Config, mem: seq<Packet>, steps: seq<Step>, s: State, c: nat)
    returns (steps': seq<Step>, s': State)
    requires IsReachable(cfg, mem, steps, s) && c < |cfg.macs| && Rested(s) && s.drvActive == [] && s.virt == VIdle
    requires s.w.copiers[c] == CIdle && s.cliActive[c] == [] && |s.cliFree[c]| == 1 && s.refs[s.cliFree[c][0]] == 1
    ensures IsReachable(cfg, mem, steps', s') && Calm(cfg, s', c) && s'.w.own == s.w.own
  {
    steps', s' := Take(cfg, mem, steps, s, VirtTakeFree(c));
    steps', s' := Take(cfg, mem, steps', s', VirtRelease);
    steps', s' := Take(cfg, mem, steps', s', VirtGive);
  }

  /** A packet is on its way to client c, and its copier has taken it. */
  lemma ReachesCopier(cfg: Config, mem: seq<Packet>, steps: seq<Step>, s: State, c: nat, p: Packet)
    returns (steps': seq<Step>, s': State)
    requires IsReachable(cfg, mem, steps, s) && c < |cfg.macs| && Calm(cfg, s, c) && cfg.ringCapacity > 0
    requires Route(cfg.macs, p.dest) == ToClient(c) && s.w.own[c].offered > 0
    ensures IsReachable(cfg, mem, steps', s') && Rested(s') && s'.drvActive == [] && s'.virt == VIdle
    ensures s'.w.copiers[c].CFull? && s'.refs[s'.w.copiers[c].buf] == 1 && s'.cliActive[c] == [] && s'.cliFree[c] == []
    ensures s'.w.own[c] == Own(s.w.own[c].offered - 1, s.w.own[c].waiting)
  {
    steps', s' := Arrives(cfg, mem, steps, s, c, p);
    steps', s' := Routed(cfg, mem, steps', s', c);
    steps', s' := Taken(cfg, mem, steps', s', c);
  }

  /** Client c has been sent k packets and has taken none of them. */
  lemma {:induction false} Fills(cfg: Config, mem: seq<Packet>, c: nat, p: Packet, k: nat)
    returns (steps: seq<Step>, s: State)
    requires cfg.Valid() && |mem| == cfg.numBuffers > 0 && cfg.ringCapacity > 0
    requires c < |cfg.macs| && Route(cfg.macs, p.dest) == ToClient(c) && k <= cfg.limits[c].capacity
    ensures IsReachable(cfg, mem, steps, s) && Calm(cfg, s, c) && s.w.own[c] == Own(cfg.limits[c].capacity - k, k)
    decreases k
  {
    if k == 0 {
      steps, s := [], Init(cfg, mem);
    } else {
      steps, s := Fills(cfg, mem, c, p, k - 1);
      steps, s := ReachesCopier(cfg, mem, steps, s, c, p);
      steps, s := Delivered(cfg, mem, steps, s, c);
      steps, s := GivenBack(cfg, mem, steps, s, c);
    }
  }

  /**
   A client that offers one more buffer then, although its active queue is full, makes the copier's assertion fail.
   */
  lemma Overruns(cfg: Config, mem: seq<Packet>, c: nat, p: Packet) returns (steps: seq<Step>, s: State)
    requires cfg.Valid() && |mem| == cfg.numBuffers > 0 && cfg.ringCapacity > 0
    requires c < |cfg.macs| && Route(cfg.macs, p.dest) == ToClient(c)
    requires 0 < cfg.limits[c].capacity < cfg.limits[c].circulation
    ensures IsReachable(cfg, mem, steps, s) && Enabled(cfg, s, CopyDeliver(c)) && !AssertsHold(cfg, s, CopyDeliver(c))
  {
    steps, s := Fills(cfg, mem, c, p, cfg.limits[c].capacity);
    steps, s := Take(cfg, mem, steps, s, ClientOffer(c));
    steps, s := ReachesCopier(cfg, mem, steps, s, c, p);
  }

  /** Copier c's assertion on the client's active queue holds in every run. */
  ghost predicate NeverOverruns(cfg: Config, c: nat)
    requires c < |cfg.macs|
  {
    forall mem, steps, s :: IsReachable(cfg, mem, steps, s) && Enabled(cfg, s, CopyDeliver(c)) ==>
                              AssertsHold(cfg, s, CopyDeliver(c))
  }

  /** That is so exactly if the client lets no more buffers circulate than its queues hold. */
  lemma CirculationExactly(cfg: Config, c: nat)
    requires cfg.Valid() && cfg.numBuffers > 0 && cfg.ringCapacity > 0
    requires c < |cfg.macs| && Route(cfg.macs, cfg.macs[c]) == ToClient(c) && cfg.limits[c].capacity > 0
    ensures NeverOverruns(cfg, c) <==> cfg.limits[c].circulation <= cfg.limits[c].capacity
  {
    if cfg.limits[c].circulation <= cfg.limits[c].capacity {
      forall mem, steps, s | IsReachable(cfg, mem, steps, s) && Enabled(cfg, s, CopyDeliver(c))
        ensures AssertsHold(cfg, s, CopyDeliver(c))
      {
        NoAssertFails(cfg, mem, steps, s, CopyDeliver(c));
      }
    } else {
      var p := Packet(cfg.macs[c], []);
      var mem := Fill(cfg.numBuffers, p);
      var steps, s := Overruns(cfg, mem, c, p);
    }
  }
}
