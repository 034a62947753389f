/**
 The receive virtualiser's two handlers as code over shared queues. Everybody else may act between any two queue
 operations: a schedule says what the driver, the device and the copiers do at each such point. Every state the
 handlers pass through is a reachable state of the step system in NetRx.

 A descriptor is its buffer's index: on the driver's queues the C code adds the device base address to the offset
 (index * NET_BUFFER_SIZE), and subtracts it again on the way back.
 */
module NetVirtRx {
  import opened NetRoute
  import opened NetRx
  import opened Sequences

  /** Only the driver, the device and the copiers act. */
  predicate IsInterference(steps: seq<Step>)
  {
    forall i :: 0 <= i < |steps| ==> !IsVirtStep(steps[i])
  }

  predicate IsSchedule(schedule: seq<seq<Step>>)
  {
    forall i :: 0 <= i < |schedule| ==> IsInterference(schedule[i])
  }

  /** Names the places where a proof looks into the run that led here. */
  predicate Reached(k: int, s: State, steps: seq<Step>)
  {
    true
  }

  /** The state is reachable by these steps. */
  ghost predicate Reach(cfg: Config, mem: seq<Packet>, steps: seq<Step>, s: State)
  {
    forall k: int {:trigger Reached(k, s, steps)} :: Reached(k, s, steps) ==> IsReachable(cfg, mem, steps, s)
  }

  lemma ReachMeans(cfg: Config, mem: seq<Packet>, steps: seq<Step>, s: State)
    ensures Reach(cfg, mem, steps, s) <==> IsReachable(cfg, mem, steps, s)
  {
    assert Reached(0, s, steps);
  }

  /** Per client, how many packets the virtualiser has ever enqueued for it. */
  function Sent(cfg: Config, s: State): (r: seq<nat>)
    ensures |r| == |cfg.macs|
  {
    seq(|cfg.macs|, c requires 0 <= c < |cfg.macs| =>
        if c < |s.w.taken| && c < |s.cliActive| then |s.w.taken[c]| + |s.cliActive[c]| else 0)
  }

  /** What the virtualiser can rely on while others act: its counts stay, and its input queues only grow at the end. */
  predicate Undisturbed(cfg: Config, s: State, s': State)
  {
    && s'.virt == s.virt && s'.refs == s.refs && s.drvActive <= s'.drvActive
    && |s'.cliFree| == |s.cliFree| && (forall c: nat :: c < |s.cliFree| ==> s.cliFree[c] <= s'.cliFree[c])
    && |s'.w.mem| == |s.w.mem|
    && Sent(cfg, s') == Sent(cfg, s)
  }

  lemma StepUndisturbed(cfg: Config, s: State, step: Step)
    requires cfg.Valid() && Shaped(cfg, s) && !IsVirtStep(step) && Enabled(cfg, s, step)
    ensures Undisturbed(cfg, s, Apply(cfg, s, step))
  {
  }

  lemma {:induction false} RunUndisturbed(cfg: Config, s: State, steps: seq<Step>)
    requires cfg.Valid() && Shaped(cfg, s) && IsInterference(steps)
    ensures Shaped(cfg, Run(cfg, s, steps)) && Undisturbed(cfg, s, Run(cfg, s, steps))
  {
    if steps != [] {
      var init := steps[..|steps| - 1];
      RunUndisturbed(cfg, s, init);
      var before := Run(cfg, s, init);
      if Enabled(cfg, before, steps[|steps| - 1]) {
        StepUndisturbed(cfg, before, steps[|steps| - 1]);
      }
    }
  }

  /** A flag is set for exactly the clients whose number of packets sent grew. */
  predicate Tracks(notify: seq<bool>, before: seq<nat>, after: seq<nat>)
  {
    && |notify| == |before| == |after|
    && forall c :: 0 <= c < |notify| ==> before[c] <= after[c] && (notify[c] <==> before[c] < after[c])
  }

  /** How many buffers the virtualiser has given back to the driver. */
  function Gives(steps: seq<Step>): nat
  {
    if steps == [] then 0 else Gives(steps[..|steps| - 1]) + One(steps[|steps| - 1] == VirtGive)
  }

  lemma GivesPush(steps: seq<Step>, step: Step)
    ensures Gives(steps + [step]) == Gives(steps) + One(step == VirtGive)
  {
    assert (steps + [step])[..|steps|] == steps;
  }

  lemma {:induction false} GivesByOthers(steps: seq<Step>, others: seq<Step>)
    requires IsInterference(others)
    ensures Gives(steps + others) == Gives(steps)
  {
    if others == [] {
      assert steps + others == steps;
    } else {
      var init := others[..|others| - 1];
      GivesByOthers(steps, init);
      assert steps + others == (steps + init) + [others[|others| - 1]];
      GivesPush(steps + init, others[|others| - 1]);
    }
  }

  /** A flag is set if it was, or if buffers have been given back since. */
  predicate Noted(before: bool, gives0: nat, after: bool, gives: nat)
  {
    gives0 <= gives && (after <==> before || gives0 < gives)
  }

  /** At some point since the n0-th step, client c's free queue was empty. */
  predicate FoundEmpty(cfg: Config, mem: seq<Packet>, n0: nat, trace: seq<Step>, c: nat)
    requires cfg.Valid()
  {
    exists n :: n0 <= n <= |trace| && Emptied(Run(cfg, Init(cfg, mem), trace[..n]), c)
  }

  predicate Emptied(s: State, c: nat)
  {
    c < |s.cliFree| && s.cliFree[c] == []
  }

  lemma StillFoundEmpty(cfg: Config, mem: seq<Packet>, n0: nat, trace: seq<Step>, trace': seq<Step>, c: nat)
    requires cfg.Valid() && trace <= trace' && FoundEmpty(cfg, mem, n0, trace, c)
    ensures FoundEmpty(cfg, mem, n0, trace', c)
  {
    var n :| n0 <= n <= |trace| && Emptied(Run(cfg, Init(cfg, mem), trace[..n]), c);
    assert trace'[..n] == trace[..n];
  }

  /** The free queues of the first clients have each been found empty. */
  predicate AllFound(cfg: Config, mem: seq<Packet>, n0: nat, trace: seq<Step>, clients: nat)
    requires cfg.Valid()
  {
    forall c: nat :: c < clients ==> FoundEmpty(cfg, mem, n0, trace, c)
  }

  lemma AllFoundEmpty(cfg: Config, mem: seq<Packet>, n0: nat, trace: seq<Step>, trace': seq<Step>, s: State, c: nat)
    requires cfg.Valid() && Reach(cfg, mem, trace', s) && AllFound(cfg, mem, n0, trace, c) && trace <= trace'
             && n0 <= |trace|
    requires Emptied(s, c)
    ensures AllFound(cfg, mem, n0, trace', c + 1)
  {
    ReachMeans(cfg, mem, trace', s);
    assert trace'[..|trace'|] == trace';
    forall k: nat | k < c
      ensures FoundEmpty(cfg, mem, n0, trace', k)
    {
      StillFoundEmpty(cfg, mem, n0, trace, trace', k);
    }
  }

  /** One step later the state is still reachable. */
  lemma Extend(cfg: Config, mem: seq<Packet>, steps: seq<Step>, s: State, step: Step)
    requires IsReachable(cfg, mem, steps, s) && Enabled(cfg, s, step)
    ensures IsReachable(cfg, mem, steps + [step], Apply(cfg, s, step))
    ensures !step.CopyDeliver? ==> AssertsHold(cfg, s, step)
  {
    assert (steps + [step])[..|steps|] == steps;
    if !step.CopyDeliver? {
      NoAssertFails(cfg, mem, steps, s, step);
    }
  }

  /** The buffer in hand is in client c's active queue as well. */
  function AfterPut(cfg: Config, s: State, c: nat): State
    requires c < |s.cliActive| && s.virt != VIdle
  {
    s.(cliActive := s.cliActive[c := s.cliActive[c] + [s.virt.buf]],
       virt := if s.virt.VDistribute? && c + 1 < |cfg.macs| then VDistribute(s.virt.buf, c + 1) else VIdle)
  }

  lemma ExtendPut(cfg: Config, mem: seq<Packet>, steps: seq<Step>, s: State, c: nat)
    requires Reach(cfg, mem, steps, s) && (s.virt.VDistribute? || s.virt.VDeliver?)
    requires c == if s.virt.VDistribute? then s.virt.next else s.virt.client
    ensures c < |s.cliActive| == |cfg.macs|
    ensures |s.cliActive[c]| < cfg.queueCapacity && Reach(cfg, mem, steps + [VirtPut], AfterPut(cfg, s, c))
    ensures Sent(cfg, AfterPut(cfg, s, c)) == Sent(cfg, s)[c := Sent(cfg, s)[c] + 1]
  {
    ReachMeans(cfg, mem, steps, s);
    Extend(cfg, mem, steps, s, VirtPut);
    ReachMeans(cfg, mem, steps + [VirtPut], Apply(cfg, s, VirtPut));
  }

  method PutStep(cfg: Config, ghost mem: seq<Packet>, ghost trace: seq<Step>, s: State, c: nat)
    returns (active: seq<seq<nat>>, virt: VirtPc)
    requires Reach(cfg, mem, trace, s) && (s.virt.VDistribute? || s.virt.VDeliver?)
    requires c == if s.virt.VDistribute? then s.virt.next else s.virt.client
    ensures Reach(cfg, mem, trace + [VirtPut], s.(cliActive := active, virt := virt))
            && Gives(trace + [VirtPut]) == Gives(trace)
    ensures c < |cfg.macs| && Sent(cfg, s.(cliActive := active, virt := virt)) == Sent(cfg, s)[c := Sent(cfg, s)[c] + 1]
    ensures virt == if s.virt.VDistribute? && c + 1 < |cfg.macs| then VDistribute(s.virt.buf, c + 1) else VIdle
  {
    ExtendPut(cfg, mem, trace, s, c);
    GivesPush(trace, VirtPut);
    assert |s.cliActive[c]| < cfg.queueCapacity;
    active := s.cliActive[c := s.cliActive[c] + [s.virt.buf]];
    virt := if s.virt.VDistribute? && c + 1 < |cfg.macs| then VDistribute(s.virt.buf, c + 1) else VIdle;
  }

  lemma ExtendGive(cfg: Config, mem: seq<Packet>, steps: seq<Step>, s: State)
    requires Reach(cfg, mem, steps, s) && s.virt.VGive?
    ensures |s.drvFree| < cfg.queueCapacity
    ensures var s' := s.(drvFree := s.drvFree + [s.virt.buf], virt := VIdle);
            Reach(cfg, mem, steps + [VirtGive], s') && Sent(cfg, s') == Sent(cfg, s)
  {
    ReachMeans(cfg, mem, steps, s);
    Extend(cfg, mem, steps, s, VirtGive);
    ReachMeans(cfg, mem, steps + [VirtGive], Apply(cfg, s, VirtGive));
  }

  lemma ExtendTakeActive(cfg: Config, mem: seq<Packet>, steps: seq<Step>, s: State)
    requires Reach(cfg, mem, steps, s) && s.virt == VIdle && s.drvActive != []
    ensures s.drvActive[0] < cfg.numBuffers
    ensures var s' := s.(drvActive := s.drvActive[1..], virt := VGot(s.drvActive[0]));
            Reach(cfg, mem, steps + [VirtTakeActive], s') && Sent(cfg, s') == Sent(cfg, s)
  {
    ReachMeans(cfg, mem, steps, s);
    Extend(cfg, mem, steps, s, VirtTakeActive);
    ReachMeans(cfg, mem, steps + [VirtTakeActive], Apply(cfg, s, VirtTakeActive));
  }

  lemma ExtendTakeFree(cfg: Config, mem: seq<Packet>, steps: seq<Step>, s: State, c: nat)
    requires Reach(cfg, mem, steps, s) && s.virt == VIdle && c < |s.cliFree| && s.cliFree[c] != []
    ensures s.cliFree[c][0] < cfg.numBuffers
    ensures var s' := s.(cliFree := s.cliFree[c := s.cliFree[c][1..]], virt := VTook(s.cliFree[c][0], c));
            Reach(cfg, mem, steps + [VirtTakeFree(c)], s')
  {
    ReachMeans(cfg, mem, steps, s);
    Extend(cfg, mem, steps, s, VirtTakeFree(c));
    ReachMeans(cfg, mem, steps + [VirtTakeFree(c)], Apply(cfg, s, VirtTakeFree(c)));
  }

  /** The count of a routed buffer was zero, and becomes the number of clients that get it. */
  lemma ExtendRoute(cfg: Config, mem: seq<Packet>, steps: seq<Step>, s: State)
    requires Reach(cfg, mem, steps, s) && s.virt.VGot?
    ensures s.virt.buf < |s.w.mem| == |s.refs|
    ensures var b, t := s.virt.buf, Route(cfg.macs, s.w.mem[s.virt.buf].dest);
            var refs := match t
              case Broadcast => s.refs[b := |cfg.macs|]
              case ToClient(_) => s.refs[b := 1]
              case NoMatch => s.refs;
            var virt := match t
              case Broadcast => VDistribute(b, 0)
              case ToClient(c) => VDeliver(b, c)
              case NoMatch => VGive(b);
            var s' := s.(refs := refs, virt := virt, w := s.w.(seen := s.w.seen + [s.w.mem[b]]));
            && Reach(cfg, mem, steps + [VirtRoute], s') && Sent(cfg, s') == Sent(cfg, s)
                 && (t != NoMatch ==> s.refs[b] == 0)
  {
    ReachMeans(cfg, mem, steps, s);
    Extend(cfg, mem, steps, s, VirtRoute);
    ReachMeans(cfg, mem, steps + [VirtRoute], Apply(cfg, s, VirtRoute));
  }

  lemma ExtendRelease(cfg: Config, mem: seq<Packet>, steps: seq<Step>, s: State)
    requires Reach(cfg, mem, steps, s) && s.virt.VTook?
    ensures s.virt.buf < cfg.queueCapacity && s.virt.buf < |s.refs| && s.refs[s.virt.buf] != 0
    ensures var b := s.virt.buf;
            var s' := s.(refs := s.refs[b := s.refs[b] - 1], virt := if s.refs[b] == 1 then VGive(b) else VIdle);
            Reach(cfg, mem, steps + [VirtRelease], s')
  {
    ReachMeans(cfg, mem, steps, s);
    Extend(cfg, mem, steps, s, VirtRelease);
    ReachMeans(cfg, mem, steps + [VirtRelease], Apply(cfg, s, VirtRelease));
  }

  /** Others acting leads from a reachable state to a reachable state, and leaves the virtualiser's part alone. */
  method LetOthersAct(cfg: Config, ghost mem: seq<Packet>, ghost trace: seq<Step>, s: State, others: seq<Step>)
    returns (s': State)
    requires Reach(cfg, mem, trace, s) && IsInterference(others)
    ensures Reach(cfg, mem, trace + others, s') && Undisturbed(cfg, s, s') && Gives(trace + others) == Gives(trace)
  {
    ReachMeans(cfg, mem, trace, s);
    RunUndisturbed(cfg, s, others);
    RunAppend(cfg, Init(cfg, mem), trace, others);
    GivesByOthers(trace, others);
    s' := Run(cfg, s, others);
    ReachMeans(cfg, mem, trace + others, s');
  }

  class VirtRx {
    const cfg: Config
    var drvFree: seq<nat>
    var drvActive: seq<nat>
    var cliActive: seq<seq<nat>>
    var cliFree: seq<seq<nat>>
    var bufferRefs: array<nat>
    var notifyDrv: bool
    var pc: VirtPc             // which buffer is in hand
    var w: World               // driver, device, copiers, memory
    ghost const mem0: seq<Packet>
    ghost var trace: seq<Step> // everything that happened since initialisation

    function Abs(): State
      reads this, bufferRefs
    {
      State(drvFree, drvActive, cliActive, cliFree, bufferRefs[..], pc, w)
    }

    /** The state is reachable from initialisation. */
    ghost predicate Valid()
      reads this, bufferRefs
    {
      cfg.Valid() && |cliFree| == |cfg.macs| && Reach(cfg, mem0, trace, Abs())
    }

    constructor (cfg: Config, mem: seq<Packet>)
      requires cfg.Valid() && |mem| == cfg.numBuffers
      ensures Valid() && this.cfg == cfg && trace == [] && fresh(bufferRefs)
      ensures Abs() == Init(cfg, mem)
    {
      var s := Init(cfg, mem);
      this.cfg, mem0 := cfg, mem;
      drvFree, drvActive, cliActive, cliFree := s.drvFree, s.drvActive, s.cliActive, s.cliFree;
      bufferRefs := new nat[cfg.numBuffers](_ => 0);
      notifyDrv, pc, w, trace := false, VIdle, s.w, [];
      new;
      assert bufferRefs[..] == s.refs;
      ReachMeans(cfg, mem0, trace, Abs());
    }

    /** Everybody else acts as the head of the schedule says. */
    method Interfere(schedule: seq<seq<Step>>) returns (rest: seq<seq<Step>>)
      requires Valid() && IsSchedule(schedule)
      modifies this`drvFree, this`drvActive, this`cliActive, this`cliFree, this`w, this`trace
      ensures Valid() && IsSchedule(rest)
      ensures Undisturbed(cfg, old(Abs()), Abs())
      ensures rest == if schedule == [] then [] else schedule[1..]
      ensures schedule == [] ==> Abs() == old(Abs()) && trace == old(trace)
      ensures old(trace) <= trace
      ensures Gives(trace) == Gives(old(trace))
    {
      if schedule == [] {
        return [];
      }
      var steps := schedule[0];
      var s := LetOthersAct(cfg, mem0, trace, Abs(), steps);
      assert bufferRefs[..] == s.refs && pc == s.virt;
      drvFree, drvActive, cliActive, cliFree, w := s.drvFree, s.drvActive, s.cliActive, s.cliFree, s.w;
      assert Abs() == s;
      trace := trace + steps;
      rest := schedule[1..];
    }

    /** net_dequeue_active on the driver's queue, after others have acted. */
    method TakeActive(schedule: seq<seq<Step>>) returns (index: nat, rest: seq<seq<Step>>)
      requires Valid() && IsSchedule(schedule) && pc == VIdle && drvActive != []
      modifies this`drvFree, this`drvActive, this`cliActive, this`cliFree, this`w, this`trace, this`pc
      ensures Valid() && IsSchedule(rest) && old(trace) <= trace && pc == VGot(index)
      ensures |rest| < |schedule| || (rest == schedule == [] && drvActive == old(drvActive)[1..])
      ensures index == old(drvActive)[0] && Sent(cfg, Abs()) == old(Sent(cfg, Abs()))
      ensures Gives(trace) == Gives(old(trace))
    {
      rest := Interfere(schedule);
      ExtendTakeActive(cfg, mem0, trace, Abs());
      index := drvActive[0];
      GivesPush(trace, VirtTakeActive);
      drvActive, pc, trace := drvActive[1..], VGot(index), trace + [VirtTakeActive];
    }

    /** Look at the header of the buffer in hand and set its reference count to the number of clients that get it. */
    method Classify(index: nat) returns (client: int)
      requires Valid() && pc == VGot(index)
      modifies this`pc, this`w, this`trace, bufferRefs
      ensures Valid() && old(trace) <= trace && Sent(cfg, Abs()) == old(Sent(cfg, Abs()))
      ensures index < |old(w).mem| && client < |cfg.macs| && client == Code(Route(cfg.macs, old(w).mem[index].dest))
      ensures pc == if client == BROADCAST_ID then VDistribute(index, 0)
                    else if client >= 0 then VDeliver(index, client) else VGive(index)
      ensures Gives(trace) == Gives(old(trace))
    {
      ghost var s := Abs();
      ExtendRoute(cfg, mem0, trace, s);
      client := GetMacAddrMatch(cfg.macs, w.mem[index].dest);
      if client == BROADCAST_ID {
        assert bufferRefs[index] == 0;
        bufferRefs[index] := |cfg.macs|;
        pc := VDistribute(index, 0);
      } else if client >= 0 {
        assert bufferRefs[index] == 0;
        bufferRefs[index] := 1;
        pc := VDeliver(index, client);
      } else {
        pc := VGive(index);
      }
      GivesPush(trace, VirtRoute);
      w, trace := w.(seen := w.seen + [w.mem[index]]), trace + [VirtRoute];
      assert client < 0 && client != BROADCAST_ID ==> bufferRefs[..] == s.refs;
      assert client == BROADCAST_ID ==> bufferRefs[..] == s.refs[index := |cfg.macs|];
      assert client >= 0 ==> bufferRefs[..] == s.refs[index := 1];
    }

    /** net_enqueue_active on client c's queue; the assertion that it has room always holds. */
    method PutNow(c: nat, index: nat)
      requires Valid() && c < |cfg.macs| && (pc == VDistribute(index, c) || pc == VDeliver(index, c))
      modifies this`cliActive, this`trace, this`pc
      ensures Valid() && trace == old(trace) + [VirtPut] && Gives(trace) == Gives(old(trace))
      ensures Sent(cfg, Abs()) == old(Sent(cfg, Abs()))[c := old(Sent(cfg, Abs()))[c] + 1]
      ensures pc == if old(pc).VDistribute? && c + 1 < |cfg.macs| then VDistribute(index, c + 1) else VIdle
    {
      cliActive, pc := PutStep(cfg, mem0, trace, Abs(), c);
      trace := trace + [VirtPut];
    }

    /** The same, after others have acted. */
    method PutActive(c: nat, index: nat, schedule: seq<seq<Step>>) returns (rest: seq<seq<Step>>)
      requires Valid() && IsSchedule(schedule) && c < |cfg.macs|
               && (pc == VDistribute(index, c) || pc == VDeliver(index, c))
      modifies this`drvFree, this`drvActive, this`cliActive, this`cliFree, this`w, this`trace, this`pc
      ensures Valid() && IsSchedule(rest) && old(trace) <= trace
      ensures |rest| < |schedule| || (rest == schedule == [] && drvActive == old(drvActive))
      ensures Sent(cfg, Abs()) == old(Sent(cfg, Abs()))[c := old(Sent(cfg, Abs()))[c] + 1]
      ensures pc == if old(pc).VDistribute? && c + 1 < |cfg.macs| then VDistribute(index, c + 1) else VIdle
      ensures Gives(trace) == Gives(old(trace))
    {
      rest := Interfere(schedule);
      PutNow(c, index);
    }

    /** net_enqueue_free on the driver's queue; the assertion that it has room always holds. */
    method GiveNow(index: nat)
      requires Valid() && pc == VGive(index)
      modifies this`drvFree, this`trace, this`pc, this`notifyDrv
      ensures Valid() && trace == old(trace) + [VirtGive] && Gives(trace) == Gives(old(trace)) + 1
      ensures drvFree == old(drvFree) + [index] && pc == VIdle && notifyDrv && Sent(cfg, Abs()) == old(Sent(cfg, Abs()))
    {
      ExtendGive(cfg, mem0, trace, Abs());
      assert |drvFree| < cfg.queueCapacity;
      GivesPush(trace, VirtGive);
      drvFree, pc, trace, notifyDrv := drvFree + [index], VIdle, trace + [VirtGive], true;
    }

    /** The same, after others have acted. */
    method GiveFree(index: nat, schedule: seq<seq<Step>>) returns (rest: seq<seq<Step>>)
      requires Valid() && IsSchedule(schedule) && pc == VGive(index)
      modifies this`drvFree, this`drvActive, this`cliActive, this`cliFree, this`w, this`trace, this`pc, this`notifyDrv
      ensures Valid() && IsSchedule(rest) && old(trace) <= trace && Sent(cfg, Abs()) == old(Sent(cfg, Abs()))
      ensures |rest| < |schedule| || (rest == schedule == [] && drvActive == old(drvActive) && cliFree == old(cliFree))
      ensures index in drvFree && pc == VIdle && notifyDrv && |cliFree| == |old(cliFree)|
      ensures Noted(old(notifyDrv), Gives(old(trace)), notifyDrv, Gives(trace))
    {
      rest := Interfere(schedule);
      GiveNow(index);
    }

    /** net_dequeue_free on client c's queue, after others have acted. */
    method TakeFree(c: nat, schedule: seq<seq<Step>>) returns (index: nat, rest: seq<seq<Step>>)
      requires Valid() && IsSchedule(schedule) && pc == VIdle && c < |cliFree| && cliFree[c] != []
      modifies this`drvFree, this`drvActive, this`cliActive, this`cliFree, this`w, this`trace, this`pc
      ensures Valid() && IsSchedule(rest) && old(trace) <= trace && pc == VTook(index, c)
      ensures |cliFree| == |old(cliFree)| && index == old(cliFree)[c][0]
      ensures |rest| < |schedule| || (rest == schedule == [] && cliFree == old(cliFree)[c := old(cliFree)[c][1..]])
      ensures Gives(trace) == Gives(old(trace))
    {
      rest := Interfere(schedule);
      ExtendTakeFree(cfg, mem0, trace, Abs(), c);
      index := cliFree[c][0];
      GivesPush(trace, VirtTakeFree(c));
      cliFree, pc, trace := cliFree[c := cliFree[c][1..]], VTook(index, c), trace + [VirtTakeFree(c)];
    }

    /** Lower the reference count of the buffer in hand; it is owed to the driver when the count reaches zero. */
    method Release(index: nat)
      requires Valid() && pc.VTook? && pc.buf == index
      modifies this`pc, this`trace, bufferRefs
      ensures Valid() && old(trace) <= trace && index < bufferRefs.Length
      ensures old(bufferRefs[..]) == bufferRefs[..][index := bufferRefs[index] + 1]
      ensures pc == if bufferRefs[index] == 0 then VGive(index) else VIdle
      ensures Gives(trace) == Gives(old(trace))
    {
      ghost var s := Abs();
      ExtendRelease(cfg, mem0, trace, s);
      assert index < cfg.queueCapacity && bufferRefs[index] != 0;
      bufferRefs[index] := bufferRefs[index] - 1;
      GivesPush(trace, VirtRelease);
      trace := trace + [VirtRelease];
      pc := if bufferRefs[index] != 0 then VIdle else VGive(index);
      assert bufferRefs[..] == s.refs[index := s.refs[index] - 1];
    }

    /** Enqueue the buffer in hand for every client; they may return it before the loop has reached the last one. */
    method Distribute(index: nat, notify: seq<bool>, schedule: seq<seq<Step>>, ghost sent0: seq<nat>)
      returns (notify': seq<bool>, rest: seq<seq<Step>>)
      requires Valid() && IsSchedule(schedule) && pc == VDistribute(index, 0) && Tracks(notify, sent0, Sent(cfg, Abs()))
      modifies this`drvFree, this`drvActive, this`cliActive, this`cliFree, this`w, this`trace, this`pc
      ensures Valid() && IsSchedule(rest) && pc == VIdle && old(trace) <= trace
      ensures |rest| < |schedule| || (rest == schedule == [] && drvActive == old(drvActive))
      ensures Tracks(notify', sent0, Sent(cfg, Abs()))
      ensures Gives(trace) == Gives(old(trace))
    {
      notify', rest := notify, schedule;
      for i := 0 to |cfg.macs|
        invariant Valid() && IsSchedule(rest) && Tracks(notify', sent0, Sent(cfg, Abs())) && old(trace) <= trace
        invariant pc == if i < |cfg.macs| then VDistribute(index, i) else VIdle
        invariant |rest| < |schedule| || (rest == schedule && drvActive == old(drvActive) && (i > 0 ==> rest == []))
        invariant Gives(trace) == Gives(old(trace))
      {
        rest := PutActive(i, index, rest);
        notify' := notify'[i := true];
      }
    }

    /** Hand the routed buffer to the client or clients it is for, or back to the driver. */
    method Forward(index: nat, client: int, notify: seq<bool>, schedule: seq<seq<Step>>, ghost sent0: seq<nat>)
      returns (notify': seq<bool>, rest: seq<seq<Step>>)
      requires Valid() && IsSchedule(schedule) && Tracks(notify, sent0, Sent(cfg, Abs())) && client < |cfg.macs|
      requires pc == if client == BROADCAST_ID then VDistribute(index, 0)
                 else if client >= 0 then VDeliver(index, client) else VGive(index)
      modifies this
      ensures Valid() && IsSchedule(rest) && pc == VIdle && bufferRefs == old(bufferRefs) && old(trace) <= trace
      ensures |rest| < |schedule| || (rest == schedule == [] && drvActive == old(drvActive))
      ensures Tracks(notify', sent0, Sent(cfg, Abs()))
      ensures Noted(old(notifyDrv), Gives(old(trace)), notifyDrv, Gives(trace))
    {
      if client == BROADCAST_ID {
        notify', rest := Distribute(index, notify, schedule, sent0);
      } else if client >= 0 {
        rest := PutActive(client, index, schedule);
        notify' := notify[client := true];
      } else {
        rest := GiveFree(index, schedule);
        notify' := notify;
      }
    }

    /** One round of the inner loop of rx_return. */
    method HandleActive(notify: seq<bool>, schedule: seq<seq<Step>>, ghost sent0: seq<nat>)
      returns (notify': seq<bool>, rest: seq<seq<Step>>)
      requires Valid() && IsSchedule(schedule) && pc == VIdle && drvActive != []
               && Tracks(notify, sent0, Sent(cfg, Abs()))
      modifies this, bufferRefs
      ensures Valid() && IsSchedule(rest) && pc == VIdle && bufferRefs == old(bufferRefs) && old(trace) <= trace
      ensures |rest| < |schedule| || (rest == schedule == [] && |drvActive| < |old(drvActive)|)
      ensures Tracks(notify', sent0, Sent(cfg, Abs()))
      ensures Noted(old(notifyDrv), Gives(old(trace)), notifyDrv, Gives(trace))
    {
      var index;
      index, rest := TakeActive(schedule);
      var client := Classify(index);
      notify', rest := Forward(index, client, notify, rest, sent0);
    }

    /**
     rx_return: route every buffer in the driver's active queue. When it returns the queue is empty, a flag is set
     for exactly the clients that were sent something meanwhile, and the state is still reachable.
     */
    method RxReturn(schedule: seq<seq<Step>>) returns (notify: seq<bool>, rest: seq<seq<Step>>)
      requires Valid() && IsSchedule(schedule) && pc == VIdle
      modifies this, bufferRefs
      ensures Valid() && IsSchedule(rest) && pc == VIdle && bufferRefs == old(bufferRefs) && old(trace) <= trace
      ensures drvActive == [] && Tracks(notify, old(Sent(cfg, Abs())), Sent(cfg, Abs()))
      ensures Noted(old(notifyDrv), Gives(old(trace)), notifyDrv, Gives(trace))
    {
      ghost var sent0 := Sent(cfg, Abs());
      var reprocess := true;
      notify, rest := Fill(|cfg.macs|, false), schedule;
      while reprocess
        invariant Noted(old(notifyDrv), Gives(old(trace)), notifyDrv, Gives(trace))
        invariant Valid() && IsSchedule(rest) && pc == VIdle && bufferRefs == old(bufferRefs) && old(trace) <= trace
        invariant Tracks(notify, sent0, Sent(cfg, Abs()))
        invariant !reprocess ==> drvActive == []
        decreases |rest|, reprocess
      {
        ghost var before := |rest|;
        while drvActive != []
          invariant Noted(old(notifyDrv), Gives(old(trace)), notifyDrv, Gives(trace))
          invariant Valid() && IsSchedule(rest) && pc == VIdle && bufferRefs == old(bufferRefs) && old(trace) <= trace
          invariant Tracks(notify, sent0, Sent(cfg, Abs())) && |rest| <= before
          decreases |rest|, |drvActive|
        {
          notify, rest := HandleActive(notify, rest, sent0);
        }
        reprocess := false;
        rest := Interfere(rest);
        if drvActive != [] {
          reprocess := true;
        }
      }
    }

    /** One round of the inner loop of rx_provide: drop client c's share of a buffer, and free it after the last. */
    method HandleFree(c: nat, schedule: seq<seq<Step>>) returns (rest: seq<seq<Step>>)
      requires Valid() && IsSchedule(schedule) && pc == VIdle && c < |cliFree| && cliFree[c] != []
      modifies this, bufferRefs
      ensures Valid() && IsSchedule(rest) && pc == VIdle && bufferRefs == old(bufferRefs) && old(trace) <= trace
      ensures |cliFree| == |old(cliFree)|
      ensures |rest| < |schedule| || (rest == schedule == [] && cliFree == old(cliFree)[c := old(cliFree)[c][1..]])
      ensures Noted(old(notifyDrv), Gives(old(trace)), notifyDrv, Gives(trace))
    {
      var index;
      index, rest := TakeFree(c, schedule);
      Release(index);
      if bufferRefs[index] == 0 {
        rest := GiveFree(index, rest);
      }
    }

    /** The loops of rx_provide for one client. */
    method DrainFree(c: nat, schedule: seq<seq<Step>>) returns (rest: seq<seq<Step>>)
      requires Valid() && IsSchedule(schedule) && pc == VIdle && c < |cliFree|
      modifies this, bufferRefs
      ensures Valid() && IsSchedule(rest) && pc == VIdle && bufferRefs == old(bufferRefs) && old(trace) <= trace
      ensures |cliFree| == |old(cliFree)| && cliFree[c] == []
      ensures schedule == [] ==> rest == [] && cliFree == old(cliFree)[c := []]
      ensures Noted(old(notifyDrv), Gives(old(trace)), notifyDrv, Gives(trace))
    {
      rest := schedule;
      var reprocess := true;
      while reprocess
        invariant Noted(old(notifyDrv), Gives(old(trace)), notifyDrv, Gives(trace))
        invariant Valid() && IsSchedule(rest) && pc == VIdle && bufferRefs == old(bufferRefs) && old(trace) <= trace
        invariant |cliFree| == |old(cliFree)| && (!reprocess ==> cliFree[c] == [])
        invariant schedule == [] ==> rest == [] && cliFree == old(cliFree)[c := cliFree[c]]
        decreases |rest|, reprocess
      {
        ghost var before := |rest|;
        while cliFree[c] != []
          invariant Noted(old(notifyDrv), Gives(old(trace)), notifyDrv, Gives(trace))
          invariant Valid() && IsSchedule(rest) && pc == VIdle && bufferRefs == old(bufferRefs) && old(trace) <= trace
          invariant |rest| <= before && |cliFree| == |old(cliFree)|
          invariant schedule == [] ==> rest == [] && cliFree == old(cliFree)[c := cliFree[c]]
          decreases |rest|, |cliFree[c]|
        {
          rest := HandleFree(c, rest);
        }
        reprocess := false;
        rest := Interfere(rest);
        if cliFree[c] != [] {
          reprocess := true;
        }
      }
    }

    /**
     rx_provide: take back what the clients returned. Each client's free queue is found empty in turn, and undisturbed
     all are empty afterwards; the driver is to be notified if it was, or if buffers were given back to it.
     */
    method RxProvide(schedule: seq<seq<Step>>) returns (rest: seq<seq<Step>>)
      requires Valid() && IsSchedule(schedule) && pc == VIdle
      modifies this, bufferRefs
      ensures Valid() && IsSchedule(rest) && pc == VIdle && bufferRefs == old(bufferRefs) && old(trace) <= trace
      ensures schedule == [] ==> forall c :: 0 <= c < |cliFree| ==> cliFree[c] == []
      ensures Noted(old(notifyDrv), Gives(old(trace)), notifyDrv, Gives(trace))
      ensures AllFound(cfg, mem0, |old(trace)|, trace, |cfg.macs|)
    {
      rest := schedule;
      for c := 0 to |cfg.macs|
        invariant Noted(old(notifyDrv), Gives(old(trace)), notifyDrv, Gives(trace))
        invariant AllFound(cfg, mem0, |old(trace)|, trace, c)
        invariant Valid() && IsSchedule(rest) && pc == VIdle && bufferRefs == old(bufferRefs) && old(trace) <= trace
        invariant schedule == [] ==> rest == [] && forall k :: 0 <= k < c ==> cliFree[k] == []
      {
        ghost var before := trace;
        rest := DrainFree(c, rest);
        AllFoundEmpty(cfg, mem0, |old(trace)|, before, trace, Abs(), c);
      }
    }
  }
}
