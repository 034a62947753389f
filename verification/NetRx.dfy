/**
 The network receive path as a step system: Ethernet driver and device ring, receive
 virtualiser with its broadcast reference counts, and one copier per client, interleaved
 at single queue operations.

 A buffer is named by its index in the DMA region (its offset divided by NET_BUFFER_SIZE).
 */
module NetRx {
  import opened NetRoute
  import opened Sequences

  /** Where the virtualiser is between two queue operations. */
  datatype VirtPc =
    | VIdle
    | VGot(buf: nat)                   // taken from the driver's active queue, not yet routed
    | VDistribute(buf: nat, next: nat) // broadcasting; clients below `next` already have it
    | VDeliver(buf: nat, client: nat)  // routed to one client, not yet enqueued
    | VGive(buf: nat)                  // owed to the driver's free queue
    | VTook(buf: nat, client: nat)     // taken from a client's free queue, count not yet lowered

  datatype DrvPc = DIdle | DTook(buf: nat)

  /** A copier between two queue operations. */
  datatype CopyPc =
    | CIdle
    | CHasRoom           // holds a valid client buffer
    | CNoRoom            // found the client's free queue empty
    | CFull(buf: nat)    // holds a client buffer and a virtualiser buffer
    | CReturn(buf: nat)  // owes a virtualiser buffer to the free queue

  /** A client's own queues: how many buffers it offers to its copier, and how many packets wait for it. */
  datatype Own = Own(offered: nat, waiting: nat)

  /** Driver, device, copiers, DMA memory, and the history of packets. */
  datatype World = World(
    ringPend: seq<nat>,   // armed, owned by the device
    ringDone: seq<nat>,   // filled by the device, not yet seen by the driver
    drv: DrvPc,
    copiers: seq<CopyPc>,
    own: seq<Own>,        // per client, its own queues
    mem: seq<Packet>,
    wire: seq<Packet>,            // every packet the device received, in order
    seen: seq<Packet>,            // every packet the virtualiser routed
    taken: seq<seq<Packet>>,      // per client, every packet its copier took
    delivered: seq<seq<Packet>>)  // per client, every packet copied to the client

  datatype State = State(
    drvFree: seq<nat>,
    drvActive: seq<nat>,
    cliActive: seq<seq<nat>>,
    cliFree: seq<seq<nat>>,
    refs: seq<nat>,
    virt: VirtPc,
    w: World)

  /**
   Addresses of the clients; buffers and capacities of the ring and of the queues between driver, virtualiser and
   copiers; and per client the capacity of its own two queues and how many of its buffers it lets circulate through them
   (in its free queue, with the copier, or in its active queue).
   */
  datatype Config = Config(macs: seq<Mac>, numBuffers: nat, ringCapacity: nat, queueCapacity: nat,
                           limits: seq<Limits>)
  {
    predicate Valid()
    {
      |macs| > 0 && numBuffers <= queueCapacity && |limits| == |macs|
    }
  }

  datatype Limits = Limits(capacity: nat, circulation: nat)

  datatype Step =
    | DrvTakeFree
    | DrvArm
    | DevReceive(packet: Packet)
    | DrvReturn
    | VirtTakeActive
    | VirtRoute
    | VirtPut
    | VirtGive
    | VirtTakeFree(client: nat)
    | VirtRelease
    | CopyTakeRoom(client: nat)
    | CopySkip(client: nat)        // the client offered something that is not one of its buffers
    | CopyFindNoRoom(client: nat)
    | CopyTakeActive(client: nat)
    | CopyDeliver(client: nat)
    | CopyReturn(client: nat)
    | ClientOffer(client: nat)
    | ClientTake(client: nat)

  /** At first all buffers of the clients are offered (net_buffers_init). */
  function AllOffered(limits: seq<Limits>): (own: seq<Own>)
    ensures |own| == |limits| && forall c :: 0 <= c < |own| ==> own[c] == Own(limits[c].capacity, 0)
  {
    seq(|limits|, c requires 0 <= c < |limits| => Own(limits[c].capacity, 0))
  }

  function Init(cfg: Config, mem: seq<Packet>): State
    requires cfg.Valid()
  {
    var clients := |cfg.macs|;
    State(seq(cfg.numBuffers, i => i), [], Fill(clients, []), Fill(clients, []), Fill(cfg.numBuffers, 0), VIdle,
          World([], [], DIdle, Fill(clients, CIdle), AllOffered(cfg.limits), mem, [], [], Fill(clients, []),
              Fill(clients, [])))
  }

  /** Arrays have the lengths the configuration gives them; clients and buffers named anywhere are in range. */
  predicate Shaped(cfg: Config, s: State)
  {
    && |s.cliActive| == |s.cliFree| == |s.w.copiers| == |s.w.taken| == |s.w.delivered| == |cfg.macs|
    && |s.w.own| == |cfg.limits| == |cfg.macs|
    && |s.refs| == |s.w.mem| == cfg.numBuffers
    && (s.virt.VDistribute? ==> s.virt.next < |cfg.macs|)
    && (s.virt.VDeliver? || s.virt.VTook? ==> s.virt.client < |cfg.macs|)
    && (s.virt != VIdle ==> s.virt.buf < cfg.numBuffers)
    && (s.w.drv.DTook? ==> s.w.drv.buf < cfg.numBuffers)
    && (forall c :: 0 <= c < |s.w.copiers| && (s.w.copiers[c].CFull? || s.w.copiers[c].CReturn?) ==>
         s.w.copiers[c].buf < cfg.numBuffers)
    && Below(s.drvFree, cfg.numBuffers) && Below(s.drvActive, cfg.numBuffers)
    && Below(s.w.ringPend, cfg.numBuffers) && Below(s.w.ringDone, cfg.numBuffers)
    && AllBelow(s.cliActive, cfg.numBuffers) && AllBelow(s.cliFree, cfg.numBuffers)
  }

  function One(b: bool): nat
  {
    if b then 1 else 0
  }

  /** How many buffers of client c are in its free queue, with its copier, or in its active queue. */
  function Circulating(s: State, c: nat): nat
    requires c < |s.w.copiers| == |s.w.own|
  {
    s.w.own[c].offered + One(s.w.copiers[c] == CHasRoom || s.w.copiers[c].CFull?) + s.w.own[c].waiting
  }

  predicate Enabled(cfg: Config, s: State, step: Step)
    requires Shaped(cfg, s)
  {
    match step
    case DrvTakeFree => s.w.drv == DIdle && s.drvFree != [] && |s.w.ringPend| + |s.w.ringDone| < cfg.ringCapacity
    case DrvArm => s.w.drv.DTook?
    case DevReceive(_) => s.w.ringPend != []
    case DrvReturn => s.w.drv == DIdle && s.w.ringDone != []
    case VirtTakeActive => s.virt == VIdle && s.drvActive != []
    case VirtRoute => s.virt.VGot?
    case VirtPut => s.virt.VDistribute? || s.virt.VDeliver?
    case VirtGive => s.virt.VGive?
    case VirtTakeFree(c) => s.virt == VIdle && c < |s.cliFree| && s.cliFree[c] != []
    case VirtRelease => s.virt.VTook?
    case CopyTakeRoom(c) => c < |s.w.copiers| && s.w.copiers[c] == CIdle && s.w.own[c].offered > 0
    case CopySkip(c) => c < |s.w.copiers| && s.w.copiers[c] == CIdle && s.w.own[c].offered > 0
    case CopyFindNoRoom(c) => c < |s.w.copiers| && s.w.copiers[c] == CIdle && s.w.own[c].offered == 0
    case CopyTakeActive(c) => c < |s.w.copiers| && (s.w.copiers[c] == CHasRoom || s.w.copiers[c] == CNoRoom)
        && s.cliActive[c] != []
    case CopyDeliver(c) => c < |s.w.copiers| && s.w.copiers[c].CFull?
    case CopyReturn(c) => c < |s.w.copiers| && s.w.copiers[c].CReturn?
    case ClientOffer(c) =>
      c < |s.w.copiers| && s.w.own[c].offered < cfg.limits[c].capacity && Circulating(s, c) < cfg.limits[c].circulation
    case ClientTake(c) => c < |s.w.copiers| && s.w.own[c].waiting > 0
  }

  /** The assertions of the C code at this step: reference counts, bounds, and room in the queue enqueued to. */
  predicate AssertsHold(cfg: Config, s: State, step: Step)
    requires Shaped(cfg, s) && Enabled(cfg, s, step)
  {
    match step
    case DrvReturn => |s.drvActive| < cfg.queueCapacity
    case VirtRoute => (Route(cfg.macs, s.w.mem[s.virt.buf].dest) != NoMatch ==> s.refs[s.virt.buf] == 0)
    case VirtPut => |s.cliActive[if s.virt.VDistribute? then s.virt.next else s.virt.client]| < cfg.queueCapacity
    case VirtGive => |s.drvFree| < cfg.queueCapacity
    case VirtRelease => s.virt.buf < cfg.queueCapacity && s.refs[s.virt.buf] != 0
    case CopyDeliver(c) => s.w.own[c].waiting < cfg.limits[c].capacity
    case CopyReturn(c) => |s.cliFree[c]| < cfg.queueCapacity
    case _ => true
  }

  predicate IsDriverStep(step: Step)
  {
    step.DrvTakeFree? || step.DrvArm? || step.DevReceive? || step.DrvReturn?
  }

  predicate IsVirtStep(step: Step)
  {
    step.VirtTakeActive? || step.VirtRoute? || step.VirtPut? || step.VirtGive? || step.VirtTakeFree?
        || step.VirtRelease?
  }

  /** What the driver and the device do. */
  function ApplyDriver(cfg: Config, s: State, step: Step): (s': State)
    requires Shaped(cfg, s) && IsDriverStep(step) && Enabled(cfg, s, step)
    ensures Shaped(cfg, s')
  {
    match step
    case DrvTakeFree =>
      s.(drvFree := s.drvFree[1..], w := s.w.(drv := DTook(s.drvFree[0])))
    case DrvArm =>
      s.(w := s.w.(drv := DIdle, ringPend := s.w.ringPend + [s.w.drv.buf]))
    case DevReceive(p) =>
      var b := s.w.ringPend[0];
      s.(w := s.w.(ringPend := s.w.ringPend[1..], ringDone := s.w.ringDone + [b],
                   mem := s.w.mem[b := p], wire := s.w.wire + [p]))
    case DrvReturn =>
      s.(drvActive := s.drvActive + [s.w.ringDone[0]], w := s.w.(ringDone := s.w.ringDone[1..]))
  }

  /** What the virtualiser does. */
  function ApplyVirt(cfg: Config, s: State, step: Step): (s': State)
    requires cfg.Valid() && Shaped(cfg, s) && IsVirtStep(step) && Enabled(cfg, s, step)
    ensures Shaped(cfg, s')
  {
    match step
    case VirtTakeActive =>
      s.(drvActive := s.drvActive[1..], virt := VGot(s.drvActive[0]))
    case VirtRoute =>
      var b := s.virt.buf;
      var p := s.w.mem[b];
      var s' := s.(w := s.w.(seen := s.w.seen + [p]));
      (match Route(cfg.macs, p.dest)
       case Broadcast => s'.(refs := s.refs[b := |cfg.macs|], virt := VDistribute(b, 0))
       case ToClient(c) => s'.(refs := s.refs[b := 1], virt := VDeliver(b, c))
       case NoMatch => s'.(virt := VGive(b)))
    case VirtPut =>
      var c := if s.virt.VDistribute? then s.virt.next else s.virt.client;
      var b := s.virt.buf;
      s.(cliActive := s.cliActive[c := s.cliActive[c] + [b]],
         virt := if s.virt.VDistribute? && c + 1 < |cfg.macs| then VDistribute(b, c + 1) else VIdle)
    case VirtGive =>
      s.(drvFree := s.drvFree + [s.virt.buf], virt := VIdle)
    case VirtTakeFree(c) =>
      s.(cliFree := s.cliFree[c := s.cliFree[c][1..]], virt := VTook(s.cliFree[c][0], c))
    case VirtRelease =>
      var b := s.virt.buf;
      var left := if s.refs[b] > 0 then s.refs[b] - 1 else 0;
      s.(refs := s.refs[b := left], virt := if left == 0 then VGive(b) else VIdle)
  }

  /** What a copier or a client does. */
  function ApplyCopy(cfg: Config, s: State, step: Step): (s': State)
    requires Shaped(cfg, s) && !IsDriverStep(step) && !IsVirtStep(step) && Enabled(cfg, s, step)
    ensures Shaped(cfg, s')
  {
    match step
    case CopyTakeRoom(c) =>
      s.(w := s.w.(copiers := s.w.copiers[c := CHasRoom],
        own := s.w.own[c := s.w.own[c].(offered := s.w.own[c].offered - 1)]))
    case CopySkip(c) =>
      s.(w := s.w.(own := s.w.own[c := s.w.own[c].(offered := s.w.own[c].offered - 1)]))
    case CopyFindNoRoom(c) =>
      s.(w := s.w.(copiers := s.w.copiers[c := CNoRoom]))
    case CopyTakeActive(c) =>
      var b := s.cliActive[c][0];
      s.(cliActive := s.cliActive[c := s.cliActive[c][1..]],
         w := s.w.(copiers := s.w.copiers[c := if s.w.copiers[c] == CHasRoom then CFull(b) else CReturn(b)],
                   taken := s.w.taken[c := s.w.taken[c] + [s.w.mem[b]]]))
    case CopyDeliver(c) =>
      var b := s.w.copiers[c].buf;
      s.(w := s.w.(copiers := s.w.copiers[c := CReturn(b)],
                   own := s.w.own[c := s.w.own[c].(waiting := s.w.own[c].waiting + 1)],
                   delivered := s.w.delivered[c := s.w.delivered[c] + [s.w.mem[b]]]))
    case CopyReturn(c) =>
      s.(cliFree := s.cliFree[c := s.cliFree[c] + [s.w.copiers[c].buf]],
         w := s.w.(copiers := s.w.copiers[c := CIdle]))
    case ClientOffer(c) =>
      s.(w := s.w.(own := s.w.own[c := s.w.own[c].(offered := s.w.own[c].offered + 1)]))
    case ClientTake(c) =>
      s.(w := s.w.(own := s.w.own[c := s.w.own[c].(waiting := s.w.own[c].waiting - 1)]))
  }

  function Apply(cfg: Config, s: State, step: Step): (s': State)
    requires cfg.Valid() && Shaped(cfg, s) && Enabled(cfg, s, step)
    ensures Shaped(cfg, s')
  {
    if IsDriverStep(step) then ApplyDriver(cfg, s, step)
    else if IsVirtStep(step) then ApplyVirt(cfg, s, step)
    else ApplyCopy(cfg, s, step)
  }

  function Next(cfg: Config, s: State, step: Step): State
    requires cfg.Valid()
  {
    if Shaped(cfg, s) && Enabled(cfg, s, step) then Apply(cfg, s, step) else s
  }

  /** A run: each listed step is taken if it is enabled, and skipped otherwise. */
  function Run(cfg: Config, s: State, steps: seq<Step>): State
    requires cfg.Valid()
  {
    if steps == [] then s
    else Next(cfg, Run(cfg, s, steps[..|steps| - 1]), steps[|steps| - 1])
  }

  lemma {:induction false} RunShaped(cfg: Config, s: State, steps: seq<Step>)
    requires cfg.Valid() && Shaped(cfg, s)
    ensures Shaped(cfg, Run(cfg, s, steps))
  {
    if steps != [] {
      RunShaped(cfg, s, steps[..|steps| - 1]);
    }
  }

  // ---- Conservation -----------------------------------------------------------------------

  /**
   How often buffer b is on the driver side: driver queues, device ring, or in hand on the way there or from there.
   */
  function DriverSide(s: State, b: nat): nat
  {
    Tally(s.drvFree, b) + Tally(s.drvActive, b) + Tally(s.w.ringPend, b) + Tally(s.w.ringDone, b)
    + One(s.w.drv == DTook(b)) + One(s.virt == VGot(b) || s.virt == VGive(b))
  }

  /** The virtualiser has promised b to client c, or holds it on behalf of c. */
  predicate VirtShare(v: VirtPc, c: nat, b: nat)
  {
    v == VDeliver(b, c) || v == VTook(b, c) || (v.VDistribute? && v.buf == b && v.next <= c)
  }

  /** How often buffer b is on client c's side. */
  function ClientSide(s: State, c: nat, b: nat): nat
    requires c < |s.cliActive| == |s.cliFree| == |s.w.copiers|
  {
    Tally(s.cliActive[c], b) + Tally(s.cliFree[c], b)
    + One(s.w.copiers[c] == CFull(b) || s.w.copiers[c] == CReturn(b)) + One(VirtShare(s.virt, c, b))
  }

  function Holders(cfg: Config, s: State, b: nat): set<nat>
    requires Shaped(cfg, s)
  {
    set c: nat | c in Range(|cfg.macs|) && ClientSide(s, c, b) > 0
  }

  /** Buffer b is in exactly one place, or with as many clients as its reference count says. */
  predicate Balanced(cfg: Config, s: State, b: nat)
    requires Shaped(cfg, s) && b < cfg.numBuffers
  {
    && (forall c: nat :: c < |cfg.macs| ==> ClientSide(s, c, b) <= 1)
    && s.refs[b] == |Holders(cfg, s, b)|
    && DriverSide(s, b) == One(s.refs[b] == 0)
  }

  predicate Conserved(cfg: Config, s: State)
  {
    Shaped(cfg, s) && forall b: nat :: b < cfg.numBuffers ==> Balanced(cfg, s, b)
  }

  lemma HolderMeans(cfg: Config, s: State, c: nat, b: nat)
    requires Shaped(cfg, s) && c < |cfg.macs|
    ensures c in Holders(cfg, s, b) <==> ClientSide(s, c, b) > 0
  {
  }

  lemma SameHolders(cfg: Config, s: State, s': State, b: nat)
    requires Shaped(cfg, s) && Shaped(cfg, s') && b < cfg.numBuffers && Balanced(cfg, s, b)
    requires s'.refs[b] == s.refs[b] && DriverSide(s', b) == DriverSide(s, b)
    requires forall c: nat :: c < |cfg.macs| ==> ClientSide(s', c, b) == ClientSide(s, c, b)
    ensures Balanced(cfg, s', b)
  {
    assert Holders(cfg, s', b) == Holders(cfg, s, b);
  }

  lemma DriverConserves(cfg: Config, s: State, step: Step)
    requires cfg.Valid() && Conserved(cfg, s) && IsDriverStep(step) && Enabled(cfg, s, step)
    ensures Conserved(cfg, ApplyDriver(cfg, s, step))
  {
    var s' := ApplyDriver(cfg, s, step);
    forall b: nat | b < cfg.numBuffers
      ensures Balanced(cfg, s', b)
    {
      match step {
        case DrvTakeFree => TallyPop(s.drvFree);
        case DevReceive(_) => TallyPop(s.w.ringPend);
        case DrvReturn => TallyPop(s.w.ringDone);
        case DrvArm =>
      }
      SameHolders(cfg, s, s', b);
    }
  }

  lemma CopyConserves(cfg: Config, s: State, step: Step)
    requires cfg.Valid() && Conserved(cfg, s) && !IsDriverStep(step) && !IsVirtStep(step) && Enabled(cfg, s, step)
    ensures Conserved(cfg, ApplyCopy(cfg, s, step))
  {
    if step.CopyTakeActive? {
      CopyTakeConserves(cfg, s, step.client);
    } else {
      var s' := ApplyCopy(cfg, s, step);
      forall b: nat | b < cfg.numBuffers
        ensures Balanced(cfg, s', b)
      {
        SameHolders(cfg, s, s', b);
      }
    }
  }

  lemma CopyTakeConserves(cfg: Config, s: State, c: nat)
    requires cfg.Valid() && Conserved(cfg, s) && Enabled(cfg, s, CopyTakeActive(c))
    ensures Conserved(cfg, ApplyCopy(cfg, s, CopyTakeActive(c)))
  {
    var s' := ApplyCopy(cfg, s, CopyTakeActive(c));
    forall b: nat | b < cfg.numBuffers
      ensures Balanced(cfg, s', b)
    {
      TallyPop(s.cliActive[c]);
      SameHolders(cfg, s, s', b);
    }
  }

  /** The virtualiser takes a buffer from the driver or gives one back. */
  lemma DriverMoveConserves(cfg: Config, s: State, step: Step)
    requires cfg.Valid() && Conserved(cfg, s) && Enabled(cfg, s, step) && (step.VirtTakeActive? || step.VirtGive?)
    ensures Conserved(cfg, ApplyVirt(cfg, s, step))
  {
    var s' := ApplyVirt(cfg, s, step);
    forall b: nat | b < cfg.numBuffers
      ensures Balanced(cfg, s', b)
    {
      if step.VirtTakeActive? {
        TallyPop(s.drvActive);
      }
      SameHolders(cfg, s, s', b);
    }
  }

  /** The virtualiser hands a client its share. */
  lemma PutConserves(cfg: Config, s: State)
    requires cfg.Valid() && Conserved(cfg, s) && Enabled(cfg, s, VirtPut)
    ensures Conserved(cfg, ApplyVirt(cfg, s, VirtPut))
  {
    var s' := ApplyVirt(cfg, s, VirtPut);
    forall b: nat | b < cfg.numBuffers
      ensures Balanced(cfg, s', b)
    {
      SameHolders(cfg, s, s', b);
    }
  }

  /** The virtualiser takes back what a client returned. */
  lemma TakeBackConserves(cfg: Config, s: State, c: nat)
    requires cfg.Valid() && Conserved(cfg, s) && Enabled(cfg, s, VirtTakeFree(c))
    ensures Conserved(cfg, ApplyVirt(cfg, s, VirtTakeFree(c)))
  {
    var s' := ApplyVirt(cfg, s, VirtTakeFree(c));
    forall b: nat | b < cfg.numBuffers
      ensures Balanced(cfg, s', b)
    {
      TallyPop(s.cliFree[c]);
      SameHolders(cfg, s, s', b);
    }
  }

  lemma NobodyHolds(cfg: Config, s: State, b: nat)
    requires Shaped(cfg, s) && b < cfg.numBuffers && Balanced(cfg, s, b) && DriverSide(s, b) > 0
    ensures s.refs[b] == 0
    ensures forall c: nat :: c < |cfg.macs| ==> ClientSide(s, c, b) == 0
  {
    forall c: nat | c < |cfg.macs|
      ensures ClientSide(s, c, b) == 0
    {
      HolderMeans(cfg, s, c, b);
    }
  }

  lemma SharedBalanced(cfg: Config, s: State, b: nat, who: set<nat>)
    requires Shaped(cfg, s) && b < cfg.numBuffers && DriverSide(s, b) == 0
    requires who <= Range(|cfg.macs|) && who != {} && s.refs[b] == |who|
    requires forall c: nat :: c < |cfg.macs| ==> ClientSide(s, c, b) == One(c in who)
    ensures Balanced(cfg, s, b)
  {
    assert Holders(cfg, s, b) == who;
  }

  /** A routed buffer is shared by exactly the clients it is addressed to, and its count is their number. */
  lemma RoutedBalanced(cfg: Config, s: State)
    requires cfg.Valid() && Conserved(cfg, s) && s.virt.VGot?
    ensures Balanced(cfg, ApplyVirt(cfg, s, VirtRoute), s.virt.buf)
  {
    var s' := ApplyVirt(cfg, s, VirtRoute);
    var b := s.virt.buf;
    NobodyHolds(cfg, s, b);
    match Route(cfg.macs, s.w.mem[b].dest) {
      case NoMatch => SameHolders(cfg, s, s', b);
      case ToClient(c) => SharedBalanced(cfg, s', b, {c});
      case Broadcast =>
        assert 0 in Range(|cfg.macs|);
        SharedBalanced(cfg, s', b, Range(|cfg.macs|));
    }
  }

  lemma RouteConserves(cfg: Config, s: State)
    requires cfg.Valid() && Conserved(cfg, s) && s.virt.VGot?
    ensures Conserved(cfg, ApplyVirt(cfg, s, VirtRoute))
  {
    var s' := ApplyVirt(cfg, s, VirtRoute);
    RoutedBalanced(cfg, s);
    forall b: nat | b < cfg.numBuffers && b != s.virt.buf
      ensures Balanced(cfg, s', b)
    {
      SameHolders(cfg, s, s', b);
    }
  }

  lemma ReleasedBalanced(cfg: Config, s: State)
    requires cfg.Valid() && Conserved(cfg, s) && s.virt.VTook?
    ensures s.refs[s.virt.buf] > 0
    ensures Balanced(cfg, ApplyVirt(cfg, s, VirtRelease), s.virt.buf)
  {
    var s' := ApplyVirt(cfg, s, VirtRelease);
    var b, c0 := s.virt.buf, s.virt.client;
    assert Balanced(cfg, s, b);
    HolderMeans(cfg, s, c0, b);
    forall c: nat | c < |cfg.macs|
      ensures ClientSide(s', c, b) == if c == c0 then 0 else ClientSide(s, c, b)
    {
    }
    assert Holders(cfg, s', b) == Holders(cfg, s, b) - {c0};
  }

  /**
   Giving up a client's share lowers the count by one, and the last share brings the buffer back to the driver side.
   */
  lemma ReleaseConserves(cfg: Config, s: State)
    requires cfg.Valid() && Conserved(cfg, s) && s.virt.VTook?
    ensures Conserved(cfg, ApplyVirt(cfg, s, VirtRelease))
  {
    ReleasedBalanced(cfg, s);
    forall b: nat | b < cfg.numBuffers && b != s.virt.buf
      ensures Balanced(cfg, ApplyVirt(cfg, s, VirtRelease), b)
    {
      SameHolders(cfg, s, ApplyVirt(cfg, s, VirtRelease), b);
    }
  }

  lemma StepConserves(cfg: Config, s: State, step: Step)
    requires cfg.Valid() && Conserved(cfg, s) && Enabled(cfg, s, step)
    ensures Conserved(cfg, Apply(cfg, s, step))
  {
    if IsDriverStep(step) {
      DriverConserves(cfg, s, step);
    } else if step.VirtRoute? {
      RouteConserves(cfg, s);
    } else if step.VirtRelease? {
      ReleaseConserves(cfg, s);
    } else if step.VirtTakeActive? || step.VirtGive? {
      DriverMoveConserves(cfg, s, step);
    } else if step.VirtPut? {
      PutConserves(cfg, s);
    } else if step.VirtTakeFree? {
      TakeBackConserves(cfg, s, step.client);
    } else {
      CopyConserves(cfg, s, step);
    }
  }

  lemma InitConserved(cfg: Config, mem: seq<Packet>)
    requires cfg.Valid() && |mem| == cfg.numBuffers
    ensures Conserved(cfg, Init(cfg, mem))
  {
    var s := Init(cfg, mem);
    forall b: nat | b < cfg.numBuffers
      ensures Balanced(cfg, s, b)
    {
      TallyIdentity(cfg.numBuffers, b);
      assert Holders(cfg, s, b) == {};
    }
  }

  /** A driver-side queue has room for a buffer that is on the driver side but not in that queue. */
  lemma DriverRoom(cfg: Config, s: State, q: seq<nat>, b: nat)
    requires cfg.Valid() && Conserved(cfg, s) && b < cfg.numBuffers
    requires q == s.drvFree || q == s.drvActive
    requires Tally(q, b) < DriverSide(s, b)
    ensures |q| < cfg.queueCapacity
  {
    forall x: nat | x < cfg.numBuffers
      ensures Tally(q, x) <= 1
    {
      assert Balanced(cfg, s, x);
    }
    assert Balanced(cfg, s, b);
    DistinctIsShort(q, cfg.numBuffers, b);
  }

  /** A client-side queue has room for a buffer that is on that client's side but not in that queue. */
  lemma ClientRoom(cfg: Config, s: State, c: nat, q: seq<nat>, b: nat)
    requires cfg.Valid() && Conserved(cfg, s) && b < cfg.numBuffers && c < |cfg.macs|
    requires q == s.cliActive[c] || q == s.cliFree[c]
    requires Tally(q, b) < ClientSide(s, c, b)
    ensures |q| < cfg.queueCapacity
  {
    forall x: nat | x < cfg.numBuffers
      ensures Tally(q, x) <= 1
    {
      assert Balanced(cfg, s, x) && ClientSide(s, c, x) <= 1;
    }
    assert Balanced(cfg, s, b) && ClientSide(s, c, b) <= 1;
    DistinctIsShort(q, cfg.numBuffers, b);
  }

  /**
   No assertion of the driver, the virtualiser or a copier can fail in a conserved state, except for a packet to a
   client that lets more buffers circulate than its queues hold.
   */
  lemma ConservedIsSafe(cfg: Config, s: State, step: Step)
    requires cfg.Valid() && Conserved(cfg, s) && Enabled(cfg, s, step)
    requires step.CopyDeliver? ==> Circulating(s, step.client) <= cfg.limits[step.client].capacity
    ensures AssertsHold(cfg, s, step)
  {
    match step {
      case DrvReturn =>
        TallyPop(s.w.ringDone);
        DriverRoom(cfg, s, s.drvActive, s.w.ringDone[0]);
      case VirtRoute =>
        assert Balanced(cfg, s, s.virt.buf);
      case VirtPut =>
        var c := if s.virt.VDistribute? then s.virt.next else s.virt.client;
        ClientRoom(cfg, s, c, s.cliActive[c], s.virt.buf);
      case VirtGive =>
        DriverRoom(cfg, s, s.drvFree, s.virt.buf);
      case VirtRelease =>
        ReleasedBalanced(cfg, s);
      case CopyReturn(c) =>
        ClientRoom(cfg, s, c, s.cliFree[c], s.w.copiers[c].buf);
      case _ =>
    }
  }

  lemma {:induction false} RunConserves(cfg: Config, s: State, steps: seq<Step>)
    requires cfg.Valid() && Conserved(cfg, s)
    ensures Conserved(cfg, Run(cfg, s, steps))
  {
    if steps != [] {
      RunConserves(cfg, s, steps[..|steps| - 1]);
      var before := Run(cfg, s, steps[..|steps| - 1]);
      if Enabled(cfg, before, steps[|steps| - 1]) {
        StepConserves(cfg, before, steps[|steps| - 1]);
      }
    }
  }

  lemma {:induction false} RunAppend(cfg: Config, s: State, first: seq<Step>, second: seq<Step>)
    requires cfg.Valid()
    ensures Run(cfg, s, first + second) == Run(cfg, Run(cfg, s, first), second)
  {
    if second == [] {
      assert first + second == first;
    } else {
      var init, last := second[..|second| - 1], second[|second| - 1];
      RunAppend(cfg, s, first, init);
      SameLast(cfg, s, first + init, Run(cfg, s, first), init, last);
      assert first + second == (first + init) + [last] && second == init + [last];
    }
  }

  lemma RunLast(cfg: Config, s: State, steps: seq<Step>, step: Step)
    requires cfg.Valid()
    ensures Run(cfg, s, steps + [step]) == Next(cfg, Run(cfg, s, steps), step)
  {
    assert (steps + [step])[..|steps|] == steps;
  }

  lemma SameLast(cfg: Config, s: State, a: seq<Step>, t: State, b: seq<Step>, step: Step)
    requires cfg.Valid() && Run(cfg, s, a) == Run(cfg, t, b)
    ensures Run(cfg, s, a + [step]) == Run(cfg, t, b + [step])
  {
    assert (a + [step])[..|a|] == a && (b + [step])[..|b|] == b;
  }

  // ---- Order and contents -----------------------------------------------------------------

  /** What the buffers of a queue hold, in queue order. */
  function Contents(mem: seq<Packet>, q: seq<nat>): seq<Packet>
    requires Below(q, |mem|)
  {
    seq(|q|, i requires 0 <= i < |q| => mem[q[i]])
  }

  lemma ContentsPush(mem: seq<Packet>, q: seq<nat>, b: nat)
    requires Below(q, |mem|) && b < |mem|
    ensures Contents(mem, q + [b]) == Contents(mem, q) + [mem[b]]
  {
  }

  lemma ContentsPop(mem: seq<Packet>, q: seq<nat>)
    requires Below(q, |mem|) && q != []
    ensures Below(q[1..], |mem|) && Contents(mem, q) == [mem[q[0]]] + Contents(mem, q[1..])
  {
  }

  lemma ContentsStore(mem: seq<Packet>, q: seq<nat>, b: nat, p: Packet)
    requires Below(q, |mem|) && b < |mem| && Tally(q, b) == 0
    ensures Contents(mem[b := p], q) == Contents(mem, q)
  {
    assert b !in multiset(q);
  }

  /** The packet the virtualiser has taken but not routed. */
  function InHand(cfg: Config, s: State): seq<Packet>
    requires Shaped(cfg, s)
  {
    if s.virt.VGot? then [s.w.mem[s.virt.buf]] else []
  }

  /** The packet the virtualiser has routed to client c but not yet enqueued for it. */
  function Promised(cfg: Config, s: State, c: nat): seq<Packet>
    requires Shaped(cfg, s)
  {
    if (s.virt.VDeliver? && s.virt.client == c) || (s.virt.VDistribute? && s.virt.next <= c) then [s.w.mem[s.virt.buf]]
        else []
  }

  /** The packet client c's copier is about to copy. */
  function AtCopier(cfg: Config, s: State, c: nat): seq<Packet>
    requires Shaped(cfg, s) && c < |cfg.macs|
  {
    if s.w.copiers[c].CFull? then [s.w.mem[s.w.copiers[c].buf]] else []
  }

  /** The packets received and not yet routed, in order. */
  function Unrouted(cfg: Config, s: State): seq<Packet>
    requires Shaped(cfg, s)
  {
    InHand(cfg, s) + Contents(s.w.mem, s.drvActive) + Contents(s.w.mem, s.w.ringDone)
  }

  /** The packets routed to client c and not yet taken by its copier, in order. */
  function Untaken(cfg: Config, s: State, c: nat): seq<Packet>
    requires Shaped(cfg, s) && c < |cfg.macs|
  {
    Contents(s.w.mem, s.cliActive[c]) + Promised(cfg, s, c)
  }

  /** Everything received is routed, in hand, or waiting, in the order it came off the wire. */
  predicate WireOrdered(cfg: Config, s: State)
    requires Shaped(cfg, s)
  {
    s.w.wire == s.w.seen + Unrouted(cfg, s)
  }

  /**
   Everything routed to c is taken by its copier, waiting or promised, in order; what was copied is a subsequence of
   what was taken.
   */
  predicate ClientOrdered(cfg: Config, s: State, c: nat)
    requires Shaped(cfg, s) && c < |cfg.macs|
  {
    && ForClient(cfg.macs, c, s.w.seen) == s.w.taken[c] + Untaken(cfg, s, c)
    && IsSubsequence(s.w.delivered[c] + AtCopier(cfg, s, c), s.w.taken[c])
  }

  predicate Ordered(cfg: Config, s: State)
    requires Shaped(cfg, s)
  {
    WireOrdered(cfg, s) && forall c: nat :: c < |cfg.macs| ==> ClientOrdered(cfg, s, c)
  }

  lemma ClientOrderFrame(cfg: Config, s: State, s': State, c: nat)
    requires Shaped(cfg, s) && Shaped(cfg, s') && c < |cfg.macs| && ClientOrdered(cfg, s, c)
    requires s'.w.seen == s.w.seen && s'.w.mem == s.w.mem && s'.cliActive[c] == s.cliActive[c]
    requires s'.w.taken[c] == s.w.taken[c] && s'.w.delivered[c] == s.w.delivered[c] && s'.w.copiers[c] == s.w.copiers[c]
    requires Promised(cfg, s', c) == Promised(cfg, s, c)
    ensures ClientOrdered(cfg, s', c)
  {
  }

  /** The device writes only to a buffer that no queue entry still waiting to be read refers to. */
  lemma ReceiveKeepsOrder(cfg: Config, s: State, p: Packet)
    requires cfg.Valid() && Conserved(cfg, s) && Ordered(cfg, s) && s.w.ringPend != []
    ensures Ordered(cfg, ApplyDriver(cfg, s, DevReceive(p)))
  {
    var s' := ApplyDriver(cfg, s, DevReceive(p));
    var b := s.w.ringPend[0];
    TallyPop(s.w.ringPend);
    NobodyHolds(cfg, s, b);
    ContentsStore(s.w.mem, s.drvActive, b, p);
    ContentsStore(s.w.mem, s.w.ringDone, b, p);
    ContentsPush(s'.w.mem, s.w.ringDone, b);
    forall c: nat | c < |cfg.macs|
      ensures ClientOrdered(cfg, s', c)
    {
      assert ClientOrdered(cfg, s, c) && ClientSide(s, c, b) == 0;
      ContentsStore(s.w.mem, s.cliActive[c], b, p);
    }
  }

  lemma DriverKeepsOrder(cfg: Config, s: State, step: Step)
    requires cfg.Valid() && Conserved(cfg, s) && Ordered(cfg, s) && IsDriverStep(step) && Enabled(cfg, s, step)
    ensures Ordered(cfg, ApplyDriver(cfg, s, step))
  {
    var s' := ApplyDriver(cfg, s, step);
    if step.DevReceive? {
      ReceiveKeepsOrder(cfg, s, step.packet);
    } else {
      if step.DrvReturn? {
        ContentsPop(s.w.mem, s.w.ringDone);
        ContentsPush(s.w.mem, s.drvActive, s.w.ringDone[0]);
      }
      forall c: nat | c < |cfg.macs|
        ensures ClientOrdered(cfg, s', c)
      {
        ClientOrderFrame(cfg, s, s', c);
      }
    }
  }

  lemma RouteKeepsOrder(cfg: Config, s: State, c: nat)
    requires cfg.Valid() && Shaped(cfg, s) && s.virt.VGot? && c < |cfg.macs| && ClientOrdered(cfg, s, c)
    ensures ClientOrdered(cfg, ApplyVirt(cfg, s, VirtRoute), c)
  {
    var s', p := ApplyVirt(cfg, s, VirtRoute), s.w.mem[s.virt.buf];
    ForClientPush(cfg.macs, c, s.w.seen, p);
    assert s'.w == s.w.(seen := s.w.seen + [p]) && s'.cliActive == s.cliActive;
    assert Untaken(cfg, s', c) == Untaken(cfg, s, c) + if Addressed(cfg.macs, p.dest, c) then [p] else [];
    AppendAssociates(s.w.taken[c], Untaken(cfg, s, c), if Addressed(cfg.macs, p.dest, c) then [p] else []);
    assert AtCopier(cfg, s', c) == AtCopier(cfg, s, c);
  }

  lemma PutKeepsOrder(cfg: Config, s: State, c: nat)
    requires cfg.Valid() && Shaped(cfg, s) && Enabled(cfg, s, VirtPut) && c < |cfg.macs| && ClientOrdered(cfg, s, c)
    ensures ClientOrdered(cfg, ApplyVirt(cfg, s, VirtPut), c)
  {
    ContentsPush(s.w.mem, s.cliActive[c], s.virt.buf);
  }

  lemma RouteKeepsWireOrder(cfg: Config, s: State)
    requires cfg.Valid() && Shaped(cfg, s) && WireOrdered(cfg, s) && s.virt.VGot?
    ensures WireOrdered(cfg, ApplyVirt(cfg, s, VirtRoute))
  {
    var s', p := ApplyVirt(cfg, s, VirtRoute), s.w.mem[s.virt.buf];
    assert s'.w.seen == s.w.seen + [p] && InHand(cfg, s) == [p] && InHand(cfg, s') == [];
    assert Unrouted(cfg, s) == [p] + Unrouted(cfg, s');
    AppendAssociates(s.w.seen, [p], Unrouted(cfg, s'));
  }

  lemma VirtKeepsWireOrder(cfg: Config, s: State, step: Step)
    requires cfg.Valid() && Shaped(cfg, s) && WireOrdered(cfg, s) && IsVirtStep(step) && Enabled(cfg, s, step)
    ensures WireOrdered(cfg, ApplyVirt(cfg, s, step))
  {
    if step.VirtRoute? {
      RouteKeepsWireOrder(cfg, s);
    } else {
      if step.VirtTakeActive? {
        ContentsPop(s.w.mem, s.drvActive);
      }
      assert Unrouted(cfg, ApplyVirt(cfg, s, step)) == Unrouted(cfg, s);
    }
  }

  lemma VirtKeepsOrder(cfg: Config, s: State, step: Step)
    requires cfg.Valid() && Shaped(cfg, s) && Ordered(cfg, s) && IsVirtStep(step) && Enabled(cfg, s, step)
    ensures Ordered(cfg, ApplyVirt(cfg, s, step))
  {
    var s' := ApplyVirt(cfg, s, step);
    VirtKeepsWireOrder(cfg, s, step);
    forall c: nat | c < |cfg.macs|
      ensures ClientOrdered(cfg, s', c)
    {
      assert ClientOrdered(cfg, s, c);
      if step.VirtRoute? {
        RouteKeepsOrder(cfg, s, c);
      } else if step.VirtPut? {
        PutKeepsOrder(cfg, s, c);
      } else {
        ClientOrderFrame(cfg, s, s', c);
      }
    }
  }

  lemma TakeMoves(cfg: Config, s: State, c: nat)
    requires cfg.Valid() && Shaped(cfg, s) && c < |cfg.macs| && Enabled(cfg, s, CopyTakeActive(c))
    ensures var s', p := ApplyCopy(cfg, s, CopyTakeActive(c)), s.w.mem[s.cliActive[c][0]];
            && Untaken(cfg, s, c) == [p] + Untaken(cfg, s', c) && s'.w.taken[c] == s.w.taken[c] + [p]
            && s'.w.seen == s.w.seen && AtCopier(cfg, s, c) == []
            && s'.w.delivered[c] == s.w.delivered[c]
            && AtCopier(cfg, s', c) == if s.w.copiers[c] == CHasRoom then [p] else []
  {
    ContentsPop(s.w.mem, s.cliActive[c]);
  }

  lemma TakeKeepsOrder(cfg: Config, s: State, c: nat)
    requires cfg.Valid() && Shaped(cfg, s) && c < |cfg.macs| && ClientOrdered(cfg, s, c)
             && Enabled(cfg, s, CopyTakeActive(c))
    ensures ClientOrdered(cfg, ApplyCopy(cfg, s, CopyTakeActive(c)), c)
  {
    var s', p := ApplyCopy(cfg, s, CopyTakeActive(c)), s.w.mem[s.cliActive[c][0]];
    var taken, delivered := s.w.taken[c], s.w.delivered[c];
    TakeMoves(cfg, s, c);
    AppendAssociates(taken, [p], Untaken(cfg, s', c));
    assert delivered + [] == delivered;
    SubsequenceSkip(delivered, taken, p);
    SubsequenceKeep(delivered, taken, p);
  }

  lemma CopyKeepsClientOrder(cfg: Config, s: State, step: Step, c: nat)
    requires cfg.Valid() && Shaped(cfg, s) && c < |cfg.macs| && ClientOrdered(cfg, s, c)
    requires !IsDriverStep(step) && !IsVirtStep(step) && step.client == c && Enabled(cfg, s, step)
    ensures ClientOrdered(cfg, ApplyCopy(cfg, s, step), c)
  {
    if step.CopyTakeActive? {
      TakeKeepsOrder(cfg, s, c);
    } else {
      var s' := ApplyCopy(cfg, s, step);
      assert s'.w.delivered[c] + AtCopier(cfg, s', c) == s.w.delivered[c] + AtCopier(cfg, s, c);
    }
  }

  lemma CopyKeepsOrder(cfg: Config, s: State, step: Step)
    requires cfg.Valid() && Shaped(cfg, s) && Ordered(cfg, s)
    requires !IsDriverStep(step) && !IsVirtStep(step) && Enabled(cfg, s, step)
    ensures Ordered(cfg, ApplyCopy(cfg, s, step))
  {
    var s' := ApplyCopy(cfg, s, step);
    forall c: nat | c < |cfg.macs|
      ensures ClientOrdered(cfg, s', c)
    {
      assert ClientOrdered(cfg, s, c);
      if step.client == c {
        CopyKeepsClientOrder(cfg, s, step, c);
      } else {
        ClientOrderFrame(cfg, s, s', c);
      }
    }
  }

  lemma StepKeepsOrder(cfg: Config, s: State, step: Step)
    requires cfg.Valid() && Conserved(cfg, s) && Ordered(cfg, s) && Enabled(cfg, s, step)
    ensures Ordered(cfg, Apply(cfg, s, step))
  {
    if IsDriverStep(step) {
      DriverKeepsOrder(cfg, s, step);
    } else if IsVirtStep(step) {
      VirtKeepsOrder(cfg, s, step);
    } else {
      CopyKeepsOrder(cfg, s, step);
    }
  }

  lemma {:induction false} RunKeepsOrder(cfg: Config, s: State, steps: seq<Step>)
    requires cfg.Valid() && Conserved(cfg, s) && Ordered(cfg, s)
    ensures Conserved(cfg, Run(cfg, s, steps)) && Ordered(cfg, Run(cfg, s, steps))
  {
    if steps != [] {
      var init := steps[..|steps| - 1];
      RunKeepsOrder(cfg, s, init);
      if Enabled(cfg, Run(cfg, s, init), steps[|steps| - 1]) {
        StepConserves(cfg, Run(cfg, s, init), steps[|steps| - 1]);
        StepKeepsOrder(cfg, Run(cfg, s, init), steps[|steps| - 1]);
      }
    }
  }

  // ---- Main results -----------------------------------------------------------------------

  /** Buffer b is with client c: in one of its two queues or in its copier's hands. */
  predicate With(cfg: Config, s: State, c: nat, b: nat)
    requires Shaped(cfg, s) && c < |cfg.macs|
  {
    b in s.cliActive[c] || b in s.cliFree[c] || s.w.copiers[c] == CFull(b) || s.w.copiers[c] == CReturn(b)
  }

  function ClientsWith(cfg: Config, s: State, b: nat): set<nat>
    requires Shaped(cfg, s)
  {
    set c: nat | c in Range(|cfg.macs|) && With(cfg, s, c, b)
  }

  // ---- The clients' own buffers -------------------------------------------------------------

  /** No more buffers of client c circulate than it lets, or than there were at first. */
  predicate Bounded(cfg: Config, s: State, c: nat)
    requires Shaped(cfg, s) && c < |cfg.macs|
  {
    Circulating(s, c) <= cfg.limits[c].circulation || Circulating(s, c) <= cfg.limits[c].capacity
  }

  lemma StepKeepsBound(cfg: Config, s: State, step: Step, c: nat)
    requires cfg.Valid() && Shaped(cfg, s) && Enabled(cfg, s, step) && c < |cfg.macs| && Bounded(cfg, s, c)
    ensures Bounded(cfg, Apply(cfg, s, step), c)
  {
  }

  lemma {:induction false} RunKeepsBound(cfg: Config, s: State, steps: seq<Step>, c: nat)
    requires cfg.Valid() && Shaped(cfg, s) && c < |cfg.macs| && Bounded(cfg, s, c)
    ensures Shaped(cfg, Run(cfg, s, steps)) && Bounded(cfg, Run(cfg, s, steps), c)
  {
    if steps != [] {
      var init := steps[..|steps| - 1];
      RunKeepsBound(cfg, s, init, c);
      if Enabled(cfg, Run(cfg, s, init), steps[|steps| - 1]) {
        StepKeepsBound(cfg, Run(cfg, s, init), steps[|steps| - 1], c);
      }
    }
  }

  predicate IsReachable(cfg: Config, mem: seq<Packet>, steps: seq<Step>, s: State)
  {
    cfg.Valid() && |mem| == cfg.numBuffers && Shaped(cfg, s) && s == Run(cfg, Init(cfg, mem), steps)
  }

  lemma ReachableIsConserved(cfg: Config, mem: seq<Packet>, steps: seq<Step>, s: State)
    requires IsReachable(cfg, mem, steps, s)
    ensures Conserved(cfg, s) && Ordered(cfg, s)
  {
    InitConserved(cfg, mem);
    RunKeepsOrder(cfg, Init(cfg, mem), steps);
  }

  /**
   In every reachable state, whatever the interleaving, each step that can be taken next meets all its assertions; for a
   packet to a client, if the client lets no more buffers circulate than its queues hold.
   */
  lemma NoAssertFails(cfg: Config, mem: seq<Packet>, steps: seq<Step>, s: State, next: Step)
    requires IsReachable(cfg, mem, steps, s) && Enabled(cfg, s, next)
    requires next.CopyDeliver? ==> cfg.limits[next.client].circulation <= cfg.limits[next.client].capacity
    ensures AssertsHold(cfg, s, next)
  {
    ReachableIsConserved(cfg, mem, steps, s);
    if next.CopyDeliver? {
      RunKeepsBound(cfg, Init(cfg, mem), steps, next.client);
    }
    ConservedIsSafe(cfg, s, next);
  }

  lemma WithMeans(cfg: Config, s: State, c: nat, b: nat)
    requires Shaped(cfg, s) && c < |cfg.macs| && s.virt == VIdle
    ensures With(cfg, s, c, b) <==> ClientSide(s, c, b) > 0
  {
    assert b in s.cliActive[c] <==> b in multiset(s.cliActive[c]);
    assert b in s.cliFree[c] <==> b in multiset(s.cliFree[c]);
  }

  /**
   In every reachable state in which the virtualiser is between buffers, the reference count of a buffer is
   the number of clients that have it, each has it once, and the buffer is on the driver side, once, exactly
   when that number is zero.
   */
  lemma RefsCountHolders(cfg: Config, mem: seq<Packet>, steps: seq<Step>, s: State, b: nat)
    requires IsReachable(cfg, mem, steps, s) && s.virt == VIdle && b < cfg.numBuffers
    ensures s.refs[b] == |ClientsWith(cfg, s, b)|
    ensures Tally(s.drvFree, b) + Tally(s.w.ringPend, b) + Tally(s.w.ringDone, b) + Tally(s.drvActive, b)
            + One(s.w.drv == DTook(b)) == One(ClientsWith(cfg, s, b) == {})
    ensures forall c: nat :: c < |cfg.macs| ==>
              Tally(s.cliActive[c], b) + Tally(s.cliFree[c], b)
              + One(s.w.copiers[c] == CFull(b) || s.w.copiers[c] == CReturn(b)) == One(c in ClientsWith(cfg, s, b))
  {
    ReachableIsConserved(cfg, mem, steps, s);
    assert Balanced(cfg, s, b);
    forall c: nat | c < |cfg.macs|
      ensures With(cfg, s, c, b) <==> ClientSide(s, c, b) > 0
      ensures ClientSide(s, c, b) <= 1
    {
      WithMeans(cfg, s, c, b);
    }
    assert ClientsWith(cfg, s, b) == Holders(cfg, s, b);
  }

  lemma PrefixForClient(macs: seq<Mac>, c: nat, seen: seq<Packet>, later: seq<Packet>, taken: seq<Packet>,
                        waiting: seq<Packet>)
    requires ForClient(macs, c, seen) == taken + waiting
    ensures ForClient(macs, c, seen + later) == taken + (waiting + ForClient(macs, c, later))
  {
    ForClientAppend(macs, c, seen, later);
  }

  /**
   Whatever the interleaving, the packets copied to a client are, in order, some of those that came off the wire for it.
   */
  lemma DeliveredInOrder(cfg: Config, mem: seq<Packet>, steps: seq<Step>, s: State, c: nat)
    requires IsReachable(cfg, mem, steps, s) && c < |cfg.macs|
    ensures IsSubsequence(s.w.delivered[c], ForClient(cfg.macs, c, s.w.wire))
  {
    ReachableIsConserved(cfg, mem, steps, s);
    assert ClientOrdered(cfg, s, c);
    SubsequenceDropTail(s.w.delivered[c], AtCopier(cfg, s, c), s.w.taken[c]);
    PrefixForClient(cfg.macs, c, s.w.seen, Unrouted(cfg, s), s.w.taken[c], Untaken(cfg, s, c));
    SubsequenceExtend(s.w.delivered[c], s.w.taken[c], Untaken(cfg, s, c) + ForClient(cfg.macs, c, Unrouted(cfg, s)));
  }
}
