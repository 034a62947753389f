/**
 The copier between the receive virtualiser and one client (rx_return in copy.c), as code over shared queues. Everybody
 else may act between any two queue operations: a schedule says what the driver, the device, the virtualiser, the other
 copiers and the clients do at each such point. Every state the copier passes through is a reachable state of NetRx.
 */
module NetCopy {
  import opened NetCopyState
  import opened NetOffsets
  import opened NetRoute
  import opened NetRx
  import opened Sequences

  /** The check on a buffer the client offers: aligned and inside the client's region. */
  predicate Usable(d: Desc, capacity: nat)
  {
    d.offset % NET_BUFFER_SIZE == 0 && d.offset < NET_BUFFER_SIZE * capacity
  }

  /** The buffers of a free queue that pass the check, in order. */
  function UsableOf(free: seq<Desc>, capacity: nat): (r: seq<Desc>)
    ensures |r| <= |free|
    ensures forall i :: 0 <= i < |r| ==> Usable(r[i], capacity)
  {
    if free == [] then []
    else (if Usable(free[0], capacity) then [free[0]] else []) + UsableOf(free[1..], capacity)
  }

  /** It is that of one of the client's buffers. */
  lemma UsableExactly(d: Desc, capacity: nat)
    ensures Usable(d, capacity) <==> IsBuffer(capacity, d.offset)
  {
    IsBufferExactly(capacity, d.offset);
  }

  function Min(a: nat, b: nat): nat
  {
    if a < b then a else b
  }

  /** The first packets go, in order, to the usable client buffers, in order; packets beyond those are dropped. */
  function Copies(packets: seq<Packet>, free: seq<Desc>, capacity: nat): (r: seq<Copy>)
    ensures |r| == Min(|packets|, |UsableOf(free, capacity)|)
  {
    var usable := UsableOf(free, capacity);
    seq(Min(|packets|, |usable|), i requires 0 <= i < Min(|packets|, |usable|) =>
        Copy(usable[i].offset / NET_BUFFER_SIZE, packets[i]))
  }

  /** Each goes to the buffer its descriptor names. */
  lemma CopiedTo(packets: seq<Packet>, free: seq<Desc>, capacity: nat, i: nat)
    requires i < |Copies(packets, free, capacity)|
    ensures var c := Copies(packets, free, capacity)[i];
            c.to < capacity && BufferAt(c.to) == UsableOf(free, capacity)[i].offset && c.packet == packets[i]
  {
    var d := UsableOf(free, capacity)[i];
    assert Usable(d, capacity);
  }

  function Offsets(q: seq<Desc>): (r: seq<nat>)
    ensures |r| == |q| && forall i :: 0 <= i < |q| ==> r[i] == q[i].offset
  {
    seq(|q|, i requires 0 <= i < |q| => q[i].offset)
  }

  lemma CopiesSkip(packets: seq<Packet>, free: seq<Desc>, capacity: nat)
    requires free != [] && !Usable(free[0], capacity)
    ensures Copies(packets, free, capacity) == Copies(packets, free[1..], capacity)
  {
  }

  lemma CopiesTake(packets: seq<Packet>, free: seq<Desc>, capacity: nat)
    requires free != [] && Usable(free[0], capacity) && packets != []
    ensures Copies(packets, free, capacity)
            == [Copy(free[0].offset / NET_BUFFER_SIZE, packets[0])] + Copies(packets[1..], free[1..], capacity)
  {
  }

  // ---- The copier's steps -----------------------------------------------------------------------

  function Stepped(cfg: Config, h: Here, step: Step, q: Queues): Here
    requires cfg.Valid()
  {
    h.(trace := h.trace + [step], s := Next(cfg, h.s, step), q := q)
  }

  lemma StepReaches(cfg: Config, mem0: seq<Packet>, me: nat, h: Here, step: Step)
    requires cfg.Valid() && InvBody(cfg, mem0, me, h) && Enabled(cfg, h.s, step)
    ensures IsReachable(cfg, mem0, h.trace + [step], Next(cfg, h.s, step))
            && Next(cfg, h.s, step) == Apply(cfg, h.s, step)
  {
    RunLast(cfg, Init(cfg, mem0), h.trace, step);
  }

  lemma Aligned(b: nat)
    ensures NET_BUFFER_SIZE * b / NET_BUFFER_SIZE == b
  {
  }

  /** A buffer the client offers is taken: to be used, or to be dropped. */
  lemma OfferStep(cfg: Config, mem0: seq<Packet>, me: nat, h: Here, use: bool)
    requires cfg.Valid() && Inv(cfg, mem0, me, h) && Pc(h.s, me) == CIdle && h.q.cliFree != []
    ensures var h' := Stepped(cfg, h, if use then CopyTakeRoom(me)
              else CopySkip(me), h.q.(cliFree := h.q.cliFree[1..]));
            && Inv(cfg, mem0, me, h') && Pc(h'.s, me) == (if use then CHasRoom else CIdle)
            && TakenBy(h'.s, me) == TakenBy(h.s, me) && WaitingFor(h'.s, me) == WaitingFor(h.s, me)
  {
    var step := if use then CopyTakeRoom(me) else CopySkip(me);
    InvMeans(cfg, mem0, me, h);
    StepReaches(cfg, mem0, me, h, step);
    InvMeans(cfg, mem0, me, Stepped(cfg, h, step, h.q.(cliFree := h.q.cliFree[1..])));
  }

  lemma NoRoomStep(cfg: Config, mem0: seq<Packet>, me: nat, h: Here)
    requires cfg.Valid() && Inv(cfg, mem0, me, h) && Pc(h.s, me) == CIdle && h.q.cliFree == []
    ensures var h' := Stepped(cfg, h, CopyFindNoRoom(me), h.q);
            && Inv(cfg, mem0, me, h') && Pc(h'.s, me) == CNoRoom
            && TakenBy(h'.s, me) == TakenBy(h.s, me) && WaitingFor(h'.s, me) == WaitingFor(h.s, me)
  {
    InvMeans(cfg, mem0, me, h);
    StepReaches(cfg, mem0, me, h, CopyFindNoRoom(me));
    InvMeans(cfg, mem0, me, Stepped(cfg, h, CopyFindNoRoom(me), h.q));
  }

  lemma TakeKeeps(cfg: Config, mem0: seq<Packet>, me: nat, h: Here)
    requires cfg.Valid() && Inv(cfg, mem0, me, h) && h.q.virtActive != []
    requires Pc(h.s, me) == CHasRoom || Pc(h.s, me) == CNoRoom
    ensures Inv(cfg, mem0, me, Stepped(cfg, h, CopyTakeActive(me), h.q.(virtActive := h.q.virtActive[1..])))
  {
    InvMeans(cfg, mem0, me, h);
    StepReaches(cfg, mem0, me, h, CopyTakeActive(me));
    MatchesTake(cfg, me, h.s, h.q, h.device);
    InvMeans(cfg, mem0, me, Stepped(cfg, h, CopyTakeActive(me), h.q.(virtActive := h.q.virtActive[1..])));
  }

  /** The oldest packet is taken, to be copied or to be dropped. */
  lemma TakeStep(cfg: Config, mem0: seq<Packet>, me: nat, h: Here) returns (b: nat, p: Packet)
    requires cfg.Valid() && Inv(cfg, mem0, me, h) && h.q.virtActive != []
    requires Pc(h.s, me) == CHasRoom || Pc(h.s, me) == CNoRoom
    ensures var h' := Stepped(cfg, h, CopyTakeActive(me), h.q.(virtActive := h.q.virtActive[1..]));
            && Inv(cfg, mem0, me, h') && h.q.virtActive[0] == Desc(NET_BUFFER_SIZE * b, |Bytes(p)|)
            && Pc(h'.s, me) == (if Pc(h.s, me) == CHasRoom then CFull(b) else CReturn(b))
            && (Pc(h.s, me) == CHasRoom ==> InHands(h'.s, me) == [p])
            && TakenBy(h'.s, me) == TakenBy(h.s, me) + [p] && WaitingFor(h.s, me) == [p] + WaitingFor(h'.s, me)
  {
    InvMeans(cfg, mem0, me, h);
    StepReaches(cfg, mem0, me, h, CopyTakeActive(me));
    b, p := h.s.cliActive[me][0], h.s.w.mem[h.s.cliActive[me][0]];
    TakeKeeps(cfg, mem0, me, h);
    TakenPacket(cfg, me, h.s, h.q, h.device);
  }

  /** The packet in hand is in the device's buffer, and fits the client's. */
  lemma InHandsFits(cfg: Config, mem0: seq<Packet>, me: nat, h: Here, b: nat, p: Packet)
    requires Inv(cfg, mem0, me, h) && Pc(h.s, me) == CFull(b) && InHands(h.s, me) == [p]
    ensures me < |cfg.limits| && b < |h.device| && |h.client| == cfg.limits[me].capacity && FitsBuffer(p)
    ensures Bytes(p) <= h.device[b] && Cut(h.client)
  {
    InvMeans(cfg, mem0, me, h);
  }

  lemma LogPush(cap: nat, delivered: seq<Packet>, cliActive: seq<Desc>, client: seq<seq<nat>>, log: seq<Copy>,
                k: nat, p: Packet, src: seq<nat>)
    requires Logged(cap, delivered, cliActive, client, log) && k < cap && FitsBuffer(p) && Bytes(p) <= src
    ensures Logged(cap, delivered + [p], cliActive + [Announcement(Copy(k, p))],
                   client[k := CopyBytes(client[k], src, |Bytes(p)|)], log + [Copy(k, p)])
  {
    CopyStands(client, log, k, p, src);
    assert PacketsOf(log + [Copy(k, p)]) == PacketsOf(log) + [p];
    assert Announced(log + [Copy(k, p)]) == Announced(log) + [Announcement(Copy(k, p))];
  }

  /** The packet goes to a buffer of the client, and is announced. */
  lemma DeliverStep(cfg: Config, mem0: seq<Packet>, me: nat, h: Here, b: nat, p: Packet, k: nat, d: Desc,
                    client: seq<seq<nat>>)
    requires cfg.Valid() && Inv(cfg, mem0, me, h) && Pc(h.s, me) == CFull(b) && InHands(h.s, me) == [p]
    requires b < |h.device| && k < |h.client| && |Bytes(p)| <= |h.client[k]| && |Bytes(p)| <= |h.device[b]|
    requires d == Announcement(Copy(k, p)) && client == h.client[k := CopyBytes(h.client[k], h.device[b], |Bytes(p)|)]
    ensures var q := h.q.(cliActive := h.q.cliActive + [d]);
            var h' := Stepped(cfg, h, CopyDeliver(me), q).(client := client, log := h.log + [Copy(k, p)]);
            && Inv(cfg, mem0, me, h') && Pc(h'.s, me) == CReturn(b)
            && TakenBy(h'.s, me) == TakenBy(h.s, me) && WaitingFor(h'.s, me) == WaitingFor(h.s, me)
  {
    InvMeans(cfg, mem0, me, h);
    StepReaches(cfg, mem0, me, h, CopyDeliver(me));
    LogPush(cfg.limits[me].capacity, h.s.w.delivered[me], h.q.cliActive, h.client, h.log, k, p, h.device[b]);
    var q := h.q.(cliActive := h.q.cliActive + [d]);
    InvMeans(cfg, mem0, me, Stepped(cfg, h, CopyDeliver(me), q).(client := client, log := h.log + [Copy(k, p)]));
  }

  /** sddf_memcpy of the packet in hand. */
  method CopyPacket(cfg: Config, ghost mem0: seq<Packet>, me: nat, ghost h: Here, cli: Desc, virt: Desc,
                    sys: State, client: seq<seq<nat>>, device: seq<seq<nat>>, ghost p: Packet)
    returns (s': State, client': seq<seq<nat>>)
    requires cfg.Valid() && Inv(cfg, mem0, me, h) && h.client == client && h.device == device && h.s == sys
    requires me < |cfg.limits| && Usable(cli, cfg.limits[me].capacity)
    requires virt == Desc(NET_BUFFER_SIZE * (virt.offset / NET_BUFFER_SIZE), |Bytes(p)|)
    requires Pc(h.s, me) == CFull(virt.offset / NET_BUFFER_SIZE) && InHands(h.s, me) == [p]
    ensures var q := h.q.(cliActive := h.q.cliActive + [Desc(cli.offset, virt.len)]);
            Inv(cfg, mem0, me, h.(trace := h.trace + [CopyDeliver(me)], s := s', q := q, client := client',
                                  log := h.log + [Copy(cli.offset / NET_BUFFER_SIZE, p)]))
    ensures Pc(s', me) == CReturn(virt.offset / NET_BUFFER_SIZE)
    ensures TakenBy(s', me) == TakenBy(sys, me) && WaitingFor(s', me) == WaitingFor(sys, me)
  {
    var k, b := cli.offset / NET_BUFFER_SIZE, virt.offset / NET_BUFFER_SIZE;
    assert cli.offset == NET_BUFFER_SIZE * k;
    InHandsFits(cfg, mem0, me, h, b, p);
    client' := client[k := CopyBytes(client[k], device[b], virt.len)];
    s' := Next(cfg, sys, CopyDeliver(me));
    DeliverStep(cfg, mem0, me, h, b, p, k, Desc(cli.offset, virt.len), client');
  }

  /** A client that lets no more buffers circulate than its queues hold has room for the packet. */
  lemma RoomForPacket(cfg: Config, mem0: seq<Packet>, me: nat, h: Here, b: nat)
    requires cfg.Valid() && Inv(cfg, mem0, me, h) && Pc(h.s, me) == CFull(b) && me < |cfg.limits|
    requires cfg.limits[me].circulation <= cfg.limits[me].capacity
    ensures |h.q.cliActive| < cfg.limits[me].capacity
  {
    InvMeans(cfg, mem0, me, h);
    NoAssertFails(cfg, mem0, h.trace, h.s, CopyDeliver(me));
  }

  /** The device's buffer goes back to the virtualiser, whose free queue has room for it. */
  lemma ReturnStep(cfg: Config, mem0: seq<Packet>, me: nat, h: Here, b: nat, d: Desc)
    requires cfg.Valid() && Inv(cfg, mem0, me, h) && Pc(h.s, me) == CReturn(b) && d.offset == NET_BUFFER_SIZE * b
    ensures |h.q.virtFree| < cfg.queueCapacity
    ensures var h' := Stepped(cfg, h, CopyReturn(me), h.q.(virtFree := h.q.virtFree + [d]));
            && Inv(cfg, mem0, me, h') && Pc(h'.s, me) == CIdle
            && TakenBy(h'.s, me) == TakenBy(h.s, me) && WaitingFor(h'.s, me) == WaitingFor(h.s, me)
  {
    InvMeans(cfg, mem0, me, h);
    NoAssertFails(cfg, mem0, h.trace, h.s, CopyReturn(me));
    StepReaches(cfg, mem0, me, h, CopyReturn(me));
    InvMeans(cfg, mem0, me, Stepped(cfg, h, CopyReturn(me), h.q.(virtFree := h.q.virtFree + [d])));
  }

  // ---- The same, for code that keeps the system's state ------------------------------------------

  method TakeOffered(cfg: Config, ghost mem0: seq<Packet>, me: nat, ghost h: Here, sys: State, use: bool)
    returns (s': State)
    requires cfg.Valid() && Inv(cfg, mem0, me, h) && Pc(h.s, me) == CIdle && h.q.cliFree != [] && h.s == sys
    ensures var step := if use then CopyTakeRoom(me) else CopySkip(me);
            Inv(cfg, mem0, me, h.(trace := h.trace + [step], s := s', q := h.q.(cliFree := h.q.cliFree[1..])))
    ensures Pc(s', me) == if use then CHasRoom else CIdle
    ensures TakenBy(s', me) == TakenBy(sys, me) && WaitingFor(s', me) == WaitingFor(sys, me)
  {
    s' := Next(cfg, sys, if use then CopyTakeRoom(me) else CopySkip(me));
    OfferStep(cfg, mem0, me, h, use);
  }

  method FindNoRoom(cfg: Config, ghost mem0: seq<Packet>, me: nat, ghost h: Here, sys: State) returns (s': State)
    requires cfg.Valid() && Inv(cfg, mem0, me, h) && Pc(h.s, me) == CIdle && h.q.cliFree == [] && h.s == sys
    ensures Inv(cfg, mem0, me, h.(trace := h.trace + [CopyFindNoRoom(me)], s := s')) && Pc(s', me) == CNoRoom
    ensures TakenBy(s', me) == TakenBy(sys, me) && WaitingFor(s', me) == WaitingFor(sys, me)
  {
    s' := Next(cfg, sys, CopyFindNoRoom(me));
    NoRoomStep(cfg, mem0, me, h);
  }

  method TakeWaiting(cfg: Config, ghost mem0: seq<Packet>, me: nat, ghost h: Here, sys: State)
    returns (s': State, ghost p: Packet)
    requires cfg.Valid() && Inv(cfg, mem0, me, h) && h.q.virtActive != [] && h.s == sys
    requires Pc(h.s, me) == CHasRoom || Pc(h.s, me) == CNoRoom
    ensures Inv(cfg, mem0, me, h.(trace := h.trace + [CopyTakeActive(me)], s := s',
              q := h.q.(virtActive := h.q.virtActive[1..])))
    ensures var d, b := h.q.virtActive[0], h.q.virtActive[0].offset / NET_BUFFER_SIZE;
            && d == Desc(NET_BUFFER_SIZE * b, |Bytes(p)|)
            && Pc(s', me) == (if Pc(h.s, me) == CHasRoom then CFull(b) else CReturn(b))
            && (Pc(h.s, me) == CHasRoom ==> InHands(s', me) == [p])
    ensures TakenBy(s', me) == TakenBy(sys, me) + [p] && WaitingFor(sys, me) == [p] + WaitingFor(s', me)
  {
    s' := Next(cfg, sys, CopyTakeActive(me));
    ghost var b;
    b, p := TakeStep(cfg, mem0, me, h);
    Aligned(b);
  }

  method ReturnBuffer(cfg: Config, ghost mem0: seq<Packet>, me: nat, ghost h: Here, sys: State, d: Desc)
    returns (s': State)
    requires cfg.Valid() && Inv(cfg, mem0, me, h) && h.s == sys
    requires Pc(h.s, me).CReturn? && d.offset == NET_BUFFER_SIZE * Pc(h.s, me).buf
    ensures |h.q.virtFree| < cfg.queueCapacity && Pc(s', me) == CIdle
    ensures Inv(cfg, mem0, me, h.(trace := h.trace + [CopyReturn(me)], s := s',
              q := h.q.(virtFree := h.q.virtFree + [d])))
    ensures TakenBy(s', me) == TakenBy(sys, me) && WaitingFor(s', me) == WaitingFor(sys, me)
  {
    s' := Next(cfg, sys, CopyReturn(me));
    ReturnStep(cfg, mem0, me, h, Pc(h.s, me).buf, d);
  }

  // ---- Everybody else ---------------------------------------------------------------------------

  /** What others do at one point, and which buffers the client offers if it does. */
  datatype Env = Env(others: seq<Step>, offers: nat -> Desc)

  predicate IsSchedule(schedule: seq<Env>, me: nat)
  {
    forall i :: 0 <= i < |schedule| ==> Others(schedule[i].others, me)
  }

  /** What stays as it was for the copier. */
  predicate Kept(h: Here, h': Here, me: nat)
  {
    && Pc(h'.s, me) == Pc(h.s, me) && TakenBy(h'.s, me) == TakenBy(h.s, me) && InHands(h'.s, me) == InHands(h.s, me)
    && h.q.virtActive <= h'.q.virtActive && h.q.cliFree <= h'.q.cliFree && h'.log == h.log && h'.client == h.client
  }

  lemma OthersShaped(cfg: Config, mem0: seq<Packet>, me: nat, h: Here, others: seq<Step>)
    requires cfg.Valid() && Inv(cfg, mem0, me, h) && Others(others, me)
    ensures me < |cfg.macs| && Shaped(cfg, h.s) && Conserved(cfg, Run(cfg, h.s, others))
    ensures Rely(cfg, me, h.s, Run(cfg, h.s, others)) && AllFit(Run(cfg, h.s, others).w.mem)
  {
    InvMeans(cfg, mem0, me, h);
    ReachableIsConserved(cfg, mem0, h.trace, h.s);
    RunRelies(cfg, h.s, others, me);
  }

  lemma OthersAct(cfg: Config, mem0: seq<Packet>, me: nat, h: Here, e: Env, s': State)
    requires cfg.Valid() && Inv(cfg, mem0, me, h) && Others(e.others, me) && s' == Run(cfg, h.s, e.others)
    requires me < |cfg.macs| && Shaped(cfg, h.s) && Shaped(cfg, s') && Rely(cfg, me, h.s, s') && AllFit(s'.w.mem)
    ensures var h' := h.(trace := h.trace + e.others, s := s', q := After(cfg, me, s', h.q, e.offers),
              device := ImageOf(s'.w.mem));
            Inv(cfg, mem0, me, h') && Kept(h, h', me)
  {
    InvMeans(cfg, mem0, me, h);
    RunAppend(cfg, Init(cfg, mem0), h.trace, e.others);
    MatchesAfter(cfg, me, h.s, s', h.q, h.device, e.offers);
    SuffixOf(h.q.cliActive, Announced(h.log), s'.w.own[me].waiting);
    InvMeans(cfg, mem0, me, h.(trace := h.trace + e.others, s := s', q := After(cfg, me, s', h.q, e.offers),
      device := ImageOf(s'.w.mem)));
    KeptAfter(cfg, me, h.s, s', h.q, h.device, e.offers);
  }

  /** No two of the copies from the i-th on went to the same buffer of the client. */
  predicate SeparateFrom(log: seq<Copy>, i: nat)
  {
    forall j, k :: i <= j < k < |log| ==> log[j].to != log[k].to
  }

  lemma AnnouncedStand(client: seq<seq<nat>>, log: seq<Copy>, cliActive: seq<Desc>)
    requires LatestStand(client, log) && IsSuffix(cliActive, Announced(log)) && SeparateFrom(log, |log| - |cliActive|)
    ensures var first := |log| - |cliActive|;
            forall i :: 0 <= i < |cliActive| ==>
                      cliActive[i] == Announcement(log[first + i])
                      && Stands(client, log[first + i])
  {
    var first := |log| - |cliActive|;
    forall i | 0 <= i < |cliActive|
      ensures cliActive[i] == Announcement(log[first + i]) && Stands(client, log[first + i])
    {
      assert Announced(log)[first..][i] == Announced(log)[first + i];
      assert Latest(log, first + i);
    }
  }

  /**
   End to end: what the client was sent is, in order, some of what came off the wire for it; and as long as it does not
   offer a buffer again before taking the packet in it, each descriptor in its active queue names a buffer with that
   packet, and its length.
   */
  lemma ClientReceives(cfg: Config, mem0: seq<Packet>, me: nat, h: Here)
    requires Inv(cfg, mem0, me, h)
    ensures IsSubsequence(PacketsOf(h.log), ForClient(cfg.macs, me, h.s.w.wire)) && |h.q.cliActive| <= |h.log|
    ensures var first := |h.log| - |h.q.cliActive|;
            SeparateFrom(h.log, first) ==>
              forall i :: 0 <= i < |h.q.cliActive| ==>
                && h.q.cliActive[i] == Announcement(h.log[first + i])
                && Stands(h.client, h.log[first + i])
  {
    InvMeans(cfg, mem0, me, h);
    DeliveredInOrder(cfg, mem0, h.trace, h.s, me);
    if SeparateFrom(h.log, |h.log| - |h.q.cliActive|) {
      AnnouncedStand(h.client, h.log, h.q.cliActive);
    }
  }

  /** Others act; the copier's queues and the device's buffers follow. */
  method LetOthersAct(cfg: Config, ghost mem0: seq<Packet>, me: nat, ghost h: Here, sys: State, q: Queues, e: Env)
    returns (s: State, q': Queues, device: seq<seq<nat>>)
    requires cfg.Valid() && Inv(cfg, mem0, me, h) && Others(e.others, me) && h.s == sys && h.q == q
    ensures var h' := h.(trace := h.trace + e.others, s := s, q := q', device := device);
            Inv(cfg, mem0, me, h') && Kept(h, h', me)
  {
    s := Run(cfg, sys, e.others);
    OthersShaped(cfg, mem0, me, h, e.others);
    OthersAct(cfg, mem0, me, h, e, s);
    q', device := After(cfg, me, s, q, e.offers), ImageOf(s.w.mem);
  }

  class Copier {
    const cfg: Config
    const me: nat                  // which client it serves
    var sys: State                 // the system around it
    var virtActive: seq<Desc>      // rx_queue_virt
    var virtFree: seq<Desc>
    var cliFree: seq<Desc>         // rx_queue_cli
    var cliActive: seq<Desc>
    var clientData: seq<seq<nat>>  // the client's buffers
    var deviceData: seq<seq<nat>>  // the device's buffers, read only here
    ghost const mem0: seq<Packet>
    ghost var trace: seq<Step>     // everything that happened since initialisation
    ghost var log: seq<Copy>       // every packet copied, and where

    ghost function Now(): Here
      reads this
    {
      Here(trace, sys, Queues(virtActive, virtFree, cliFree, cliActive), clientData, deviceData, log)
    }

    /** The state is reachable; the queues are the system's; what was delivered is in the client's buffers. */
    ghost predicate Valid()
      reads this
    {
      cfg.Valid() && me < |cfg.limits| && Inv(cfg, mem0, me, Now())
    }

    /** init: the client's buffers are all offered; the virtualiser has sent nothing yet. */
    constructor (cfg: Config, me: nat, mem: seq<Packet>)
      requires cfg.Valid() && me < |cfg.macs| && |mem| == cfg.numBuffers && AllFit(mem)
      ensures Valid() && this.cfg == cfg && this.me == me && mem0 == mem && trace == [] && sys == Init(cfg, mem)
              && log == []
      ensures UsableOf(cliFree, cfg.limits[me].capacity) == cliFree && |cliFree| == cfg.limits[me].capacity
    {
      var capacity := cfg.limits[me].capacity;
      this.cfg, this.me, mem0, trace, log := cfg, me, mem, [], [];
      sys, deviceData := Init(cfg, mem), ImageOf(mem);
      clientData := Fill(capacity, Fill(NET_BUFFER_SIZE, 0));
      virtActive, virtFree, cliActive := [], [], [];
      cliFree := seq(capacity, i requires 0 <= i => Desc(NET_BUFFER_SIZE * i, 0));
      new;
      AllUsable(cliFree, capacity);
      InvMeans(cfg, mem0, me, Now());
    }

    /** Everybody else acts as the head of the schedule says. */
    method Interfere(schedule: seq<Env>) returns (rest: seq<Env>)
      requires Valid() && IsSchedule(schedule, me)
      modifies this`sys, this`virtActive, this`virtFree, this`cliFree, this`cliActive, this`deviceData, this`trace
      ensures Valid() && IsSchedule(rest, me) && old(trace) <= trace && Kept(old(Now()), Now(), me)
      ensures if schedule == [] then rest == [] && Now() == old(Now()) else rest == schedule[1..]
    {
      rest := schedule;
      if schedule != [] {
        var q := Queues(virtActive, virtFree, cliFree, cliActive);
        var s, q', device := LetOthersAct(cfg, mem0, me, Now(), sys, q, schedule[0]);
        virtActive, virtFree, cliFree, cliActive := q'.virtActive, q'.virtFree, q'.cliFree, q'.cliActive;
        sys, deviceData, trace, rest := s, device, trace + schedule[0].others, schedule[1..];
      }
    }

    /** net_queue_empty_free on the client's queue, after others have acted. */
    method CheckRoom(schedule: seq<Env>) returns (room: bool, rest: seq<Env>)
      requires Valid() && IsSchedule(schedule, me) && Pc(sys, me) == CIdle
      modifies this`sys, this`virtActive, this`virtFree, this`cliFree, this`cliActive, this`deviceData, this`trace
      ensures Valid() && IsSchedule(rest, me) && old(trace) <= trace && log == old(log)
      ensures if room then cliFree != [] && Pc(sys, me) == CIdle else cliFree == [] && Pc(sys, me) == CNoRoom
      ensures TakenBy(sys, me) == old(TakenBy(sys, me)) && old(virtActive) <= virtActive
      ensures if schedule == [] then rest == [] && Same(old(Now()), Now(), me) && cliFree == old(cliFree)
              else rest == schedule[1..]
    {
      rest := Interfere(schedule);
      room := cliFree != [];
      if !room {
        sys := FindNoRoom(cfg, mem0, me, Now(), sys);
        trace := trace + [CopyFindNoRoom(me)];
      }
    }

    /** net_dequeue_free on the client's queue, after others have acted, and the check on what it offered. */
    method TakeOffer(schedule: seq<Env>) returns (cli: Desc, usable: bool, rest: seq<Env>)
      requires Valid() && IsSchedule(schedule, me) && Pc(sys, me) == CIdle && cliFree != []
      modifies this`sys, this`virtActive, this`virtFree, this`cliFree, this`cliActive, this`deviceData, this`trace
      ensures Valid() && IsSchedule(rest, me) && old(trace) <= trace && log == old(log)
      ensures cli == old(cliFree)[0] && (usable <==> Usable(cli, cfg.limits[me].capacity))
      ensures Pc(sys, me) == if usable then CHasRoom else CIdle
      ensures TakenBy(sys, me) == old(TakenBy(sys, me)) && old(virtActive) <= virtActive
      ensures if schedule == [] then rest == [] && Same(old(Now()), Now(), me) && cliFree == old(cliFree)[1..]
              else rest == schedule[1..]
    {
      rest := Interfere(schedule);
      cli := cliFree[0];
      usable := Usable(cli, cfg.limits[me].capacity);
      sys := TakeOffered(cfg, mem0, me, Now(), sys, usable);
      cliFree, trace := cliFree[1..], trace + [if usable then CopyTakeRoom(me) else CopySkip(me)];
    }

    /** net_dequeue_active on the virtualiser's queue, after others have acted. */
    method TakePacket(schedule: seq<Env>) returns (virt: Desc, rest: seq<Env>, ghost p: Packet)
      requires Valid() && IsSchedule(schedule, me) && virtActive != []
               && (Pc(sys, me) == CHasRoom || Pc(sys, me) == CNoRoom)
      modifies this`sys, this`virtActive, this`virtFree, this`cliFree, this`cliActive, this`deviceData, this`trace
      ensures Valid() && IsSchedule(rest, me) && old(trace) <= trace && log == old(log)
      ensures virt == old(virtActive)[0] == Desc(NET_BUFFER_SIZE * (virt.offset / NET_BUFFER_SIZE), |Bytes(p)|)
      ensures Pc(sys, me) == if old(Pc(sys, me)) == CHasRoom then CFull(virt.offset / NET_BUFFER_SIZE)
                             else CReturn(virt.offset / NET_BUFFER_SIZE)
      ensures old(Pc(sys, me)) == CHasRoom ==> InHands(sys, me) == [p]
      ensures TakenBy(sys, me) == old(TakenBy(sys, me)) + [p]
      ensures if schedule == [] then rest == [] && virtActive == old(virtActive)[1..] && cliFree == old(cliFree)
                                     && old(WaitingFor(sys, me)) == [p] + WaitingFor(sys, me)
                                          && virtFree == old(virtFree)
              else rest == schedule[1..]
    {
      rest := Interfere(schedule);
      virt := virtActive[0];
      sys, p := TakeWaiting(cfg, mem0, me, Now(), sys);
      virtActive, trace := virtActive[1..], trace + [CopyTakeActive(me)];
    }

    /** sddf_memcpy, and net_enqueue_active on the client's queue, which has room. */
    method CopyOut(cli: Desc, virt: Desc, ghost p: Packet)
      requires Valid() && Usable(cli, cfg.limits[me].capacity) && |cliActive| < cfg.limits[me].capacity
      requires virt == Desc(NET_BUFFER_SIZE * (virt.offset / NET_BUFFER_SIZE), |Bytes(p)|)
      requires Pc(sys, me) == CFull(virt.offset / NET_BUFFER_SIZE) && InHands(sys, me) == [p]
      modifies this`sys, this`cliActive, this`clientData, this`trace, this`log
      ensures Valid() && trace == old(trace) + [CopyDeliver(me)]
      ensures log == old(log) + [Copy(cli.offset / NET_BUFFER_SIZE, p)]
      ensures cliActive == old(cliActive) + [Desc(cli.offset, virt.len)]
      ensures Pc(sys, me) == CReturn(virt.offset / NET_BUFFER_SIZE)
      ensures TakenBy(sys, me) == old(TakenBy(sys, me)) && WaitingFor(sys, me) == old(WaitingFor(sys, me))
    {
      sys, clientData := CopyPacket(cfg, mem0, me, Now(), cli, virt, sys, clientData, deviceData, p);
      cliActive, log := cliActive + [Desc(cli.offset, virt.len)], log + [Copy(cli.offset / NET_BUFFER_SIZE, p)];
      trace := trace + [CopyDeliver(me)];
    }

    /**
     The packet is handed to the client, after others have acted. The assertion that the client's queue has room holds
     if the client lets no more buffers circulate than its queues hold.
     */
    method Deliver(cli: Desc, virt: Desc, schedule: seq<Env>, ghost p: Packet) returns (ok: bool, rest: seq<Env>)
      requires Valid() && IsSchedule(schedule, me) && Usable(cli, cfg.limits[me].capacity)
      requires virt == Desc(NET_BUFFER_SIZE * (virt.offset / NET_BUFFER_SIZE), |Bytes(p)|)
      requires Pc(sys, me) == CFull(virt.offset / NET_BUFFER_SIZE) && InHands(sys, me) == [p]
      modifies this
      ensures Valid() && IsSchedule(rest, me) && old(trace) <= trace
      ensures cfg.limits[me].circulation <= cfg.limits[me].capacity ==> ok
      ensures ok ==> log == old(log) + [Copy(cli.offset / NET_BUFFER_SIZE, p)]
      ensures ok ==> Pc(sys, me) == CReturn(virt.offset / NET_BUFFER_SIZE) && TakenBy(sys, me) == old(TakenBy(sys, me))
      ensures if schedule == [] then rest == [] && (ok ==> Same(old(Now()), Now(), me) && cliFree == old(cliFree))
              else rest == schedule[1..]
    {
      rest := Interfere(schedule);
      if cfg.limits[me].circulation <= cfg.limits[me].capacity {
        RoomForPacket(cfg, mem0, me, Now(), virt.offset / NET_BUFFER_SIZE);
      }
      ok := |cliActive| < cfg.limits[me].capacity;
      if ok {
        CopyOut(cli, virt, p);
      }
    }

    /** net_enqueue_free on the virtualiser's queue, after others have acted; it always has room. */
    method GiveBack(d: Desc, schedule: seq<Env>) returns (rest: seq<Env>)
      requires Valid() && IsSchedule(schedule, me) && Pc(sys, me).CReturn?
               && d.offset == NET_BUFFER_SIZE * Pc(sys, me).buf
      modifies this`sys, this`virtActive, this`virtFree, this`cliFree, this`cliActive, this`deviceData, this`trace
      ensures Valid() && IsSchedule(rest, me) && old(trace) <= trace && log == old(log) && Pc(sys, me) == CIdle
      ensures TakenBy(sys, me) == old(TakenBy(sys, me))
      ensures if schedule == [] then rest == [] && virtActive == old(virtActive) && virtFree == old(virtFree) + [d]
                                     && WaitingFor(sys, me) == old(WaitingFor(sys, me)) && cliFree == old(cliFree)
              else rest == schedule[1..]
    {
      rest := Interfere(schedule);
      ghost var before := |virtFree|;
      sys := ReturnBuffer(cfg, mem0, me, Now(), sys, d);
      assert before < cfg.queueCapacity;
      virtFree, trace := virtFree + [d], trace + [CopyReturn(me)];
    }

    /** One packet: copied to the buffer the client offered, and announced to it. */
    method CopyOne(cli: Desc, schedule: seq<Env>) returns (ok: bool, rest: seq<Env>, ghost p: Packet)
      requires Valid() && IsSchedule(schedule, me) && Usable(cli, cfg.limits[me].capacity)
      requires virtActive != [] && Pc(sys, me) == CHasRoom
      modifies this
      ensures Valid() && IsSchedule(rest, me) && old(trace) <= trace && |rest| <= |schedule|
      ensures cfg.limits[me].circulation <= cfg.limits[me].capacity ==> ok
      ensures ok ==> Pc(sys, me) == CIdle && TakenBy(sys, me) == old(TakenBy(sys, me)) + [p]
      ensures ok ==> log == old(log) + [Copy(cli.offset / NET_BUFFER_SIZE, p)]
      ensures ok && schedule == [] ==> virtActive == old(virtActive)[1..] && cliFree == old(cliFree)
      ensures ok && schedule == [] ==> Offsets(virtFree) == old(Offsets(virtFree)) + [old(virtActive)[0].offset]
      ensures ok && schedule == [] ==> old(WaitingFor(sys, me)) == [p] + WaitingFor(sys, me)
    {
      var virt;
      virt, rest, p := TakePacket(schedule);
      ok, rest := Deliver(cli, virt, rest, p);
      if ok {
        rest := GiveBack(Desc(virt.offset, 0), rest);
      }
    }

    /** One packet for which the client has no buffer: dropped. */
    method DropOne(schedule: seq<Env>) returns (rest: seq<Env>, ghost p: Packet)
      requires Valid() && IsSchedule(schedule, me) && virtActive != [] && Pc(sys, me) == CNoRoom
      modifies this`sys, this`virtActive, this`virtFree, this`cliFree, this`cliActive, this`deviceData, this`trace
      ensures Valid() && IsSchedule(rest, me) && old(trace) <= trace && |rest| <= |schedule|
      ensures Pc(sys, me) == CIdle && TakenBy(sys, me) == old(TakenBy(sys, me)) + [p] && log == old(log)
      ensures schedule == [] ==> virtActive == old(virtActive)[1..] && cliFree == old(cliFree)
      ensures schedule == [] ==> Offsets(virtFree) == old(Offsets(virtFree)) + [old(virtActive)[0].offset]
      ensures schedule == [] ==> old(WaitingFor(sys, me)) == [p] + WaitingFor(sys, me)
    {
      var virt;
      virt, rest, p := TakePacket(schedule);
      rest := GiveBack(virt, rest);
    }

    /** One round of the inner loop of rx_return. */
    method HandleOne(schedule: seq<Env>) returns (ok: bool, copied: bool, taken: bool, rest: seq<Env>)
      requires Valid() && IsSchedule(schedule, me) && Pc(sys, me) == CIdle && virtActive != []
      modifies this
      ensures Valid() && IsSchedule(rest, me) && old(trace) <= trace
      ensures cfg.limits[me].circulation <= cfg.limits[me].capacity ==> ok
      ensures ok ==>
                Pc(sys, me) == CIdle && Grown(old(log), log, copied)
                && Grown(old(TakenBy(sys, me)), TakenBy(sys, me), taken)
      ensures |rest| < |schedule| || (rest == schedule == []
              && (ok ==> |virtActive| + |cliFree| < |old(virtActive)| + |old(cliFree)|))
      ensures ok && schedule == [] ==>
                && log + Copies(WaitingFor(sys, me), cliFree, cfg.limits[me].capacity)
                   == old(log) + Copies(old(WaitingFor(sys, me)), old(cliFree), cfg.limits[me].capacity)
                && Offsets(virtFree) + Offsets(virtActive) == old(Offsets(virtFree)) + Offsets(old(virtActive))
    {
      var room;
      room, rest := CheckRoom(schedule);
      ok, copied, taken := true, false, false;
      ghost var packets, free, cap := WaitingFor(sys, me), cliFree, cfg.limits[me].capacity;
      ghost var p;
      if room {
        var cli, usable;
        cli, usable, rest := TakeOffer(rest);
        if usable {
          ok, rest, p := CopyOne(cli, rest);
          copied, taken := ok, ok;
          if ok && schedule == [] {
            CopiesTake(packets, free, cap);
            AppendAssociates(old(log), [Copy(cli.offset / NET_BUFFER_SIZE, p)], Copies(packets[1..], free[1..], cap));
            OffsetsMove(old(virtFree), old(virtActive));
          }
        } else {
          CopiesSkip(packets, free, cap);
        }
      } else {
        rest, p := DropOne(rest);
        taken := true;
        OffsetsMove(old(virtFree), old(virtActive));
      }
    }

    /** The inner loop: every packet waiting is copied or dropped, and every buffer of the virtualiser goes back. */
    method Drain(schedule: seq<Env>) returns (ok: bool, copied: bool, taken: bool, rest: seq<Env>)
      requires Valid() && IsSchedule(schedule, me) && Pc(sys, me) == CIdle
      modifies this
      ensures Valid() && IsSchedule(rest, me) && old(trace) <= trace && |rest| <= |schedule|
      ensures cfg.limits[me].circulation <= cfg.limits[me].capacity ==> ok
      ensures ok ==> Pc(sys, me) == CIdle && virtActive == []
      ensures ok ==> Grown(old(log), log, copied) && Grown(old(TakenBy(sys, me)), TakenBy(sys, me), taken)
      ensures ok && schedule == [] ==>
                && log == old(log) + Copies(old(WaitingFor(sys, me)), old(cliFree), cfg.limits[me].capacity)
                && Offsets(virtFree) == old(Offsets(virtFree)) + Offsets(old(virtActive))
    {
      ok, copied, taken, rest := true, false, false, schedule;
      while ok && virtActive != []
        invariant Valid() && IsSchedule(rest, me) && old(trace) <= trace && |rest| <= |schedule|
        invariant cfg.limits[me].circulation <= cfg.limits[me].capacity ==> ok
        invariant ok ==> Pc(sys, me) == CIdle
        invariant ok ==> Grown(old(log), log, copied) && Grown(old(TakenBy(sys, me)), TakenBy(sys, me), taken)
        invariant ok && schedule == [] ==>
                    && log + Copies(WaitingFor(sys, me), cliFree, cfg.limits[me].capacity)
                       == old(log) + Copies(old(WaitingFor(sys, me)), old(cliFree), cfg.limits[me].capacity)
                    && Offsets(virtFree) + Offsets(virtActive) == old(Offsets(virtFree)) + Offsets(old(virtActive))
        decreases |rest|, ok, |virtActive| + |cliFree|
      {
        var c, t;
        ok, c, t, rest := HandleOne(rest);
        copied, taken := copied || c, taken || t;
      }
      if ok {
        NothingWaits(cfg, mem0, me, Now());
        assert Copies([], cliFree, cfg.limits[me].capacity) == [];
        assert Offsets(virtFree) + Offsets([]) == Offsets(virtFree);
      }
    }

    /**
     rx_return: drain, ask for a signal, and look again, until nothing waits. Every packet of the virtualiser's queue
     has then been taken; the client is to be notified exactly if packets were copied to it, and the virtualiser exactly
     if buffers went back. The assertion on the client's queue never fails if the client lets no more buffers circulate
     than its queues hold. Undisturbed, the packets go to the client's usable buffers, in order, as far as these last.
     */
    method RxReturn(schedule: seq<Env>) returns (ok: bool, clientEnqueued: bool, virtEnqueued: bool, rest: seq<Env>)
      requires Valid() && IsSchedule(schedule, me) && Pc(sys, me) == CIdle
      modifies this
      ensures Valid() && IsSchedule(rest, me) && old(trace) <= trace
      ensures cfg.limits[me].circulation <= cfg.limits[me].capacity ==> ok
      ensures ok ==> Pc(sys, me) == CIdle && virtActive == []
      ensures ok ==>
                Grown(old(log), log, clientEnqueued)
                && Grown(old(TakenBy(sys, me)), TakenBy(sys, me), virtEnqueued)
      ensures ok && schedule == [] ==>
                && log == old(log) + Copies(old(WaitingFor(sys, me)), old(cliFree), cfg.limits[me].capacity)
                && Offsets(virtFree) == old(Offsets(virtFree)) + Offsets(old(virtActive))
    {
      ok, clientEnqueued, virtEnqueued, rest := true, false, false, schedule;
      var reprocess, first := true, true;
      while ok && reprocess
        invariant Valid() && IsSchedule(rest, me) && old(trace) <= trace
        invariant cfg.limits[me].circulation <= cfg.limits[me].capacity ==> ok
        invariant ok ==> Pc(sys, me) == CIdle && (!reprocess ==> virtActive == [])
        invariant ok ==>
                    Grown(old(log), log, clientEnqueued)
                    && Grown(old(TakenBy(sys, me)), TakenBy(sys, me), virtEnqueued)
        invariant first ==> Now() == old(Now()) && rest == schedule && ok && reprocess
        invariant ok && schedule == [] && !first ==>
                    && rest == [] && virtActive == []
                    && log == old(log) + Copies(old(WaitingFor(sys, me)), old(cliFree), cfg.limits[me].capacity)
                    && Offsets(virtFree) == old(Offsets(virtFree)) + Offsets(old(virtActive))
        invariant schedule == [] && !first ==> !reprocess
        decreases |rest|, reprocess
      {
        ghost var before := |rest|;
        var c, t;
        ok, c, t, rest := Drain(rest);
        clientEnqueued, virtEnqueued, first, reprocess := clientEnqueued || c, virtEnqueued || t, false, false;
        if ok {
          rest := Interfere(rest);
          if virtActive != [] {
            reprocess := true;
          }
        }
      }
    }
  }

  /** Nothing changed for the copier but where it stands. */
  predicate Same(h: Here, h': Here, me: nat)
  {
    h'.q.virtActive == h.q.virtActive && h'.q.virtFree == h.q.virtFree && WaitingFor(h'.s, me) == WaitingFor(h.s, me)
  }

  /** The list got longer at its end exactly if this is true. */
  predicate Grown<T(==)>(before: seq<T>, after: seq<T>, longer: bool)
  {
    before <= after && (longer <==> |before| < |after|)
  }

  lemma NothingWaits(cfg: Config, mem0: seq<Packet>, me: nat, h: Here)
    requires Inv(cfg, mem0, me, h) && h.q.virtActive == []
    ensures WaitingFor(h.s, me) == []
  {
    InvMeans(cfg, mem0, me, h);
  }

  /** A buffer given back moves its offset from the active to the free queue. */
  lemma OffsetsMove(free: seq<Desc>, active: seq<Desc>)
    requires active != []
    ensures (Offsets(free) + [active[0].offset]) + Offsets(active[1..]) == Offsets(free) + Offsets(active)
  {
  }

  lemma {:induction false} AllUsable(q: seq<Desc>, capacity: nat)
    requires forall i :: 0 <= i < |q| ==> Usable(q[i], capacity)
    ensures UsableOf(q, capacity) == q
  {
    if q != [] {
      AllUsable(q[1..], capacity);
    }
  }
}
