/**
 What one copier (copy.c) sees of the receive path: its four queues of descriptors, the device's buffers it reads and
 the client's buffers it writes; and how these relate to the step system of NetRx while everybody else acts as well.
 */
module NetCopyState {
  import opened NetRoute
  import opened NetRx
  import opened Sequences

  const NET_BUFFER_SIZE: nat := 2048

  datatype Desc = Desc(offset: nat, len: nat)

  // ---- What others may do ---------------------------------------------------------------------

  /** The bytes of a packet, as they lie in a buffer. */
  function Bytes(p: Packet): seq<nat>
  {
    p.dest + p.body
  }

  predicate FitsBuffer(p: Packet)
  {
    |Bytes(p)| <= NET_BUFFER_SIZE
  }

  predicate AllFit(mem: seq<Packet>)
  {
    forall b :: 0 <= b < |mem| ==> FitsBuffer(mem[b])
  }

  predicate IsOwn(step: Step, me: nat)
  {
    && (|| step.CopyTakeRoom? || step.CopySkip? || step.CopyFindNoRoom? || step.CopyTakeActive?
        || step.CopyDeliver? || step.CopyReturn?)
    && step.client == me
  }

  /** Not a step of this copier; and the device receives no packet longer than a buffer. */
  predicate IsOther(step: Step, me: nat)
  {
    !IsOwn(step, me) && (step.DevReceive? ==> FitsBuffer(step.packet))
  }

  predicate Others(steps: seq<Step>, me: nat)
  {
    forall i :: 0 <= i < |steps| ==> IsOther(steps[i], me)
  }

  predicate IsSuffix<T(==)>(a: seq<T>, b: seq<T>)
  {
    |a| <= |b| && b[|b| - |a|..] == a
  }

  /** The copier still has to read buffer b, or holds it. */
  predicate Held(s: State, me: nat, b: nat)
    requires me < |s.cliActive| == |s.w.copiers|
  {
    b in s.cliActive[me] || s.w.copiers[me] == CFull(b) || s.w.copiers[me] == CReturn(b)
  }

  /**
   What the copier can rely on while others act: its input queues only grow at the end, its output queues only shrink at
   the front, and nobody writes to a buffer it still has to read.
   */
  predicate Rely(cfg: Config, me: nat, s: State, s': State)
    requires Shaped(cfg, s) && Shaped(cfg, s') && me < |cfg.macs|
  {
    && s'.w.copiers[me] == s.w.copiers[me]
    && s.cliActive[me] <= s'.cliActive[me] && IsSuffix(s'.cliFree[me], s.cliFree[me])
    && s.w.own[me].offered <= s'.w.own[me].offered && s'.w.own[me].waiting <= s.w.own[me].waiting
    && s'.w.taken[me] == s.w.taken[me] && s'.w.delivered[me] == s.w.delivered[me]
    && (forall b: nat :: b < cfg.numBuffers && Held(s, me, b) ==> s'.w.mem[b] == s.w.mem[b])
  }

  lemma HeldIsClientSide(cfg: Config, s: State, me: nat, b: nat)
    requires Shaped(cfg, s) && me < |cfg.macs| && Held(s, me, b)
    ensures ClientSide(s, me, b) > 0
  {
    assert b in s.cliActive[me] <==> b in multiset(s.cliActive[me]);
  }

  lemma ReceiveRelies(cfg: Config, s: State, p: Packet, me: nat)
    requires cfg.Valid() && Conserved(cfg, s) && s.w.ringPend != [] && me < |cfg.macs|
    ensures Rely(cfg, me, s, ApplyDriver(cfg, s, DevReceive(p)))
  {
    var b0 := s.w.ringPend[0];
    TallyPop(s.w.ringPend);
    NobodyHolds(cfg, s, b0);
    forall b: nat | b < cfg.numBuffers && Held(s, me, b)
      ensures b != b0
    {
      HeldIsClientSide(cfg, s, me, b);
    }
  }

  lemma StepRelies(cfg: Config, s: State, step: Step, me: nat)
    requires cfg.Valid() && Conserved(cfg, s) && Enabled(cfg, s, step) && me < |cfg.macs| && !IsOwn(step, me)
    ensures Rely(cfg, me, s, Apply(cfg, s, step))
  {
    if step.DevReceive? {
      ReceiveRelies(cfg, s, step.packet, me);
    }
  }

  lemma RelyTwice(cfg: Config, me: nat, s: State, t: State, u: State)
    requires Shaped(cfg, s) && Shaped(cfg, t) && Shaped(cfg, u) && me < |cfg.macs|
    requires Rely(cfg, me, s, t) && Rely(cfg, me, t, u)
    ensures Rely(cfg, me, s, u)
  {
    var a, b, c := u.cliFree[me], t.cliFree[me], s.cliFree[me];
    assert c[|c| - |a|..] == c[|c| - |b|..][|b| - |a|..];
    forall x: nat | x < cfg.numBuffers && Held(s, me, x)
      ensures Held(t, me, x)
    {
      if x in s.cliActive[me] {
        var i :| 0 <= i < |s.cliActive[me]| && s.cliActive[me][i] == x;
        assert t.cliActive[me][i] == x;
      }
    }
  }

  lemma {:induction false} RunRelies(cfg: Config, s: State, steps: seq<Step>, me: nat)
    requires cfg.Valid() && Conserved(cfg, s) && me < |cfg.macs| && Others(steps, me) && AllFit(s.w.mem)
    ensures Conserved(cfg, Run(cfg, s, steps)) && Rely(cfg, me, s, Run(cfg, s, steps))
            && AllFit(Run(cfg, s, steps).w.mem)
  {
    if steps != [] {
      var init, last := steps[..|steps| - 1], steps[|steps| - 1];
      RunRelies(cfg, s, init, me);
      var t := Run(cfg, s, init);
      if Enabled(cfg, t, last) {
        StepConserves(cfg, t, last);
        StepRelies(cfg, t, last, me);
        RelyTwice(cfg, me, s, t, Apply(cfg, t, last));
      }
    }
  }

  // ---- Queues and buffers -----------------------------------------------------------------------

  datatype Queues = Queues(virtActive: seq<Desc>, virtFree: seq<Desc>, cliFree: seq<Desc>, cliActive: seq<Desc>)

  /** The descriptors of these buffers, each with the length of its packet. */
  predicate Described(q: seq<Desc>, bufs: seq<nat>, mem: seq<Packet>)
  {
    && |q| == |bufs| && Below(bufs, |mem|)
    && forall i :: 0 <= i < |q| ==> q[i] == Desc(NET_BUFFER_SIZE * bufs[i], |Bytes(mem[bufs[i]])|)
  }

  predicate Named(q: seq<Desc>, bufs: seq<nat>)
  {
    |q| == |bufs| && forall i :: 0 <= i < |q| ==> q[i].offset == NET_BUFFER_SIZE * bufs[i]
  }

  /** A data region is cut into buffers of the one size. */
  predicate Cut(data: seq<seq<nat>>)
  {
    forall i :: 0 <= i < |data| ==> |data[i]| == NET_BUFFER_SIZE
  }

  /** Each buffer of the device starts with the bytes of its packet. */
  predicate Imaged(device: seq<seq<nat>>, mem: seq<Packet>)
  {
    |device| == |mem| && Cut(device) && forall b :: 0 <= b < |mem| ==> Bytes(mem[b]) <= device[b]
  }

  function ImageOf(mem: seq<Packet>): (device: seq<seq<nat>>)
    requires AllFit(mem)
    ensures Imaged(device, mem)
  {
    seq(|mem|, b requires 0 <= b < |mem| => Bytes(mem[b]) + Fill(NET_BUFFER_SIZE - |Bytes(mem[b])|, 0))
  }

  /** A packet, and the client's buffer it was copied to. */
  datatype Copy = Copy(to: nat, packet: Packet)

  function Announcement(c: Copy): Desc
  {
    Desc(NET_BUFFER_SIZE * c.to, |Bytes(c.packet)|)
  }

  function Announced(log: seq<Copy>): (r: seq<Desc>)
    ensures |r| == |log| && forall i :: 0 <= i < |log| ==> r[i] == Announcement(log[i])
  {
    seq(|log|, i requires 0 <= i < |log| => Announcement(log[i]))
  }

  function PacketsOf(log: seq<Copy>): (r: seq<Packet>)
    ensures |r| == |log| && forall i :: 0 <= i < |log| ==> r[i] == log[i].packet
  {
    seq(|log|, i requires 0 <= i < |log| => log[i].packet)
  }

  /** No later copy went to the same buffer. */
  predicate Latest(log: seq<Copy>, i: nat)
    requires i < |log|
  {
    forall j :: i < j < |log| ==> log[j].to != log[i].to
  }

  predicate Stands(client: seq<seq<nat>>, c: Copy)
  {
    c.to < |client| && Bytes(c.packet) <= client[c.to]
  }

  /** Each buffer of the client starts with the last packet copied to it. */
  predicate LatestStand(client: seq<seq<nat>>, log: seq<Copy>)
  {
    forall i :: 0 <= i < |log| && Latest(log, i) ==> Stands(client, log[i])
  }

  /** sddf_memcpy: the first len bytes of dest become those of src. */
  function CopyBytes(dest: seq<nat>, src: seq<nat>, len: nat): (r: seq<nat>)
    requires len <= |dest| && len <= |src|
    ensures |r| == |dest|
  {
    src[..len] + dest[len..]
  }

  lemma CopyStands(client: seq<seq<nat>>, log: seq<Copy>, k: nat, p: Packet, src: seq<nat>)
    requires Cut(client) && LatestStand(client, log) && k < |client| && FitsBuffer(p) && Bytes(p) <= src
    ensures var client' := client[k := CopyBytes(client[k], src, |Bytes(p)|)];
            Cut(client') && LatestStand(client', log + [Copy(k, p)])
  {
    var client', log' := client[k := CopyBytes(client[k], src, |Bytes(p)|)], log + [Copy(k, p)];
    assert Stands(client', Copy(k, p));
    forall i | 0 <= i < |log'| && Latest(log', i)
      ensures Stands(client', log'[i])
    {
      if i < |log| {
        assert log'[|log|].to != log'[i].to;
        assert Latest(log, i) by {
          assert forall j :: i < j < |log| ==> log'[j] == log[j];
        }
      }
    }
  }

  // ---- The copier's state and the system's ------------------------------------------------------

  /** The copier's queues and the device's buffers are those of the system. */
  predicate Matches(cfg: Config, me: nat, s: State, q: Queues, device: seq<seq<nat>>)
    requires Shaped(cfg, s) && me < |cfg.macs|
  {
    && AllFit(s.w.mem) && Imaged(device, s.w.mem)
    && Described(q.virtActive, s.cliActive[me], s.w.mem) && Named(q.virtFree, s.cliFree[me])
    && |q.cliFree| == s.w.own[me].offered && |q.cliActive| == s.w.own[me].waiting
  }

  /**
   What was delivered is what the log says; the last of it is announced in the client's queue, and is in its buffers.
   */
  predicate Logged(cap: nat, delivered: seq<Packet>, cliActive: seq<Desc>, client: seq<seq<nat>>, log: seq<Copy>)
  {
    && |client| == cap && Cut(client) && PacketsOf(log) == delivered && IsSuffix(cliActive, Announced(log))
    && LatestStand(client, log)
  }

  /** Names the places where a proof looks into the copier's state. */
  predicate Opened(k: int, s: State, log: seq<Copy>)
  {
    true
  }

  /** The run so far, the system's state, and the copier's. */
  datatype Here = Here(trace: seq<Step>, s: State, q: Queues, client: seq<seq<nat>>, device: seq<seq<nat>>,
                       log: seq<Copy>)

  ghost predicate Inv(cfg: Config, mem0: seq<Packet>, me: nat, h: Here)
  {
    forall k: int {:trigger Opened(k, h.s, h.log)} :: Opened(k, h.s, h.log) ==> InvBody(cfg, mem0, me, h)
  }

  ghost predicate InvBody(cfg: Config, mem0: seq<Packet>, me: nat, h: Here)
  {
    && IsReachable(cfg, mem0, h.trace, h.s) && me < |cfg.macs|
    && Matches(cfg, me, h.s, h.q, h.device)
    && Logged(cfg.limits[me].capacity, h.s.w.delivered[me], h.q.cliActive, h.client, h.log)
  }

  lemma InvMeans(cfg: Config, mem0: seq<Packet>, me: nat, h: Here)
    ensures Inv(cfg, mem0, me, h) <==> InvBody(cfg, mem0, me, h)
  {
    assert Opened(0, h.s, h.log);
  }

  function Pc(s: State, me: nat): CopyPc
  {
    if me < |s.w.copiers| then s.w.copiers[me] else CIdle
  }

  function TakenBy(s: State, me: nat): seq<Packet>
  {
    if me < |s.w.taken| then s.w.taken[me] else []
  }

  function WaitingFor(s: State, me: nat): seq<Packet>
  {
    if me < |s.cliActive| && Below(s.cliActive[me], |s.w.mem|) then Contents(s.w.mem, s.cliActive[me]) else []
  }

  /** The packet in the copier's hands. */
  function InHands(s: State, me: nat): seq<Packet>
  {
    if Pc(s, me).CFull? && Pc(s, me).buf < |s.w.mem| then [s.w.mem[Pc(s, me).buf]] else []
  }

  function Last<T>(q: seq<T>, n: nat): seq<T>
  {
    if n <= |q| then q[|q| - n..] else q
  }

  /** Descriptors of the buffers that were added to the queue. */
  function More(q: seq<Desc>, bufs: seq<nat>, mem: seq<Packet>): seq<Desc>
    requires Below(bufs, |mem|)
  {
    if |q| <= |bufs| then q + seq(|bufs| - |q|, i requires 0 <= i < |bufs| - |q| =>
                                  Desc(NET_BUFFER_SIZE * bufs[|q| + i], |Bytes(mem[bufs[|q| + i]])|))
    else q
  }

  /** What the client offers goes to the end of its free queue. */
  function Offered(q: seq<Desc>, n: nat, offers: nat -> Desc): seq<Desc>
  {
    if |q| <= n then q + seq(n - |q|, i requires 0 <= i < n - |q| => offers(i)) else q
  }

  /** The copier's queues after others have acted. */
  function After(cfg: Config, me: nat, s': State, q: Queues, offers: nat -> Desc): Queues
    requires Shaped(cfg, s') && me < |cfg.macs|
  {
    Queues(More(q.virtActive, s'.cliActive[me], s'.w.mem), Last(q.virtFree, |s'.cliFree[me]|),
           Offered(q.cliFree, s'.w.own[me].offered, offers), Last(q.cliActive, s'.w.own[me].waiting))
  }

  lemma SuffixOf<T>(a: seq<T>, b: seq<T>, n: nat)
    requires IsSuffix(a, b) && n <= |a|
    ensures IsSuffix(Last(a, n), b)
  {
    assert b[|b| - n..] == b[|b| - |a|..][|a| - n..];
  }

  lemma MatchesAfter(cfg: Config, me: nat, s: State, s': State, q: Queues, device: seq<seq<nat>>, offers: nat -> Desc)
    requires Shaped(cfg, s) && Shaped(cfg, s') && me < |cfg.macs| && Rely(cfg, me, s, s')
    requires Matches(cfg, me, s, q, device) && AllFit(s'.w.mem)
    ensures Matches(cfg, me, s', After(cfg, me, s', q, offers), ImageOf(s'.w.mem))
  {
    var q' := After(cfg, me, s', q, offers);
    forall i | 0 <= i < |q'.virtActive|
      ensures q'.virtActive[i] == Desc(NET_BUFFER_SIZE * s'.cliActive[me][i], |Bytes(s'.w.mem[s'.cliActive[me][i]])|)
    {
      if i < |q.virtActive| {
        assert s'.cliActive[me][i] == s.cliActive[me][i] && Held(s, me, s.cliActive[me][i]);
      }
    }
    var n := |s.cliFree[me]| - |s'.cliFree[me]|;
    assert forall i :: 0 <= i < |s'.cliFree[me]| ==> s'.cliFree[me][i] == s.cliFree[me][n + i];
  }

  /** The oldest buffer of the virtualiser's queue is taken. */
  lemma MatchesTake(cfg: Config, me: nat, s: State, q: Queues, device: seq<seq<nat>>)
    requires cfg.Valid() && Shaped(cfg, s) && me < |cfg.macs| && Matches(cfg, me, s, q, device)
    requires Enabled(cfg, s, CopyTakeActive(me)) && q.virtActive != []
    ensures var s' := ApplyCopy(cfg, s, CopyTakeActive(me));
            Matches(cfg, me, s', q.(virtActive := q.virtActive[1..]), device) && s'.w.delivered[me] == s.w.delivered[me]
  {
  }

  lemma TakenPacket(cfg: Config, me: nat, s: State, q: Queues, device: seq<seq<nat>>)
    requires cfg.Valid() && Shaped(cfg, s) && me < |cfg.macs| && Matches(cfg, me, s, q, device)
    requires Enabled(cfg, s, CopyTakeActive(me)) && q.virtActive != []
    ensures var s', b := ApplyCopy(cfg, s, CopyTakeActive(me)), s.cliActive[me][0];
            && q.virtActive[0] == Desc(NET_BUFFER_SIZE * b, |Bytes(s.w.mem[b])|)
            && Pc(s', me) == (if Pc(s, me) == CHasRoom then CFull(b) else CReturn(b)) && s'.w.mem == s.w.mem
            && TakenBy(s', me) == TakenBy(s, me) + [s.w.mem[b]]
            && WaitingFor(s, me) == [s.w.mem[b]] + WaitingFor(s', me)
  {
    ContentsPop(s.w.mem, s.cliActive[me]);
  }

  lemma KeptAfter(cfg: Config, me: nat, s: State, s': State, q: Queues, device: seq<seq<nat>>, offers: nat -> Desc)
    requires Shaped(cfg, s) && Shaped(cfg, s') && me < |cfg.macs| && Rely(cfg, me, s, s')
             && Matches(cfg, me, s, q, device)
    ensures Pc(s', me) == Pc(s, me) && TakenBy(s', me) == TakenBy(s, me) && InHands(s', me) == InHands(s, me)
    ensures q.virtActive <= After(cfg, me, s', q, offers).virtActive
            && q.cliFree <= After(cfg, me, s', q, offers).cliFree
  {
    assert Pc(s, me).CFull? ==> Held(s, me, Pc(s, me).buf);
  }
}
