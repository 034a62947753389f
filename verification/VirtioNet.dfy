/**
 The receive half of the virtio network driver (drivers/network/virtio/ethernet.c) over a split virtqueue, section 2.7
 of VIRTIO 1.2: every buffer is given to the device as a chain of two descriptors, a header and the packet; the device
 returns chains in any order. The transmit half is the same with the queues exchanged.
 */
module VirtioNet {
  import opened Sequences

  const NUM: nat := 512              // RX_COUNT
  const INDEX_MODULUS: nat := 0x1_0000
  const BUFFER_SIZE: nat := 2048

  datatype Desc = Desc(addr: nat, len: nat, next: nat, hasNext: bool)

  /** A packet given to the device: the heads of its two descriptors, and the buffer. */
  datatype Chain = Chain(hdr: nat, pkt: nat, buf: nat)

  /**
   idle: free descriptors, in the order the index allocator hands them out. avail, held, used: chains the device has not
   fetched, has fetched, and has returned without the driver having seen it. fetched is the device's own avail counter.
   freeQ, activeQ: the driver's two queues. outside: buffers the virtualiser has.
   */
  datatype State = State(
    idle: seq<nat>, desc: seq<Desc>,
    availRing: seq<nat>, availIdx: nat, fetched: nat,
    usedRing: seq<nat>, usedIdx: nat, lastSeen: nat,
    lastDesc: int,
    freeQ: seq<nat>, activeQ: seq<nat>, outside: seq<nat>,
    avail: seq<Chain>, held: seq<Chain>, used: seq<Chain>)

  datatype Step = Provide | Fetch | Complete(k: nat) | Return | Take | Give(k: nat)

  /** virtio_avail_full_rx. */
  predicate AvailFull(s: State)
  {
    s.lastDesc >= NUM
  }

  predicate Sized(s: State)
  {
    |s.desc| == |s.availRing| == |s.usedRing| == NUM
  }

  predicate Enabled(s: State, step: Step)
  {
    match step
    case Provide => !AvailFull(s) && s.freeQ != []
    case Fetch => s.avail != []
    case Complete(k) => k < |s.held|
    case Return => s.lastSeen != s.usedIdx
    case Take => s.activeQ != []
    case Give(k) => k < |s.outside|
  }

  /** The assertions of rx_provide and rx_return at this step. */
  predicate AssertsHold(s: State, step: Step, cap: nat)
    requires Sized(s)
  {
    match step
    case Provide => |s.idle| >= 2 && s.idle[0] < NUM && s.idle[1] < NUM
    case Return =>
      var hdr := s.usedRing[s.lastSeen % NUM];
      && hdr < NUM && s.desc[hdr].hasNext && !s.desc[s.desc[hdr].next % NUM].hasNext
      && |s.activeQ| < cap
      && hdr !in s.idle && s.desc[hdr].next < NUM && s.desc[hdr].next !in s.idle && s.desc[hdr].next != hdr
      && s.lastDesc - 2 >= 0
    case _ => true
  }

  /** The body of rx_provide's loop. */
  function ProvideOne(s: State): State
    requires Sized(s) && Enabled(s, Provide) && |s.idle| >= 2 && s.idle[0] < NUM && s.idle[1] < NUM
  {
    var hdr, pkt, buf := s.idle[0], s.idle[1], s.freeQ[0];
    s.(idle := s.idle[2..],
       desc := s.desc[hdr := Desc(hdr, 12, pkt, true)][pkt := Desc(buf, BUFFER_SIZE, s.desc[pkt].next, false)],
       availRing := s.availRing[s.availIdx % NUM := hdr],
       availIdx := (s.availIdx + 1) % INDEX_MODULUS,
       lastDesc := s.lastDesc + 2,
       freeQ := s.freeQ[1..],
       avail := s.avail + [Chain(hdr, pkt, buf)])
  }

  /** The body of rx_return's loop. */
  function ReturnOne(s: State): State
    requires Sized(s) && s.used != [] && s.usedRing[s.lastSeen % NUM] < NUM
  {
    var hdr := s.usedRing[s.lastSeen % NUM];
    var next := s.desc[hdr].next;
    s.(idle := s.idle + [hdr, next],
       lastSeen := (s.lastSeen + 1) % INDEX_MODULUS,
       lastDesc := s.lastDesc - 2,
       activeQ := s.activeQ + [s.desc[next % NUM].addr],
       used := s.used[1..])
  }

  /** Both descriptors become idle one after the other. */
  lemma ReturnedOne(s: State)
    requires Sized(s) && s.used != [] && s.usedRing[s.lastSeen % NUM] < NUM
    ensures var hdr := s.usedRing[s.lastSeen % NUM];
            var next := s.desc[hdr].next;
            ReturnOne(s) == s.(activeQ := s.activeQ + [s.desc[next % NUM].addr], idle := s.idle + [hdr] + [next],
                               lastDesc := s.lastDesc - 2, lastSeen := (s.lastSeen + 1) % INDEX_MODULUS,
                               used := s.used[1..])
  {
    var hdr := s.usedRing[s.lastSeen % NUM];
    assert s.idle + [hdr] + [s.desc[hdr].next] == s.idle + [hdr, s.desc[hdr].next];
  }

  /** The device reads the next entry of the avail ring. */
  function FetchOne(s: State): State
    requires s.avail != []
  {
    s.(fetched := (s.fetched + 1) % INDEX_MODULUS, avail := s.avail[1..], held := s.held + [s.avail[0]])
  }

  /** The device returns one of the chains it has. */
  function CompleteOne(s: State, k: nat): State
    requires Sized(s) && k < |s.held|
  {
    s.(usedRing := s.usedRing[s.usedIdx % NUM := s.held[k].hdr],
       usedIdx := (s.usedIdx + 1) % INDEX_MODULUS,
       held := Drop(s.held, k),
       used := s.used + [s.held[k]])
  }

  // ---- The invariant -----------------------------------------------------------------------------------

  /** The descriptors of these chains. */
  function Ids(cs: seq<Chain>): seq<nat>
  {
    if cs == [] then [] else Ids(cs[..|cs| - 1]) + [cs[|cs| - 1].hdr, cs[|cs| - 1].pkt]
  }

  function Bufs(cs: seq<Chain>): (r: seq<nat>)
    ensures |r| == |cs|
  {
    if cs == [] then [] else Bufs(cs[..|cs| - 1]) + [cs[|cs| - 1].buf]
  }

  /** The device finds the header, of 12 bytes, linked to the packet, which is the buffer, of 2048 bytes. */
  predicate Linked(desc: seq<Desc>, c: Chain)
  {
    && c.hdr < |desc| && c.pkt < |desc|
    && desc[c.hdr].hasNext && desc[c.hdr].next == c.pkt
    && !desc[c.pkt].hasNext && desc[c.pkt].addr == c.buf
    && desc[c.hdr].len == 12 && desc[c.pkt].len == 2048
  }

  predicate AllLinked(desc: seq<Desc>, cs: seq<Chain>)
  {
    forall i :: 0 <= i < |cs| ==> Linked(desc, cs[i])
  }

  /** The ring holds the heads of these chains, from a counter on. */
  predicate OnRing(ring: seq<nat>, from: nat, to: nat, cs: seq<Chain>)
  {
    && |ring| == NUM && from < INDEX_MODULUS && to == (from + |cs|) % INDEX_MODULUS && |cs| <= NUM
    && forall i :: 0 <= i < |cs| ==> ring[(from + i) % NUM] == cs[i].hdr
  }

  /** How often a descriptor is idle or part of a chain. */
  function Uses(s: State, id: nat): nat
  {
    Tally(s.idle, id) + Tally(Ids(s.avail), id) + Tally(Ids(s.held), id) + Tally(Ids(s.used), id)
  }

  /** How often a buffer is anywhere. */
  function Places(s: State, b: nat): nat
  {
    Tally(s.freeQ, b) + Tally(s.activeQ, b) + Tally(s.outside, b)
    + Tally(Bufs(s.avail), b) + Tally(Bufs(s.held), b) + Tally(Bufs(s.used), b)
  }

  function InFlight(s: State): nat
  {
    |s.avail| + |s.held| + |s.used|
  }

  ghost predicate IdsOnce(s: State)
  {
    forall id: nat :: Uses(s, id) == if id < NUM then 1 else 0
  }

  ghost predicate BufsOnce(s: State, total: seq<nat>)
  {
    forall b: nat :: Places(s, b) == Tally(total, b)
  }

  predicate Counted(s: State, total: seq<nat>)
  {
    && |s.idle| + 2 * InFlight(s) == NUM && s.lastDesc == 2 * InFlight(s)
    && |s.freeQ| + |s.activeQ| + |s.outside| + InFlight(s) == |total|
  }

  ghost predicate Inv(s: State, total: seq<nat>)
  {
    && Sized(s) && Counted(s, total) && IdsOnce(s) && BufsOnce(s, total)
    && AllLinked(s.desc, s.avail) && AllLinked(s.desc, s.held) && AllLinked(s.desc, s.used)
    && OnRing(s.availRing, s.fetched, s.availIdx, s.avail)
    && OnRing(s.usedRing, s.lastSeen, s.usedIdx, s.used)
  }

  // ---- Lists of chains -----------------------------------------------------------------------------------

  lemma ChainsPush(cs: seq<Chain>, c: Chain)
    ensures Ids(cs + [c]) == Ids(cs) + [c.hdr, c.pkt] && Bufs(cs + [c]) == Bufs(cs) + [c.buf]
  {
    assert (cs + [c])[..|cs|] == cs;
  }

  lemma {:induction false} ChainsAppend(a: seq<Chain>, b: seq<Chain>)
    ensures Ids(a + b) == Ids(a) + Ids(b) && Bufs(a + b) == Bufs(a) + Bufs(b)
  {
    if b == [] {
      assert a + b == a;
    } else {
      var init, c := b[..|b| - 1], b[|b| - 1];
      ChainsAppend(a, init);
      assert a + b == (a + init) + [c];
      ChainsPush(a + init, c);
      AppendAssociates(Ids(a), Ids(init), [c.hdr, c.pkt]);
      AppendAssociates(Bufs(a), Bufs(init), [c.buf]);
    }
  }

  lemma ChainsOne(c: Chain)
    ensures Ids([c]) == [c.hdr, c.pkt] && Bufs([c]) == [c.buf]
  {
    assert [c][..0] == [];
  }

  /** One chain more or less, wherever in the list. */
  lemma ChainsRemove(cs: seq<Chain>, k: nat)
    requires k < |cs|
    ensures forall id: nat :: Tally(Ids(cs), id) == Tally(Ids(Drop(cs, k)), id) + Tally([cs[k].hdr, cs[k].pkt], id)
    ensures forall b: nat :: Tally(Bufs(cs), b) == Tally(Bufs(Drop(cs, k)), b) + Tally([cs[k].buf], b)
  {
    assert cs == cs[..k] + ([cs[k]] + cs[k + 1..]);
    ChainsAppend(cs[..k], [cs[k]] + cs[k + 1..]);
    ChainsAppend([cs[k]], cs[k + 1..]);
    ChainsAppend(cs[..k], cs[k + 1..]);
    ChainsOne(cs[k]);
  }

  lemma {:induction false} IdsContain(cs: seq<Chain>, k: nat)
    requires k < |cs|
    ensures Tally(Ids(cs), cs[k].hdr) > 0 && Tally(Ids(cs), cs[k].pkt) > 0
    ensures cs[k].hdr == cs[k].pkt ==> Tally(Ids(cs), cs[k].hdr) >= 2
  {
    ChainsRemove(cs, k);
  }

  lemma TallyOne(q: seq<nat>, i: nat)
    requires i < |q|
    ensures Tally(q, q[i]) > 0
  {
    assert q[i] in multiset(q);
  }

  lemma TallyTwo(q: seq<nat>, i: nat, j: nat)
    requires i < j < |q| && q[i] == q[j]
    ensures Tally(q, q[i]) >= 2
  {
    assert q == q[..i] + [q[i]] + q[i + 1..j] + [q[j]] + q[j + 1..];
  }

  // ---- Rings ---------------------------------------------------------------------------------------------

  lemma RingPush(ring: seq<nat>, from: nat, to: nat, cs: seq<Chain>, c: Chain)
    requires OnRing(ring, from, to, cs) && |cs| < NUM
    ensures OnRing(ring[to % NUM := c.hdr], from, (to + 1) % INDEX_MODULUS, cs + [c])
  {
    var ring', cs' := ring[to % NUM := c.hdr], cs + [c];
    assert to % NUM == (from + |cs|) % NUM;
    forall i | 0 <= i < |cs'|
      ensures ring'[(from + i) % NUM] == cs'[i].hdr
    {
      if i < |cs| {
        PlacesApart(from, i, |cs|);
      }
    }
  }

  lemma PlacesApart(from: nat, i: nat, j: nat)
    requires i < j < i + NUM
    ensures (from + i) % NUM != (from + j) % NUM
  {
  }

  /** Wrapping a counter at 65536 does not disturb its place in a ring of 512. */
  lemma WrapHarmless(from: nat, i: nat)
    requires from < INDEX_MODULUS
    ensures ((from + 1) % INDEX_MODULUS + i) % NUM == (from + (i + 1)) % NUM
  {
    if from + 1 == INDEX_MODULUS {
      assert (i + INDEX_MODULUS) % NUM == i % NUM;
    }
  }

  lemma RingPop(ring: seq<nat>, from: nat, to: nat, cs: seq<Chain>)
    requires OnRing(ring, from, to, cs) && cs != []
    ensures ring[from % NUM] == cs[0].hdr && OnRing(ring, (from + 1) % INDEX_MODULUS, to, cs[1..])
  {
    assert ring[(from + 0) % NUM] == cs[0].hdr;
    var from', cs' := (from + 1) % INDEX_MODULUS, cs[1..];
    forall i | 0 <= i < |cs'|
      ensures ring[(from' + i) % NUM] == cs'[i].hdr
    {
      assert ring[(from + (i + 1)) % NUM] == cs[i + 1].hdr;
      WrapHarmless(from, i);
    }
  }

  /** Counters differ exactly when chains are waiting, through any number of wraps: 512 divides 65536. */
  lemma RingEmpty(ring: seq<nat>, from: nat, to: nat, cs: seq<Chain>)
    requires OnRing(ring, from, to, cs)
    ensures from == to <==> cs == []
  {
  }

  // ---- Descriptors ---------------------------------------------------------------------------------------

  /** An idle descriptor is in no chain. */
  lemma IdleApart(s: State, total: seq<nat>, k: nat, cs: seq<Chain>, i: nat)
    requires IdsOnce(s) && k < |s.idle| && i < |cs| && (cs == s.avail || cs == s.held || cs == s.used)
    ensures cs[i].hdr != s.idle[k] && cs[i].pkt != s.idle[k]
  {
    TallyOne(s.idle, k);
    IdsContain(cs, i);
    assert Uses(s, s.idle[k]) <= 1;
  }

  lemma IdleInRange(s: State, k: nat)
    requires IdsOnce(s) && k < |s.idle|
    ensures s.idle[k] < NUM
  {
    TallyOne(s.idle, k);
    assert Uses(s, s.idle[k]) > 0;
  }

  lemma IdleDistinct(s: State)
    requires IdsOnce(s) && |s.idle| >= 2
    ensures s.idle[0] != s.idle[1]
  {
    assert Uses(s, s.idle[0]) <= 1;
    if s.idle[0] == s.idle[1] {
      TallyTwo(s.idle, 0, 1);
    }
  }

  /** With fewer than 512 descriptors in use, two are left: allocation never fails. */
  lemma ProvideSafe(s: State, total: seq<nat>)
    requires Inv(s, total) && Enabled(s, Provide)
    ensures |s.idle| >= 2 && s.idle[0] < NUM && s.idle[1] < NUM && s.idle[0] != s.idle[1] && |s.avail| < NUM
  {
    IdleInRange(s, 0);
    IdleInRange(s, 1);
    IdleDistinct(s);
  }

  /** Overwriting idle descriptors leaves every chain linked. */
  lemma StillLinked(s: State, total: seq<nat>, desc: seq<Desc>, cs: seq<Chain>)
    requires Inv(s, total) && |s.idle| >= 2 && (cs == s.avail || cs == s.held || cs == s.used) && |desc| == NUM
    requires forall id: nat :: id < NUM && id != s.idle[0] && id != s.idle[1] ==> desc[id] == s.desc[id]
    ensures AllLinked(desc, cs)
  {
    forall i | 0 <= i < |cs|
      ensures Linked(desc, cs[i])
    {
      IdleApart(s, total, 0, cs, i);
      IdleApart(s, total, 1, cs, i);
      assert Linked(s.desc, cs[i]);
    }
  }

  lemma ProvideIds(s: State)
    requires Sized(s) && IdsOnce(s) && |s.idle| >= 2 && Enabled(s, Provide) && s.idle[0] < NUM && s.idle[1] < NUM
    ensures IdsOnce(ProvideOne(s))
  {
    var c := Chain(s.idle[0], s.idle[1], s.freeQ[0]);
    ChainsPush(s.avail, c);
    assert s.idle == [c.hdr, c.pkt] + s.idle[2..];
    forall id: nat
      ensures Uses(ProvideOne(s), id) == Uses(s, id)
    {
    }
    forall id: nat
      ensures Uses(ProvideOne(s), id) == if id < NUM then 1 else 0
    {
      assert Uses(s, id) == if id < NUM then 1 else 0;
    }
  }

  lemma ProvideBufs(s: State, total: seq<nat>)
    requires Sized(s) && BufsOnce(s, total) && |s.idle| >= 2 && Enabled(s, Provide) && s.idle[0] < NUM
             && s.idle[1] < NUM
    ensures BufsOnce(ProvideOne(s), total)
  {
    ChainsPush(s.avail, Chain(s.idle[0], s.idle[1], s.freeQ[0]));
    assert s.freeQ == [s.freeQ[0]] + s.freeQ[1..];
    forall b: nat
      ensures Places(ProvideOne(s), b) == Tally(total, b)
    {
      assert Places(s, b) == Tally(total, b);
    }
  }

  lemma ProvideKeeps(s: State, total: seq<nat>)
    requires Inv(s, total) && Enabled(s, Provide)
    ensures |s.idle| >= 2 && s.idle[0] < NUM && s.idle[1] < NUM && Inv(ProvideOne(s), total)
  {
    ProvideSafe(s, total);
    var s', c := ProvideOne(s), Chain(s.idle[0], s.idle[1], s.freeQ[0]);
    ProvideIds(s);
    ProvideBufs(s, total);
    RingPush(s.availRing, s.fetched, s.availIdx, s.avail, c);
    StillLinked(s, total, s'.desc, s.avail);
    StillLinked(s, total, s'.desc, s.held);
    StillLinked(s, total, s'.desc, s.used);
    assert Linked(s'.desc, c);
  }

  // ---- The other steps -------------------------------------------------------------------------------------

  lemma SameUses(s: State, s': State)
    requires IdsOnce(s) && forall id: nat :: Uses(s', id) == Uses(s, id)
    ensures IdsOnce(s')
  {
    forall id: nat
      ensures Uses(s', id) == if id < NUM then 1 else 0
    {
      assert Uses(s, id) == if id < NUM then 1 else 0;
    }
  }

  lemma SamePlaces(s: State, s': State, total: seq<nat>)
    requires BufsOnce(s, total) && forall b: nat :: Places(s', b) == Places(s, b)
    ensures BufsOnce(s', total)
  {
    forall b: nat
      ensures Places(s', b) == Tally(total, b)
    {
      assert Places(s, b) == Tally(total, b);
    }
  }

  lemma FetchMoves(s: State, total: seq<nat>)
    requires IdsOnce(s) && BufsOnce(s, total) && s.avail != []
    ensures IdsOnce(FetchOne(s)) && BufsOnce(FetchOne(s), total)
  {
    var s', c := FetchOne(s), s.avail[0];
    ChainsRemove(s.avail, 0);
    assert Drop(s.avail, 0) == s.avail[1..];
    ChainsPush(s.held, c);
    assert forall id: nat :: Uses(s', id) == Uses(s, id);
    SameUses(s, s');
    assert forall b: nat :: Places(s', b) == Places(s, b);
    SamePlaces(s, s', total);
  }

  lemma FetchKeeps(s: State, total: seq<nat>)
    requires Inv(s, total) && Enabled(s, Fetch)
    ensures Inv(FetchOne(s), total)
  {
    RingPop(s.availRing, s.fetched, s.availIdx, s.avail);
    FetchMoves(s, total);
    assert Linked(s.desc, s.avail[0]);
  }

  lemma CompleteMoves(s: State, total: seq<nat>, k: nat)
    requires Sized(s) && IdsOnce(s) && BufsOnce(s, total) && k < |s.held|
    ensures IdsOnce(CompleteOne(s, k)) && BufsOnce(CompleteOne(s, k), total)
  {
    var s' := CompleteOne(s, k);
    ChainsRemove(s.held, k);
    ChainsPush(s.used, s.held[k]);
    assert forall id: nat :: Uses(s', id) == Uses(s, id);
    SameUses(s, s');
    assert forall b: nat :: Places(s', b) == Places(s, b);
    SamePlaces(s, s', total);
  }

  lemma CompleteKeeps(s: State, total: seq<nat>, k: nat)
    requires Inv(s, total) && Enabled(s, Complete(k))
    ensures Inv(CompleteOne(s, k), total)
  {
    RingPush(s.usedRing, s.lastSeen, s.usedIdx, s.used, s.held[k]);
    CompleteMoves(s, total, k);
    assert Linked(s.desc, s.held[k]);
    assert AllLinked(s.desc, Drop(s.held, k));
  }

  /** What the driver finds at its place in the used ring: the oldest chain returned, still linked, not idle. */
  lemma ReturnSafe(s: State, total: seq<nat>)
    requires Inv(s, total) && Enabled(s, Return)
    ensures s.used != [] && s.usedRing[s.lastSeen % NUM] == s.used[0].hdr < NUM
    ensures Linked(s.desc, s.used[0]) && s.used[0].hdr != s.used[0].pkt
    ensures s.used[0].hdr !in s.idle && s.used[0].pkt !in s.idle && s.lastDesc >= 2
  {
    RingEmpty(s.usedRing, s.lastSeen, s.usedIdx, s.used);
    RingPop(s.usedRing, s.lastSeen, s.usedIdx, s.used);
    assert Linked(s.desc, s.used[0]);
    forall k | 0 <= k < |s.idle|
      ensures s.idle[k] != s.used[0].hdr && s.idle[k] != s.used[0].pkt
    {
      IdleApart(s, total, k, s.used, 0);
    }
  }

  lemma ReturnMoves(s: State, total: seq<nat>)
    requires Sized(s) && IdsOnce(s) && BufsOnce(s, total) && s.used != []
    requires s.usedRing[s.lastSeen % NUM] == s.used[0].hdr && Linked(s.desc, s.used[0])
    ensures ReturnOne(s).activeQ == s.activeQ + [s.used[0].buf]
    ensures IdsOnce(ReturnOne(s)) && BufsOnce(ReturnOne(s), total)
  {
    ReturnIds(s);
    ReturnBufs(s, total);
  }

  lemma ReturnIds(s: State)
    requires Sized(s) && IdsOnce(s) && s.used != []
    requires s.usedRing[s.lastSeen % NUM] == s.used[0].hdr && Linked(s.desc, s.used[0])
    ensures IdsOnce(ReturnOne(s))
  {
    var s', c := ReturnOne(s), s.used[0];
    ChainsRemove(s.used, 0);
    assert Drop(s.used, 0) == s.used[1..];
    assert s'.idle == s.idle + [c.hdr, c.pkt];
    assert forall id: nat :: Uses(s', id) == Uses(s, id);
    SameUses(s, s');
  }

  lemma ReturnBufs(s: State, total: seq<nat>)
    requires Sized(s) && BufsOnce(s, total) && s.used != []
    requires s.usedRing[s.lastSeen % NUM] == s.used[0].hdr && Linked(s.desc, s.used[0])
    ensures BufsOnce(ReturnOne(s), total)
  {
    var s', c := ReturnOne(s), s.used[0];
    ChainsRemove(s.used, 0);
    assert Drop(s.used, 0) == s.used[1..];
    assert s'.activeQ == s.activeQ + [c.buf];
    assert forall b: nat :: Places(s', b) == Places(s, b);
    SamePlaces(s, s', total);
  }

  lemma ReturnKeeps(s: State, total: seq<nat>)
    requires Inv(s, total) && Enabled(s, Return)
    ensures s.used != [] && s.usedRing[s.lastSeen % NUM] < NUM
    ensures Inv(ReturnOne(s), total) && ReturnOne(s).activeQ == s.activeQ + [s.used[0].buf]
  {
    ReturnSafe(s, total);
    RingPop(s.usedRing, s.lastSeen, s.usedIdx, s.used);
    ReturnMoves(s, total);
  }

  function TakeOne(s: State): State
    requires s.activeQ != []
  {
    s.(activeQ := s.activeQ[1..], outside := s.outside + [s.activeQ[0]])
  }

  function GiveOne(s: State, k: nat): State
    requires k < |s.outside|
  {
    s.(outside := Drop(s.outside, k), freeQ := s.freeQ + [s.outside[k]])
  }

  lemma TakeMoves(s: State, total: seq<nat>)
    requires IdsOnce(s) && BufsOnce(s, total) && s.activeQ != []
    ensures IdsOnce(TakeOne(s)) && BufsOnce(TakeOne(s), total)
  {
    var s' := TakeOne(s);
    TallyPop(s.activeQ);
    TallyPush(s.outside, s.activeQ[0]);
    assert forall b: nat :: Places(s', b) == Places(s, b);
    SamePlaces(s, s', total);
    SameUses(s, s');
  }

  lemma TakeKeeps(s: State, total: seq<nat>)
    requires Inv(s, total) && Enabled(s, Take)
    ensures Inv(TakeOne(s), total)
  {
    TakeMoves(s, total);
  }

  lemma GiveMoves(s: State, total: seq<nat>, k: nat)
    requires IdsOnce(s) && BufsOnce(s, total) && k < |s.outside|
    ensures IdsOnce(GiveOne(s, k)) && BufsOnce(GiveOne(s, k), total)
  {
    var s' := GiveOne(s, k);
    assert s.outside == s.outside[..k] + [s.outside[k]] + s.outside[k + 1..];
    TallyPush(s.freeQ, s.outside[k]);
    assert forall b: nat :: Places(s', b) == Places(s, b);
    SamePlaces(s, s', total);
    SameUses(s, s');
  }

  lemma GiveKeeps(s: State, total: seq<nat>, k: nat)
    requires Inv(s, total) && Enabled(s, Give(k))
    ensures Inv(GiveOne(s, k), total)
  {
    GiveMoves(s, total, k);
  }

  // ---- Runs ------------------------------------------------------------------------------------------------

  /** Names the places where a proof looks into a state that a run leads to. */
  predicate Probed(k: int, s: State)
  {
    true
  }

  /** The invariant, out of sight of proofs that do not need it. */
  ghost predicate Sound(s: State, total: seq<nat>)
  {
    forall k: int {:trigger Probed(k, s)} :: Probed(k, s) ==> Inv(s, total)
  }

  lemma SoundMeans(s: State, total: seq<nat>)
    ensures Sound(s, total) <==> Inv(s, total)
  {
    assert Probed(0, s);
  }

  /** A step, if it can be taken. */
  function Apply(s: State, step: Step, ghost total: seq<nat>): (s': State)
    requires Sound(s, total)
    ensures Sound(s', total)
  {
    SoundMeans(s, total);
    if !Enabled(s, step) then s else
    match step
    case Provide => ProvideKeeps(s, total); SoundMeans(ProvideOne(s), total); ProvideOne(s)
    case Fetch => FetchKeeps(s, total); SoundMeans(FetchOne(s), total); FetchOne(s)
    case Complete(k) => CompleteKeeps(s, total, k); SoundMeans(CompleteOne(s, k), total); CompleteOne(s, k)
    case Return => ReturnKeeps(s, total); SoundMeans(ReturnOne(s), total); ReturnOne(s)
    case Take => TakeKeeps(s, total); SoundMeans(TakeOne(s), total); TakeOne(s)
    case Give(k) => GiveKeeps(s, total, k); SoundMeans(GiveOne(s, k), total); GiveOne(s, k)
  }

  function Run(s: State, steps: seq<Step>, ghost total: seq<nat>): (s': State)
    requires Sound(s, total)
    ensures Sound(s', total)
  {
    if steps == [] then s else Apply(Run(s, steps[..|steps| - 1], total), steps[|steps| - 1], total)
  }

  lemma {:induction false} RunAppend(s: State, a: seq<Step>, b: seq<Step>, total: seq<nat>)
    requires Sound(s, total)
    ensures Run(s, a + b, total) == Run(Run(s, a, total), b, total)
  {
    if b == [] {
      assert a + b == a;
    } else {
      RunAppend(s, a, b[..|b| - 1], total);
      assert (a + b)[..|a + b| - 1] == a + b[..|b| - 1];
    }
  }

  // What moves at a step, if anything: a buffer to the device, one back from it, one to the driver's active queue and
  // one out of it, one to its free queue.

  function ProvidedBy(s: State, step: Step): seq<nat>
  {
    if step.Provide? && Enabled(s, step) then [s.freeQ[0]] else []
  }

  function CompletedBy(s: State, step: Step): seq<nat>
  {
    if step.Complete? && Enabled(s, step) then [s.held[step.k].buf] else []
  }

  function PassedBy(s: State, step: Step): seq<nat>
  {
    if step.Return? && Enabled(s, step) && s.used != [] then [s.used[0].buf] else []
  }

  function TakenBy(s: State, step: Step): seq<nat>
  {
    if step.Take? && Enabled(s, step) then [s.activeQ[0]] else []
  }

  function GivenBy(s: State, step: Step): seq<nat>
  {
    if step.Give? && Enabled(s, step) then [s.outside[step.k]] else []
  }

  /** What moved in a run, in order. */
  ghost function MovedIn(s: State, steps: seq<Step>, total: seq<nat>, moves: (State, Step) -> seq<nat>): seq<nat>
    requires Sound(s, total)
  {
    if steps == [] then []
    else
      var init, last := steps[..|steps| - 1], steps[|steps| - 1];
      MovedIn(s, init, total, moves) + moves(Run(s, init, total), last)
  }

  /** The buffers given to the device in a run, in order. */
  ghost function ProvidedIn(s: State, steps: seq<Step>, total: seq<nat>): seq<nat>
    requires Sound(s, total)
  {
    MovedIn(s, steps, total, ProvidedBy)
  }

  /** The buffers passed on to the virtualiser in a run, in order. */
  ghost function PassedIn(s: State, steps: seq<Step>, total: seq<nat>): seq<nat>
    requires Sound(s, total)
  {
    MovedIn(s, steps, total, PassedBy)
  }

  lemma MovedOne(s: State, a: seq<Step>, step: Step, total: seq<nat>, moves: (State, Step) -> seq<nat>)
    requires Sound(s, total)
    ensures MovedIn(s, a + [step], total, moves) == MovedIn(s, a, total, moves) + moves(Run(s, a, total), step)
  {
    assert (a + [step])[..|a|] == a;
  }

  lemma RunOne(s: State, a: seq<Step>, step: Step, total: seq<nat>)
    requires Sound(s, total)
    ensures Run(s, a + [step], total) == Apply(Run(s, a, total), step, total)
  {
    assert (a + [step])[..|a|] == a;
  }

  lemma {:induction false} OthersMoveNothing(s: State, a: seq<Step>, b: seq<Step>, total: seq<nat>)
    requires Sound(s, total) && ByOthers(b)
    ensures ProvidedIn(s, a + b, total) == ProvidedIn(s, a, total) && PassedIn(s, a + b, total) == PassedIn(s, a, total)
  {
    if b == [] {
      assert a + b == a;
    } else {
      var init, last := b[..|b| - 1], b[|b| - 1];
      OthersMoveNothing(s, a, init, total);
      AppendAssociates(a, init, [last]);
      assert b == init + [last];
      MovedOne(s, a + init, last, total, ProvidedBy);
      MovedOne(s, a + init, last, total, PassedBy);
    }
  }

  /** What was there and what comes is what goes and what is left. */
  predicate InOrder(s: State, step: Step, s': State)
  {
    && s.freeQ + GivenBy(s, step) == ProvidedBy(s, step) + s'.freeQ
    && s.activeQ + PassedBy(s, step) == TakenBy(s, step) + s'.activeQ
    && Bufs(s.used) + CompletedBy(s, step) == PassedBy(s, step) + Bufs(s'.used)
  }

  lemma ReturnInOrder(s: State, total: seq<nat>)
    requires Inv(s, total) && Enabled(s, Return)
    ensures Sized(s) && s.used != [] && s.usedRing[s.lastSeen % NUM] < NUM && InOrder(s, Return, ReturnOne(s))
  {
    ReturnSafe(s, total);
    BufsFirst(s.used);
  }

  lemma CompleteInOrder(s: State, k: nat)
    requires Sized(s) && Enabled(s, Complete(k))
    ensures InOrder(s, Complete(k), CompleteOne(s, k))
  {
    ChainsPush(s.used, s.held[k]);
  }

  lemma StepInOrder(s: State, step: Step, total: seq<nat>)
    requires Sound(s, total)
    ensures InOrder(s, step, Apply(s, step, total))
  {
    SoundMeans(s, total);
    if Enabled(s, step) {
      match step {
        case Return => ReturnInOrder(s, total);
        case Complete(k) => CompleteInOrder(s, k);
        case _ => OtherInOrder(s, step, total);
      }
    }
  }

  lemma OtherInOrder(s: State, step: Step, total: seq<nat>)
    requires Sound(s, total) && Enabled(s, step) && !step.Return? && !step.Complete?
    ensures InOrder(s, step, Apply(s, step, total))
  {
  }

  /**
   In every run, buffers go to the device in the order they were given to the driver, and to the virtualiser in the
   order the device returned them: what was there and what came is what went and what is left.
   */
  lemma {:induction false} MovedAsTheyCame(s: State, steps: seq<Step>, total: seq<nat>)
    requires Sound(s, total)
    ensures var s' := Run(s, steps, total);
            && s.freeQ + MovedIn(s, steps, total, GivenBy) == ProvidedIn(s, steps, total) + s'.freeQ
            && s.activeQ + PassedIn(s, steps, total) == MovedIn(s, steps, total, TakenBy) + s'.activeQ
            && Bufs(s.used) + MovedIn(s, steps, total, CompletedBy) == PassedIn(s, steps, total) + Bufs(s'.used)
  {
    if steps != [] {
      var init, last := steps[..|steps| - 1], steps[|steps| - 1];
      MovedAsTheyCame(s, init, total);
      var t := Run(s, init, total);
      var s' := Apply(t, last, total);
      StepInOrder(t, last, total);
      OneMoreInOrder(s.freeQ, MovedIn(s, init, total, GivenBy), ProvidedIn(s, init, total), t.freeQ,
                     GivenBy(t, last), ProvidedBy(t, last), s'.freeQ);
      OneMoreInOrder(s.activeQ, PassedIn(s, init, total), MovedIn(s, init, total, TakenBy), t.activeQ,
                     PassedBy(t, last), TakenBy(t, last), s'.activeQ);
      OneMoreInOrder(Bufs(s.used), MovedIn(s, init, total, CompletedBy), PassedIn(s, init, total), Bufs(t.used),
                     CompletedBy(t, last), PassedBy(t, last), Bufs(s'.used));
    }
  }

  lemma OtherAdds(s: State, step: Step, total: seq<nat>)
    requires Sound(s, total) && !step.Provide? && !step.Return?
    ensures s.used <= Apply(s, step, total).used && Apply(s, step, total).lastSeen == s.lastSeen
  {
  }

  /** Others only add to what the device has returned, and leave the driver's place alone. */
  lemma {:induction false} OthersAdd(s: State, steps: seq<Step>, total: seq<nat>)
    requires Sound(s, total) && ByOthers(steps)
    ensures s.used <= Run(s, steps, total).used && Run(s, steps, total).lastSeen == s.lastSeen
  {
    if steps != [] {
      var init, last := steps[..|steps| - 1], steps[|steps| - 1];
      OthersAdd(s, init, total);
      var t := Run(s, init, total);
      OtherAdds(t, last, total);
      assert Run(s, steps, total) == Apply(t, last, total);
    }
  }

  /** Names the places where a proof looks into a handler's run. */
  predicate Inspected(k: int, s: State, trace: seq<Step>)
  {
    true
  }

  /** This run led from one state to the other, giving the device and the virtualiser these buffers. */
  ghost predicate Led(s0: State, trace: seq<Step>, s: State, provided: seq<nat>, passed: seq<nat>, total: seq<nat>)
  {
    forall k: int {:trigger Inspected(k, s, trace)} :: Inspected(k, s, trace) ==>
        LedSo(s0, trace, s, provided, passed, total)
  }

  ghost predicate LedSo(s0: State, trace: seq<Step>, s: State, provided: seq<nat>, passed: seq<nat>, total: seq<nat>)
  {
    && Sound(s0, total) && s == Run(s0, trace, total)
    && provided == ProvidedIn(s0, trace, total) && passed == PassedIn(s0, trace, total)
  }

  lemma LedMeans(s0: State, trace: seq<Step>, s: State, provided: seq<nat>, passed: seq<nat>, total: seq<nat>)
    ensures Led(s0, trace, s, provided, passed, total) <==> LedSo(s0, trace, s, provided, passed, total)
  {
    assert Inspected(0, s, trace);
  }

  lemma LedFirst(s: State, total: seq<nat>)
    requires Sound(s, total)
    ensures Led(s, [], s, [], [], total)
  {
    LedMeans(s, [], s, [], [], total);
  }

  lemma LedOwn(s0: State, trace: seq<Step>, s: State, provided: seq<nat>, passed: seq<nat>, step: Step, total: seq<nat>)
    requires Led(s0, trace, s, provided, passed, total) && Sound(s, total)
    ensures Led(s0, trace + [step], Apply(s, step, total), provided + ProvidedBy(s, step), passed + PassedBy(s, step),
              total)
  {
    LedMeans(s0, trace, s, provided, passed, total);
    RunOne(s0, trace, step, total);
    MovedOne(s0, trace, step, total, ProvidedBy);
    MovedOne(s0, trace, step, total, PassedBy);
    LedMeans(s0, trace + [step], Apply(s, step, total), provided + ProvidedBy(s, step), passed + PassedBy(s, step),
             total);
  }

  lemma LedOthers(s0: State, trace: seq<Step>, s: State, provided: seq<nat>, passed: seq<nat>, steps: seq<Step>,
                  total: seq<nat>)
    requires Led(s0, trace, s, provided, passed, total) && Sound(s, total) && ByOthers(steps)
    ensures Led(s0, trace + steps, Run(s, steps, total), provided, passed, total)
  {
    LedMeans(s0, trace, s, provided, passed, total);
    RunAppend(s0, trace, steps, total);
    OthersMoveNothing(s0, trace, steps, total);
    LedMeans(s0, trace + steps, Run(s, steps, total), provided, passed, total);
  }

  /** All the driver does is this. */
  predicate Only(steps: seq<Step>, step: Step)
  {
    forall i :: 0 <= i < |steps| && (steps[i].Provide? || steps[i].Return?) ==> steps[i] == step
  }

  /** The counter is this many places ahead, fewer than there are descriptors. */
  predicate Apart(from: nat, left: nat, to: nat)
  {
    from < INDEX_MODULUS && left <= NUM
    && to == if from + left < INDEX_MODULUS then from + left else from + left - INDEX_MODULUS
  }

  lemma ApartStart(s: State, total: seq<nat>)
    requires Sound(s, total)
    ensures Apart(s.lastSeen, |s.used|, s.usedIdx)
  {
    SoundMeans(s, total);
  }

  lemma ApartStep(from: nat, left: nat, to: nat)
    requires Apart(from, left, to)
    ensures from == to <==> left == 0
    ensures left > 0 ==> Apart((from + 1) % INDEX_MODULUS, left - 1, to)
  {
  }

  /** With the invariant and a queue that can hold every buffer, no assertion fails. */
  lemma InvIsSafe(s: State, total: seq<nat>, step: Step, cap: nat)
    requires Inv(s, total) && Enabled(s, step) && |total| <= cap
    ensures AssertsHold(s, step, cap)
  {
    match step {
      case Provide => ProvideSafe(s, total);
      case Return => ReturnSafe(s, total);
      case _ =>
    }
  }

  /** All buffers outside, all descriptors idle. */
  function Init(total: seq<nat>): State
  {
    State(seq(NUM, i => i), Fill(NUM, Desc(0, 0, 0, false)), Fill(NUM, 0), 0, 0, Fill(NUM, 0), 0, 0, 0, [], [], total,
        [], [], [])
  }

  lemma InitInv(total: seq<nat>)
    ensures Inv(Init(total), total)
  {
    forall id: nat
      ensures Uses(Init(total), id) == if id < NUM then 1 else 0
    {
      TallyIdentity(NUM, id);
    }
  }

  /**
   However driver, device and virtualiser interleave, in whatever order the device returns chains: no assertion fails;
   the counter of descriptors in use is twice the packets in flight; every descriptor is idle or in one chain; and every
   buffer is in exactly one place.
   */
  lemma DescriptorsAccounted(total: seq<nat>, steps: seq<Step>, step: Step, cap: nat, id: nat, b: nat)
    requires |total| <= cap && id < 512
    ensures Sound(Init(total), total)
    ensures var s := Run(Init(total), steps, total);
            && Sized(s) && (Enabled(s, step) ==> AssertsHold(s, step, cap))
            && s.lastDesc == 2 * InFlight(s) == 512 - |s.idle|
            && Uses(s, id) == 1 && Places(s, b) == Tally(total, b)
  {
    InitInv(total);
    SoundMeans(Init(total), total);
    var s := Run(Init(total), steps, total);
    SoundMeans(s, total);
    assert IdsOnce(s) && BufsOnce(s, total);
    if Enabled(s, step) {
      InvIsSafe(s, total, step, cap);
    }
  }

  // ---- The handlers ------------------------------------------------------------------------------------------

  lemma {:induction false} BufsFirst(cs: seq<Chain>)
    requires cs != []
    ensures Bufs(cs) == [cs[0].buf] + Bufs(cs[1..])
  {
    assert cs == [cs[0]] + cs[1..];
    ChainsAppend([cs[0]], cs[1..]);
    ChainsOne(cs[0]);
  }

  /** The driver sees the device's counter differ from its own exactly when buffers are waiting to be passed on. */
  lemma UsedWaiting(s: State, total: seq<nat>)
    requires Sound(s, total)
    ensures (s.lastSeen != s.usedIdx <==> s.used != []) && |s.activeQ| + |s.used| <= |total|
  {
    SoundMeans(s, total);
    RingEmpty(s.usedRing, s.lastSeen, s.usedIdx, s.used);
  }

  lemma CanProvide(s: State, total: seq<nat>)
    requires Sound(s, total) && Enabled(s, Provide)
    ensures |s.idle| >= 2
  {
    SoundMeans(s, total);
    ProvideSafe(s, total);
  }

  class Driver {
    var s: State
    var signalWanted: bool
    ghost const total: seq<nat>
    const cap: nat                   // of the driver's queues

    ghost predicate Valid()
      reads this
    {
      Sound(s, total) && |total| <= cap
    }

    constructor (buffers: seq<nat>, capacity: nat)
      requires |buffers| <= capacity
      ensures Valid() && s == Init(buffers) && total == buffers && cap == capacity
    {
      s, signalWanted, total, cap := Init(buffers), false, buffers, capacity;
      new;
      InitInv(total);
      SoundMeans(s, total);
    }

    /** Device and virtualiser run. */
    method Others(steps: seq<Step>)
      requires Valid() && ByOthers(steps)
      modifies this`s
      ensures Valid() && s == Run(old(s), steps, total)
    {
      s := Run(s, steps, total);
    }

    /** ialloc_alloc: the next free descriptor. */
    method AllocDesc() returns (id: nat)
      requires s.idle != []
      modifies this`s
      ensures id == old(s).idle[0] && s == old(s).(idle := old(s).idle[1..])
    {
      id := s.idle[0];
      s := s.(idle := s.idle[1..]);
    }

    /** The body of rx_provide's loop. */
    method ProvideBuffer()
      requires Valid() && Enabled(s, Provide)
      modifies this`s
      ensures Valid() && s == Apply(old(s), Provide, total)
    {
      SoundMeans(s, total);
      ProvideSafe(s, total);
      ProvideKeeps(s, total);
      ghost var s0 := s;
      var buf := s.freeQ[0];
      s := s.(freeQ := s.freeQ[1..]);
      var hdr := AllocDesc();
      var pkt := AllocDesc();
      assert hdr < NUM && pkt < NUM;
      s := s.(desc := s.desc[hdr := Desc(hdr, 12, pkt, true)]);
      s := s.(desc := s.desc[pkt := Desc(buf, BUFFER_SIZE, s.desc[pkt].next, false)]);
      s := s.(availRing := s.availRing[s.availIdx % NUM := hdr], availIdx := (s.availIdx + 1) % INDEX_MODULUS);
      s := s.(lastDesc := s.lastDesc + 2, avail := s.avail + [Chain(hdr, pkt, buf)]);
      assert s0.idle[1..][1..] == s0.idle[2..];
      assert s == ProvideOne(s0);
    }

    /** Others act, if there is anything left of what they do. */
    method NextRound(rounds: seq<seq<Step>>, round: nat, ghost s0: State, ghost trace: seq<Step>,
                     ghost provided: seq<nat>, ghost passed: seq<nat>)
      returns (round': nat, ghost trace': seq<Step>)
      requires Valid() && round <= |rounds| && forall i :: 0 <= i < |rounds| ==> ByOthers(rounds[i])
      requires Led(s0, trace, s, provided, passed, total)
      modifies this`s
      ensures Valid() && round <= round' <= |rounds| && Led(s0, trace', s, provided, passed, total)
      ensures old(s).used <= s.used && s.lastSeen == old(s).lastSeen
      ensures forall step :: Only(trace, step) ==> Only(trace', step)
      ensures round' == round ==> round == |rounds| && s == old(s) && trace' == trace
    {
      round', trace' := round, trace;
      if round < |rounds| {
        OthersAdd(s, rounds[round], total);
        LedOthers(s0, trace, s, provided, passed, rounds[round], total);
        Others(rounds[round]);
        round', trace' := round + 1, trace + rounds[round];
      }
    }

    /** One buffer to the device. */
    method ProvideNext(ghost s0: State, ghost trace: seq<Step>, ghost provided: seq<nat>)
      requires Valid() && Enabled(s, Provide) && Led(s0, trace, s, provided, [], total)
      modifies this`s
      ensures Valid() && Led(s0, trace + [Provide], s, provided + [old(s).freeQ[0]], [], total)
      ensures s.freeQ == old(s).freeQ[1..] && Bufs(s.avail) == Bufs(old(s).avail) + [old(s).freeQ[0]]
    {
      LedOwn(s0, trace, s, provided, [], Provide, total);
      CanProvide(s, total);
      ghost var before := s;
      ProvideBuffer();
      SoundMeans(before, total);
      ChainsPush(before.avail, Chain(before.idle[0], before.idle[1], before.freeQ[0]));
    }

    /** How the handler stands: what it has given the device; left alone, that is all that happened. */
    ghost predicate Providing(s0: State, trace: seq<Step>, provided: seq<nat>, alone: bool)
      reads this
    {
      && Led(s0, trace, s, provided, [], total) && Only(trace, Provide)
      && (alone ==> trace == Fill(|provided|, Provide))
      && (alone ==> s0.freeQ == provided + s.freeQ && Bufs(s.avail) == Bufs(s0.avail) + provided)
    }

    /** The inner loop: buffers to the device until it has no descriptors, or none is left. */
    method ProvideAll(rounds: seq<seq<Step>>, first: nat, ghost s0: State, ghost trace0: seq<Step>,
                      ghost provided0: seq<nat>)
      returns (transferred: bool, round: nat, ghost trace: seq<Step>, ghost provided: seq<nat>)
      requires Valid() && first <= |rounds| && forall i :: 0 <= i < |rounds| ==> ByOthers(rounds[i])
      requires Providing(s0, trace0, provided0, rounds == [])
      modifies this`s
      ensures Valid() && first <= round <= |rounds| && Providing(s0, trace, provided, rounds == [])
      ensures (s.freeQ == [] || AvailFull(s)) && |provided0| <= |provided|
      ensures transferred <==> |provided| > |provided0|
    {
      transferred, round, trace, provided := false, first, trace0, provided0;
      while !AvailFull(s) && s.freeQ != []
        invariant Valid() && first <= round <= |rounds| && Providing(s0, trace, provided, rounds == [])
        invariant |provided0| <= |provided| && (transferred <==> |provided| > |provided0|)
        decreases |rounds| - round, |s.freeQ|
      {
        AppendMove(provided, s.freeQ);
        AppendAssociates(Bufs(s0.avail), provided, [s.freeQ[0]]);
        ghost var buf := s.freeQ[0];
        ProvideNext(s0, trace, provided);
        transferred, trace, provided := true, trace + [Provide], provided + [buf];
        round, trace := NextRound(rounds, round, s0, trace, provided, []);
      }
    }

    /**
     rx_provide, whatever others do after each buffer: a run of the system in which the driver provides and nothing
     else, which ends with the free queue found empty or every descriptor in use. The device is to be notified exactly
     if it was given buffers. Left alone, these are the first of the free queue, in order, and nothing else changes.
     */
    method RxProvide(rounds: seq<seq<Step>>) returns (transferred: bool, ghost trace: seq<Step>)
      requires Valid() && forall i :: 0 <= i < |rounds| ==> ByOthers(rounds[i])
      modifies this`s, this`signalWanted
      ensures Valid() && signalWanted && (s.freeQ == [] || AvailFull(s))
      ensures Sound(old(s), total) && s == Run(old(s), trace, total) && Only(trace, Provide)
      ensures transferred <==> ProvidedIn(old(s), trace, total) != []
      ensures rounds == [] ==> trace == Fill(|ProvidedIn(old(s), trace, total)|, Provide)
      ensures rounds == [] ==> old(s).freeQ == ProvidedIn(old(s), trace, total) + s.freeQ
      ensures rounds == [] ==> Bufs(s.avail) == Bufs(old(s).avail) + ProvidedIn(old(s), trace, total)
    {
      ghost var s0, provided: seq<nat> := s, [];
      var reprocess, round := true, 0;
      transferred, trace := false, [];
      LedFirst(s, total);
      while reprocess
        invariant Valid() && 0 <= round <= |rounds| && Providing(s0, trace, provided, rounds == [])
        invariant !reprocess ==> signalWanted && (s.freeQ == [] || AvailFull(s))
        invariant transferred <==> provided != []
        decreases |rounds| - round, reprocess
      {
        var some;
        some, round, trace, provided := ProvideAll(rounds, round, s0, trace, provided);
        transferred := transferred || some;
        signalWanted := true;
        reprocess := false;
        round, trace := NextRound(rounds, round, s0, trace, provided, []);
        if s.freeQ != [] && !AvailFull(s) {
          signalWanted := false;
          reprocess := true;
        }
      }
      LedMeans(s0, trace, s, provided, [], total);
    }

    /** ialloc_free of a descriptor that is not free. */
    method FreeDesc(id: nat)
      requires id !in s.idle
      modifies this`s
      ensures s == old(s).(idle := old(s).idle + [id])
    {
      s := s.(idle := s.idle + [id]);
    }

    /** The body of rx_return's loop; its assertions hold. */
    method ReturnBuffer()
      requires Valid() && Enabled(s, Return)
      modifies this`s
      ensures Valid() && old(s).used != [] && s == Apply(old(s), Return, total)
      ensures s.activeQ == old(s).activeQ + [old(s).used[0].buf] && s.used == old(s).used[1..]
    {
      SoundMeans(s, total);
      ReturnSafe(s, total);
      ReturnKeeps(s, total);
      ghost var s0 := s;
      var hdr := s.usedRing[s.lastSeen % NUM];
      assert s.desc[hdr].hasNext;
      var next := s.desc[hdr].next;
      var pkt := s.desc[next % NUM];
      assert !pkt.hasNext && |s.activeQ| < cap && s.lastDesc - 2 >= 0;
      s := s.(activeQ := s.activeQ + [pkt.addr]);
      FreeDesc(hdr);
      FreeDesc(next);
      s := s.(lastDesc := s.lastDesc - 2, lastSeen := (s.lastSeen + 1) % INDEX_MODULUS, used := s.used[1..]);
      assert s == ReturnOne(s0) by {
        ReturnedOne(s0);
      }
    }

    /** One more buffer. */
    method ReturnNext(ghost s0: State, ghost trace: seq<Step>, ghost passed: seq<nat>)
      requires Valid() && s.used != [] && Led(s0, trace, s, [], passed, total)
      modifies this`s
      ensures Valid() && Led(s0, trace + [Return], s, [], passed + [old(s).used[0].buf], total)
      ensures s.activeQ == old(s).activeQ + [old(s).used[0].buf] && s.used == old(s).used[1..]
      ensures s.lastSeen == (old(s).lastSeen + 1) % INDEX_MODULUS
    {
      UsedWaiting(s, total);
      LedOwn(s0, trace, s, [], passed, Return, total);
      ReturnBuffer();
    }

    /**
     How the handler stands: what it has passed on, and what it has yet to, are the buffers returned at entry; left
     alone, that is all that happened.
     */
    ghost predicate Passing(s0: State, trace: seq<Step>, done: seq<Chain>, left: nat, curr: nat, alone: bool)
      reads this
    {
      && Led(s0, trace, s, [], Bufs(done), total) && Only(trace, Return)
      && left <= |s.used| && s0.used == done + s.used[..left] && Apart(s.lastSeen, left, curr)
      && (alone ==> left == |s.used| && s.activeQ == s0.activeQ + Bufs(done))
    }

    /** One round of the loop: a buffer is passed on, then others act. */
    method PassOne(rounds: seq<seq<Step>>, round: nat, ghost s0: State, ghost trace: seq<Step>, ghost done: seq<Chain>,
                   ghost left: nat, ghost curr: nat)
      returns (round': nat, ghost trace': seq<Step>, ghost done': seq<Chain>)
      requires Valid() && round <= |rounds| && forall i :: 0 <= i < |rounds| ==> ByOthers(rounds[i])
      requires 0 < left && Passing(s0, trace, done, left, curr, rounds == [])
      modifies this`s
      ensures Valid() && round' <= |rounds| && Passing(s0, trace', done', left - 1, curr, rounds == [])
    {
      ApartStep(s.lastSeen, left, curr);
      ghost var c, rest := s.used[0], s.used[1..];
      ChainsPush(done, c);
      AppendAssociates(s0.activeQ, Bufs(done), [c.buf]);
      TakenFirst(done, s.used, left);
      ReturnNext(s0, trace, Bufs(done));
      round', trace' := NextRound(rounds, round, s0, trace + [Return], [], Bufs(done + [c]));
      assert s.used[..left - 1] == rest[..left - 1];
      done' := done + [c];
    }

    /**
     rx_return, while the device and the virtualiser go on: a run of the system in which the driver passes on exactly
     the buffers the device had returned at entry, in that order, whatever it returns meanwhile.
     */
    method RxReturn(rounds: seq<seq<Step>>) returns (ghost trace: seq<Step>)
      requires Valid() && forall i :: 0 <= i < |rounds| ==> ByOthers(rounds[i])
      modifies this`s
      ensures Valid() && Sound(old(s), total) && s == Run(old(s), trace, total) && Only(trace, Return)
      ensures PassedIn(old(s), trace, total) == Bufs(old(s).used)
      ensures rounds == [] ==> s.used == [] && s.activeQ == old(s).activeQ + Bufs(old(s).used)
    {
      ghost var s0, left: nat, done: seq<Chain> := s, |s.used|, [];
      var curr, round := s.usedIdx, 0;
      trace := [];
      ApartStart(s, total);
      LedFirst(s, total);
      assert done + s.used[..left] == s.used;
      while s.lastSeen != curr
        invariant Valid() && 0 <= round <= |rounds| && Passing(s0, trace, done, left, curr, rounds == [])
        decreases left
      {
        ApartStep(s.lastSeen, left, curr);
        round, trace, done := PassOne(rounds, round, s0, trace, done, left, curr);
        left := left - 1;
      }
      ApartStep(s.lastSeen, left, curr);
      assert done == s0.used;
      LedMeans(s0, trace, s, [], Bufs(done), total);
    }

    /**
     tx_return: the same loop, which also stops when the queue it returns buffers to is full. With a queue that can hold
     every buffer it never is, so nothing the device had returned stays behind.
     */
    method TxReturn(rounds: seq<seq<Step>>) returns (ghost trace: seq<Step>)
      requires Valid() && forall i :: 0 <= i < |rounds| ==> ByOthers(rounds[i])
      modifies this`s
      ensures Valid() && Sound(old(s), total) && s == Run(old(s), trace, total) && Only(trace, Return)
      ensures PassedIn(old(s), trace, total) == Bufs(old(s).used)
      ensures rounds == [] ==> s.used == [] && s.activeQ == old(s).activeQ + Bufs(old(s).used)
    {
      ghost var s0, left: nat, done: seq<Chain> := s, |s.used|, [];
      var curr, round := s.usedIdx, 0;
      trace := [];
      ApartStart(s, total);
      LedFirst(s, total);
      assert done + s.used[..left] == s.used;
      while s.lastSeen != curr && |s.activeQ| < cap
        invariant Valid() && 0 <= round <= |rounds| && Passing(s0, trace, done, left, curr, rounds == [])
        decreases left
      {
        ApartStep(s.lastSeen, left, curr);
        round, trace, done := PassOne(rounds, round, s0, trace, done, left, curr);
        left := left - 1;
      }
      ApartStep(s.lastSeen, left, curr);
      UsedWaiting(s, total);
      assert done == s0.used;
      LedMeans(s0, trace, s, [], Bufs(done), total);
    }
  }

  /** The first of those to be taken is taken. */
  lemma TakenFirst(done: seq<Chain>, used: seq<Chain>, left: nat)
    requires 0 < left <= |used|
    ensures done + used[..left] == (done + [used[0]]) + used[1..][..left - 1]
  {
    assert used[..left] == [used[0]] + used[1..][..left - 1];
    AppendAssociates(done, [used[0]], used[1..][..left - 1]);
  }

  /** Steps of the device and the virtualiser. */
  predicate ByOthers(steps: seq<Step>)
  {
    forall i :: 0 <= i < |steps| ==> !steps[i].Provide? && !steps[i].Return?
  }
}
