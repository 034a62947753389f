/**
 The TCP echo socket (examples/echo_server/tcp_echo_socket.c): a circular buffer with three indices. Received bytes go
 in at the tail; they are handed to the TCP stack, which keeps a pointer to them, from the write head; and their space
 is given up at the ack head once the peer acknowledged them.
 */
module TcpEcho {
  import opened Sequences

  newtype Byte = x: int | 0 <= x < 256

  const TCP_WND: nat := 64240
  const CAPACITY: nat := TCP_WND + 1
  const UINT16_MAX: nat := 0xFFFF
  const SIZE_MODULUS: nat := 0x1_0000_0000_0000_0000

  // ---- The length helpers, in unsigned 64-bit arithmetic ---------------------------------------

  function Sub(a: int, b: int): nat
  {
    (a - b) % SIZE_MODULUS
  }

  function Add(a: int, b: int): nat
  {
    (a + b) % SIZE_MODULUS
  }

  function Avail(tail: nat, ackHead: nat): nat
  {
    Sub(Add(Sub(ackHead, tail), CAPACITY), 1) % CAPACITY
  }

  function ContAvail(tail: nat, ackHead: nat): nat
  {
    if Avail(tail, ackHead) == 0 then 0
    else if tail >= ackHead && ackHead != 0 then Sub(CAPACITY, tail)
    else Sub(Sub(ackHead, tail), 1)
  }

  function LenToTx(tail: nat, writeHead: nat): nat
  {
    Add(Sub(tail, writeHead), CAPACITY) % CAPACITY
  }

  function ContLenToTx(tail: nat, writeHead: nat): nat
  {
    if tail >= writeHead then Sub(tail, writeHead) else Sub(CAPACITY, writeHead)
  }

  function LenUnacked(writeHead: nat, ackHead: nat): nat
  {
    Add(Sub(writeHead, ackHead), CAPACITY) % CAPACITY
  }

  function Min(a: nat, b: nat): nat
  {
    if a < b then a else b
  }

  /** The index j places after h in the circular buffer. */
  function Pos(h: nat, j: nat): nat
  {
    if h + j < CAPACITY then h + j else h + j - CAPACITY
  }

  /** A difference that underflows comes right again once the capacity is added. */
  lemma Underflow(a: nat, b: nat)
    requires a < CAPACITY && b < CAPACITY
    ensures Add(Sub(a, b), CAPACITY) == a - b + CAPACITY
  {
    assert Sub(a, b) == if a >= b then a - b else a - b + SIZE_MODULUS;
  }

  lemma SmallMod(x: nat)
    requires x < 2 * CAPACITY
    ensures x % CAPACITY == if x < CAPACITY then x else x - CAPACITY
  {
  }

  lemma AvailIs(tail: nat, ackHead: nat)
    requires tail < CAPACITY && ackHead < CAPACITY
    ensures Avail(tail, ackHead) == if ackHead > tail then ackHead - tail - 1 else ackHead - tail - 1 + CAPACITY
  {
    Underflow(ackHead, tail);
    assert Sub(ackHead - tail + CAPACITY, 1) == ackHead - tail + CAPACITY - 1;
    SmallMod(ackHead - tail + CAPACITY - 1);
  }

  lemma DistanceIs(a: nat, b: nat)
    requires a < CAPACITY && b < CAPACITY
    ensures Add(Sub(a, b), CAPACITY) % CAPACITY == if a >= b then a - b else a - b + CAPACITY
  {
    Underflow(a, b);
    SmallMod(a - b + CAPACITY);
  }

  /** With n bytes stored, m of them written, the helpers measure free, unsent and unacknowledged bytes. */
  lemma HelpersMeasure(h: nat, m: nat, n: nat)
    requires h < CAPACITY && m <= n < CAPACITY
    ensures Avail(Pos(h, n), h) == CAPACITY - 1 - n
    ensures LenToTx(Pos(h, n), Pos(h, m)) == n - m
    ensures LenUnacked(Pos(h, m), h) == m
    ensures Avail(Pos(h, n), h) + LenToTx(Pos(h, n), Pos(h, m)) + LenUnacked(Pos(h, m), h) == CAPACITY - 1
  {
    AvailIs(Pos(h, n), h);
    DistanceIs(Pos(h, n), Pos(h, m));
    DistanceIs(Pos(h, m), h);
  }

  /** The run of bytes from the write head: as far as the tail or the end of the buffer, and none only if none. */
  lemma ContLenMeasures(h: nat, m: nat, n: nat)
    requires h < CAPACITY && m <= n < CAPACITY
    ensures var c := ContLenToTx(Pos(h, n), Pos(h, m));
            c == Min(n - m, CAPACITY - Pos(h, m)) && (c == 0 <==> m == n)
  {
  }

  /**
   The run of free space at the tail is at least one byte if there is any space. It stays within the buffer and its free
   space except when the ack head is at the start of the buffer: then it underflows.
   */
  lemma ContAvailMeasures(h: nat, n: nat)
    requires h < CAPACITY && n < CAPACITY
    ensures var c, t := ContAvail(Pos(h, n), h), Pos(h, n);
            && (c == 0 <==> n == CAPACITY - 1)
            && (t + c <= CAPACITY && c <= CAPACITY - 1 - n <==> h != 0 || n == CAPACITY - 1)
  {
    AvailIs(Pos(h, n), h);
  }

  /** Clamped to what is to be copied, which fits in the free space, it always stays within the buffer. */
  lemma ClampedInBounds(h: nat, n: nat, rest: nat)
    requires h < CAPACITY && n + rest < CAPACITY
    ensures var c, t := Min(ContAvail(Pos(h, n), h), rest), Pos(h, n);
            t + c <= CAPACITY && c <= rest && (rest > 0 ==> c > 0)
  {
    ContAvailMeasures(h, n);
  }

  // ---- What the buffer stores -----------------------------------------------------------------

  /** The buffer holds data, from index h on, around its end. */
  predicate Stores(buf: seq<Byte>, h: nat, data: seq<Byte>)
  {
    && |buf| == CAPACITY && h < CAPACITY && |data| < CAPACITY
    && forall j :: 0 <= j < |data| ==> buf[Pos(h, j)] == data[j]
  }

  /** A copy to the free space at the tail appends to the data. */
  lemma StoreAppend(buf: seq<Byte>, h: nat, data: seq<Byte>, chunk: seq<Byte>)
    requires Stores(buf, h, data) && |data| + |chunk| < CAPACITY && Pos(h, |data|) + |chunk| <= CAPACITY
    ensures var t := Pos(h, |data|);
            Stores(buf[..t] + chunk + buf[t + |chunk|..], h, data + chunk)
  {
    var t := Pos(h, |data|);
    var buf' := buf[..t] + chunk + buf[t + |chunk|..];
    forall j | 0 <= j < |data + chunk|
      ensures buf'[Pos(h, j)] == (data + chunk)[j]
    {
      if j < |data| {
        assert buf[Pos(h, j)] == data[j];
      }
    }
  }

  /** Giving up the oldest k bytes leaves the rest where it is. */
  lemma StoreDrop(buf: seq<Byte>, h: nat, data: seq<Byte>, k: nat)
    requires Stores(buf, h, data) && k <= |data|
    ensures Stores(buf, Pos(h, k), data[k..])
  {
    forall j | 0 <= j < |data| - k
      ensures buf[Pos(Pos(h, k), j)] == data[k..][j]
    {
      assert buf[Pos(h, k + j)] == data[k + j];
    }
  }

  /** A run of the buffer is a run of the data. */
  lemma StoreRun(buf: seq<Byte>, h: nat, data: seq<Byte>, m: nat, n: nat)
    requires Stores(buf, h, data) && m + n <= |data| && Pos(h, m) + n <= CAPACITY
    ensures buf[Pos(h, m)..Pos(h, m) + n] == data[m..m + n]
  {
    var a, b := buf[Pos(h, m)..Pos(h, m) + n], data[m..m + n];
    forall i | 0 <= i < n
      ensures a[i] == b[i]
    {
      assert buf[Pos(h, m + i)] == data[m + i];
    }
  }

  // ---- The connection ---------------------------------------------------------------------------

  lemma PosMod(acked: nat, h: nat, j: nat)
    requires h == acked % CAPACITY && j < CAPACITY
    ensures Pos(h, j) == (acked + j) % CAPACITY
  {
  }

  lemma PosPos(h: nat, j: nat, k: nat)
    requires h < CAPACITY && j + k < CAPACITY
    ensures Pos(Pos(h, j), k) == Pos(h, j + k) < CAPACITY && Pos(h, j) < CAPACITY
    ensures (Pos(h, j) + k) % CAPACITY == Pos(h, j + k)
  {
  }

  /** Stream, indices and buffer belong together: acked, then lent to TCP, then still to be sent. */
  ghost predicate Consistent(buf: seq<Byte>, tail: nat, writeHead: nat, ackHead: nat,
                             received: seq<Byte>, sent: seq<Byte>, acked: nat)
  {
    && acked <= |sent| && sent <= received && |received| - acked < CAPACITY
    && ackHead == acked % CAPACITY
    && writeHead == Pos(ackHead, |sent| - acked) && tail == Pos(ackHead, |received| - acked)
    && Stores(buf, ackHead, received[acked..])
  }

  /** A byte lent to TCP stays where it was lent, unchanged, until it is acknowledged. */
  lemma LentIntact(buf: seq<Byte>, tail: nat, writeHead: nat, ackHead: nat, received: seq<Byte>, sent: seq<Byte>,
                   acked: nat, k: nat)
    requires Consistent(buf, tail, writeHead, ackHead, received, sent, acked) && acked <= k < |sent|
    ensures buf[k % CAPACITY] == sent[k]
  {
    PosMod(acked, ackHead, k - acked);
    assert buf[Pos(ackHead, k - acked)] == received[acked..][k - acked];
  }

  lemma AfterAck(buf: seq<Byte>, tail: nat, writeHead: nat, ackHead: nat, received: seq<Byte>, sent: seq<Byte>,
                 acked: nat, len: nat)
    requires Consistent(buf, tail, writeHead, ackHead, received, sent, acked) && acked + len <= |sent|
    ensures Consistent(buf, tail, writeHead, (ackHead + len) % CAPACITY, received, sent, acked + len)
  {
    PosPos(ackHead, 0, len);
    PosPos(ackHead, len, |sent| - acked - len);
    PosPos(ackHead, len, |received| - acked - len);
    PosMod(acked, ackHead, len);
    StoreDrop(buf, ackHead, received[acked..], len);
    assert received[acked..][len..] == received[acked + len..];
  }

  lemma AfterCopy(buf: seq<Byte>, tail: nat, writeHead: nat, ackHead: nat, received: seq<Byte>, sent: seq<Byte>,
                  acked: nat, chunk: seq<Byte>)
    requires Consistent(buf, tail, writeHead, ackHead, received, sent, acked)
    requires |received| + |chunk| - acked < CAPACITY && tail + |chunk| <= CAPACITY
    ensures Consistent(buf[..tail] + chunk + buf[tail + |chunk|..], (tail + |chunk|) % CAPACITY, writeHead, ackHead,
                       received + chunk, sent, acked)
  {
    StoreAppend(buf, ackHead, received[acked..], chunk);
    PosPos(ackHead, |received| - acked, |chunk|);
    assert (received + chunk)[acked..] == received[acked..] + chunk;
  }

  lemma AfterWrite(buf: seq<Byte>, tail: nat, writeHead: nat, ackHead: nat, received: seq<Byte>, sent: seq<Byte>,
                   acked: nat, n: nat)
    requires Consistent(buf, tail, writeHead, ackHead, received, sent, acked)
    requires |sent| + n <= |received| && writeHead + n <= CAPACITY
    ensures Consistent(buf, tail, (writeHead + n) % CAPACITY, ackHead, received, sent + buf[writeHead..writeHead + n],
              acked)
  {
    var m := |sent| - acked;
    StoreRun(buf, ackHead, received[acked..], m, n);
    assert received[acked..][m..m + n] == received[|sent|..|sent| + n];
    assert sent + received[|sent|..|sent| + n] == received[..|sent| + n];
    PosPos(ackHead, m, n);
  }

  // ---- What the callbacks make of the stream ------------------------------------------------------

  datatype Event = Packet(data: seq<Byte>, sndbuf: nat) | Ack(len: nat)

  function PacketsOf(events: seq<Event>): seq<seq<Byte>>
  {
    if events == [] then []
    else
      var last := events[|events| - 1];
      PacketsOf(events[..|events| - 1]) + if last.Packet? then [last.data] else []
  }

  /** The next place in the stream, after the n-th byte, that is stored at the start of the buffer. */
  function Wrap(n: nat): nat
  {
    (n / CAPACITY + 1) * CAPACITY
  }

  /** How far TCP was given the stream, which holds `end` bytes: two writes reach its end, one may stop at the wrap. */
  function Echoed(sent: nat, end: nat, accepts: nat -> bool): nat
  {
    if sent >= end || !accepts(0) then sent
    else if end <= Wrap(sent) || accepts(1) then end
    else Wrap(sent)
  }

  /** A connection as its peer sees it: the stream stored, how much of it was echoed, and acknowledged. */
  datatype Stream = Stream(received: seq<Byte>, sent: nat, acked: nat)

  function StreamAfter(st: Stream, e: Event, accepts: nat -> bool): Stream
  {
    match e
    case Packet(data, sndbuf) =>
      if |data| <= sndbuf && |st.received| - st.acked + |data| < CAPACITY then
        Stream(st.received + data, Echoed(st.sent, |st.received| + |data|, accepts), st.acked)
      else st
    case Ack(len) =>
      if st.acked + len <= st.sent then st.(acked := st.acked + len) else st
  }

  /** A run of callbacks; accepts tells, for each of them, which of its writes TCP takes. */
  function StreamRun(st: Stream, events: seq<Event>, accepts: (nat, nat) -> bool): Stream
  {
    if events == [] then st
    else
      var i := |events| - 1;
      StreamAfter(StreamRun(st, events[..i], accepts), events[i], (k: nat) => accepts(i, k))
  }

  /** The packet is taken whole: it fits what may be sent, and the space not waiting to be acknowledged. */
  predicate Taken(st: Stream, e: Event)
  {
    e.Packet? && |e.data| <= e.sndbuf && |st.received| - st.acked + |e.data| < CAPACITY
  }

  /**
   After any run of callbacks, a packet that is taken has all of the stream echoed, what was left over from before with
   it, if TCP takes the two writes it may need; and if TCP takes the first, more is echoed than before.
   */
  lemma EchoCatchesUp(st: Stream, events: seq<Event>, accepts: (nat, nat) -> bool, e: Event)
    requires st.sent <= |st.received| && Taken(StreamRun(st, events, accepts), e) && e.data != []
    ensures var s, s' := StreamRun(st, events, accepts), StreamRun(st, events + [e], accepts);
            && s'.received == s.received + e.data
            && (accepts(|events|, 0) && accepts(|events|, 1) ==> s'.sent == |s'.received|)
            && (accepts(|events|, 0) <==> s'.sent > s.sent)
  {
    SentWithin(st, events, accepts);
    assert (events + [e])[..|events|] == events;
    PacketEchoed(StreamRun(st, events, accepts), e, (k: nat) => accepts(|events|, k));
  }

  lemma PacketEchoed(s: Stream, e: Event, accepts: nat -> bool)
    requires s.sent <= |s.received| && Taken(s, e) && e.data != []
    ensures var s' := StreamAfter(s, e, accepts);
            && s'.received == s.received + e.data
            && (accepts(0) && accepts(1) ==> s'.sent == |s'.received|)
            && (accepts(0) <==> s'.sent > s.sent)
  {
    assert s.sent < Wrap(s.sent);
  }

  lemma {:induction false} SentWithin(st: Stream, events: seq<Event>, accepts: (nat, nat) -> bool)
    requires st.sent <= |st.received|
    ensures st.sent <= StreamRun(st, events, accepts).sent <= |StreamRun(st, events, accepts).received|
  {
    if events != [] {
      SentWithin(st, events[..|events| - 1], accepts);
    }
  }

  /** While TCP takes every write, nothing ever waits: all that is received is echoed. */
  lemma {:induction false} AllEchoed(st: Stream, events: seq<Event>, accepts: (nat, nat) -> bool)
    requires st.sent == |st.received| && forall i: nat, k: nat :: i < |events| ==> accepts(i, k)
    ensures StreamRun(st, events, accepts).sent == |StreamRun(st, events, accepts).received|
  {
    if events != [] {
      AllEchoed(st, events[..|events| - 1], accepts);
    }
  }

  /** A write from the write head stops where the stream ends, or at the end of the buffer. */
  lemma BatchReaches(acked: nat, sent: nat, received: nat)
    requires acked <= sent <= received < acked + CAPACITY
    ensures var h := acked % CAPACITY;
            var w := Pos(h, sent - acked);
            && sent + Min(UINT16_MAX, ContLenToTx(Pos(h, received - acked), w)) == Min(received, Wrap(sent))
            && w + (Min(received, Wrap(sent)) - sent) <= CAPACITY
  {
    var h := acked % CAPACITY;
    ContLenMeasures(h, sent - acked, received - acked);
    PosMod(acked, h, sent - acked);
    assert sent == sent / CAPACITY * CAPACITY + sent % CAPACITY;
  }

  /** How far k writes that TCP took have come. */
  predicate Progress(start: nat, sent: nat, end: nat, accepts: nat -> bool, k: nat)
  {
    if k == 0 then sent == start <= end
    else accepts(0) && start < end && if k == 1 then sent == Min(end, Wrap(start))
         else accepts(1) && sent == end > Wrap(start)
  }

  /** There are no more than two: after a wrap there is no second one. */
  lemma NextProgress(acked: nat, start: nat, sent: nat, end: nat, accepts: nat -> bool, k: nat)
    requires acked <= start && end < acked + CAPACITY && Progress(start, sent, end, accepts, k)
    requires sent < end && accepts(k)
    ensures Progress(start, Min(end, Wrap(sent)), end, accepts, k + 1) && Min(end, Wrap(sent)) > sent
  {
  }

  lemma Progressed(start: nat, sent: nat, end: nat, accepts: nat -> bool, k: nat)
    requires Progress(start, sent, end, accepts, k) && (sent == end || !accepts(k))
    ensures sent == Echoed(start, end, accepts)
    ensures sent < end ==> k < 2
    ensures accepts(0) && start < end ==> sent > start
  {
  }

  class Connection {
    const buf: array<Byte>
    var tail: nat
    var writeHead: nat
    var ackHead: nat
    ghost var received: seq<Byte>   // everything stored, ever
    ghost var sent: seq<Byte>       // everything passed to tcp_write, ever
    ghost var acked: nat            // how much of it was acknowledged

    ghost predicate Valid()
      reads this, buf
    {
      Consistent(buf[..], tail, writeHead, ackHead, received, sent, acked)
    }

    ghost function AsStream(): Stream
      reads this
    {
      Stream(received, |sent|, acked)
    }

    constructor ()
      ensures Valid() && received == [] && sent == [] && acked == 0 && fresh(buf)
    {
      buf := new Byte[CAPACITY];
      tail, writeHead, ackHead, received, sent, acked := 0, 0, 0, [], [], 0;
    }

    /** The three lengths the helpers compute. */
    lemma Lengths()
      requires Valid()
      ensures Avail(tail, ackHead) == CAPACITY - 1 - (|received| - acked)
      ensures LenToTx(tail, writeHead) == |received| - |sent|
      ensures LenUnacked(writeHead, ackHead) == |sent| - acked
      ensures Avail(tail, ackHead) + LenUnacked(writeHead, ackHead) + LenToTx(tail, writeHead) == CAPACITY - 1
    {
      HelpersMeasure(ackHead, |sent| - acked, |received| - acked);
    }

    /** tcp_echo_sent: the peer acknowledged len bytes, no more than were written; the source's assertion holds. */
    method Sent(len: nat)
      requires Valid() && len <= |sent| - acked
      modifies this`ackHead, this`acked
      ensures Valid() && acked == old(acked) + len
    {
      Lengths();
      assert len <= LenUnacked(writeHead, ackHead);
      AfterAck(buf[..], tail, writeHead, ackHead, received, sent, acked, len);
      ackHead := (ackHead + len) % CAPACITY;
      acked := acked + len;
    }

    /** pbuf_copy_partial to the tail. */
    method CopyChunk(chunk: seq<Byte>)
      requires tail + |chunk| <= buf.Length
      modifies buf
      ensures buf[..] == old(buf[..tail]) + chunk + old(buf[tail + |chunk|..])
    {
      forall i | 0 <= i < |chunk| {
        buf[tail + i] := chunk[i];
      }
    }

    /** One copy, and the new tail. */
    method StoreChunk(chunk: seq<Byte>)
      requires Valid() && |received| - acked + |chunk| < CAPACITY && tail + |chunk| <= CAPACITY
      modifies this`tail, this`received, buf
      ensures Valid() && received == old(received) + chunk
    {
      ghost var bytes := buf[..];
      AfterCopy(bytes, tail, writeHead, ackHead, received, sent, acked, chunk);
      CopyChunk(chunk);
      assert buf[..] == bytes[..tail] + chunk + bytes[tail + |chunk|..];
      received := received + chunk;
      tail := (tail + |chunk|) % CAPACITY;
    }

    /** Store a packet that fits, in as many copies as it takes. */
    method Store(p: seq<Byte>)
      requires Valid() && |received| - acked + |p| < CAPACITY
      modifies this`tail, this`received, buf
      ensures Valid() && received == old(received) + p
    {
      var offset := 0;
      assert p[..0] == [];
      while offset < |p|
        invariant offset <= |p| && Valid() && received == old(received) + p[..offset]
      {
        ClampedInBounds(ackHead, |received| - acked, |p| - offset);
        var n := Min(ContAvail(tail, ackHead), |p| - offset);
        AppendAssociates(old(received), p[..offset], p[offset..offset + n]);
        assert p[..offset] + p[offset..offset + n] == p[..offset + n];
        StoreChunk(p[offset..offset + n]);
        offset := offset + n;
      }
      assert p[..offset] == p;
    }

    /** A tcp_write that is accepted: TCP now refers to these bytes of the buffer. */
    method WriteBatch(n: nat)
      requires Valid() && |sent| + n <= |received| && writeHead + n <= CAPACITY
      modifies this`writeHead, this`sent
      ensures Valid() && sent == old(sent) + buf[old(writeHead)..old(writeHead) + n]
    {
      ghost var bytes := buf[..];
      AfterWrite(bytes, tail, writeHead, ackHead, received, sent, acked, n);
      sent := sent + bytes[writeHead..writeHead + n];
      writeHead := (writeHead + n) % CAPACITY;
      assert buf[..] == bytes;
    }

    /** One round of the loop that writes: what TCP is offered, here taken, and what is left afterwards. */
    method WriteNext() returns (lenToTx: nat)
      requires Valid() && |sent| < |received|
      modifies this`writeHead, this`sent
      ensures Valid() && old(sent) <= sent && |sent| == Min(|received|, Wrap(|old(sent)|))
      ensures lenToTx == |received| - |sent|
    {
      BatchReaches(acked, |sent|, |received|);
      WriteBatch(Min(UINT16_MAX, ContLenToTx(tail, writeHead)));
      Lengths();
      lenToTx := LenToTx(tail, writeHead);
    }

    /** Pass stored bytes to tcp_write, which may refuse any of the calls; after a refusal the rest waits. */
    method Transmit(accepts: nat -> bool) returns (all: bool)
      requires Valid()
      modifies this`writeHead, this`sent
      ensures Valid() && old(sent) <= sent && |sent| == Echoed(|old(sent)|, |received|, accepts)
      ensures all <==> sent == received
      ensures !all ==> exists k: nat :: k < 2 && !accepts(k)
      ensures accepts(0) && |old(sent)| < |received| ==> |sent| > |old(sent)|
    {
      Lengths();
      var lenToTx, k := LenToTx(tail, writeHead), 0;
      ghost var start := |sent|;
      all := true;
      while lenToTx > 0
        invariant Valid() && old(sent) <= sent && lenToTx == |received| - |sent|
        invariant Progress(start, |sent|, |received|, accepts, k)
        decreases lenToTx
      {
        if !accepts(k) {
          Progressed(start, |sent|, |received|, accepts, k);
          return false;
        }
        NextProgress(acked, start, |sent|, |received|, accepts, k);
        lenToTx := WriteNext();
        k := k + 1;
      }
      Progressed(start, |sent|, |received|, accepts, k);
    }

    /**
     tcp_echo_recv with a packet: refused as a whole when it does not fit the free space or TCP's send buffer; otherwise
     stored whole and, as far as TCP takes it, echoed. What TCP has been given is always a prefix of what was received.
     */
    method Recv(p: seq<Byte>, sndbuf: nat, accepts: nat -> bool) returns (ok: bool)
      requires Valid() && 0 < |p| <= UINT16_MAX
      modifies this`tail, this`writeHead, this`received, this`sent, buf
      ensures Valid() && sent <= received && old(sent) <= sent
      ensures ok <==> |p| <= sndbuf && |old(received)| - acked + |p| <= 64240
      ensures ok ==> received == old(received) + p
      ensures ok && (forall k: nat :: accepts(k)) ==> sent == received
      ensures ok && accepts(0) ==> |sent| > |old(sent)|
      ensures AsStream() == StreamAfter(old(AsStream()), Packet(p, sndbuf), accepts)
      ensures !ok ==> received == old(received) && sent == old(sent) && buf[..] == old(buf[..]) && tail == old(tail)
    {
      Lengths();
      var capacity := Min(Min(Avail(tail, ackHead), sndbuf), |p|);
      if |p| > capacity {
        return false;
      }
      Store(p);
      var _ := Transmit(accepts);
      ok := true;
    }

    /** One callback; an acknowledgement of more than was written does not happen. */
    method Callback(e: Event, accepts: nat -> bool) returns (stored: bool)
      requires Valid() && (e.Packet? ==> 0 < |e.data| <= UINT16_MAX)
      modifies this, buf
      ensures Valid() && (stored ==> e.Packet?) && received == old(received) + if stored then e.data else []
      ensures AsStream() == StreamAfter(old(AsStream()), e, accepts) && (stored <==> Taken(old(AsStream()), e))
      ensures stored && (forall k: nat :: accepts(k)) ==> sent == received
      ensures old(sent) <= sent <= received
    {
      stored := false;
      assert received + [] == received;
      match e
      case Packet(data, sndbuf) =>
        stored := Recv(data, sndbuf, accepts);
      case Ack(len) =>
        Lengths();
        if len <= LenUnacked(writeHead, ackHead) {
          Sent(len);
        }
    }

    /**
     Any sequence of callbacks, TCP taking or refusing each write of each of them as it likes: the stream received is
     the packets accepted, in order and whole; what was passed to TCP only grows, and is a prefix of it.
     */
    method Callbacks(events: seq<Event>, accepts: (nat, nat) -> bool) returns (ghost accepted: seq<seq<Byte>>)
      requires Valid() && forall i :: 0 <= i < |events| && events[i].Packet? ==> 0 < |events[i].data| <= UINT16_MAX
      modifies this, buf
      ensures Valid() && old(sent) <= sent <= received && received == old(received) + Concat(accepted)
      ensures IsSubsequence(accepted, PacketsOf(events))
      ensures AsStream() == StreamRun(old(AsStream()), events, accepts)
    {
      accepted := [];
      ghost var start := received;
      for i := 0 to |events|
        invariant Valid() && received == start + Concat(accepted) && old(sent) <= sent <= received
        invariant IsSubsequence(accepted, PacketsOf(events[..i]))
        invariant AsStream() == StreamRun(old(AsStream()), events[..i], accepts)
      {
        assert events[..i + 1][..i] == events[..i];
        var stored := Callback(events[i], (k: nat) => accepts(i, k));
        AcceptedGrows(accepted, events, i, stored);
        if stored {
          ConcatPush(accepted, events[i].data);
          AppendAssociates(start, Concat(accepted), events[i].data);
          accepted := accepted + [events[i].data];
        }
      }
      assert events[..|events|] == events;
    }
  }

  lemma AcceptedGrows(accepted: seq<seq<Byte>>, events: seq<Event>, i: nat, stored: bool)
    requires i < |events| && IsSubsequence(accepted, PacketsOf(events[..i])) && (stored ==> events[i].Packet?)
    ensures IsSubsequence(if stored then accepted + [events[i].data] else accepted, PacketsOf(events[..i + 1]))
  {
    assert events[..i + 1][..i] == events[..i];
    var ps := PacketsOf(events[..i]);
    if events[i].Packet? {
      SubsequenceSkip(accepted, ps, events[i].data);
      SubsequenceKeep(accepted, ps, events[i].data);
    } else {
      assert ps + [] == ps;
    }
  }
}
