/**
 The Meson I2C driver: loading a request into the controller's registers batch by batch (i2c_load_tokens), and writing
 the bytes read back into the buffer that holds the rest of the request (handle_response).
 */
module I2cDriver {
  import opened I2cRegisters
  import opened I2cRequest
  import opened Sequences

  const MAX_TOKENS: bv32 := 16
  const MAX_DATA: bv32 := 8

  function Tokens(b: seq<Emit>): (r: seq<Byte>)
    ensures |r| == |b| && forall i :: 0 <= i < |b| ==> r[i] == TokenOf(b[i])
  {
    seq(|b|, i requires 0 <= i < |b| => TokenOf(b[i]))
  }

  /** The bytes sent. */
  function Written(b: seq<Emit>): seq<Byte>
  {
    if b == [] then [] else Written(b[..|b| - 1]) + if b[|b| - 1].Send? then [b[|b| - 1].data] else []
  }

  /** How many bytes are received. */
  function Reads(b: seq<Emit>): nat
  {
    if b == [] then 0 else Reads(b[..|b| - 1]) + if b[|b| - 1].Receive? then 1 else 0
  }

  lemma Push(b: seq<Emit>, e: Emit)
    ensures Tokens(b + [e]) == Tokens(b) + [TokenOf(e)]
    ensures Written(b + [e]) == Written(b) + if e.Send? then [e.data] else []
    ensures Reads(b + [e]) == Reads(b) + if e.Receive? then 1 else 0
  {
    assert (b + [e])[..|b|] == b;
  }

  lemma {:induction false} ReadsAppend(a: seq<Emit>, b: seq<Emit>)
    ensures Reads(a + b) == Reads(a) + Reads(b)
  {
    if b == [] {
      assert a + b == a;
    } else {
      ReadsAppend(a, b[..|b| - 1]);
      assert a + b == (a + b[..|b| - 1]) + [b[|b| - 1]];
      Push(a + b[..|b| - 1], b[|b| - 1]);
    }
  }

  lemma {:induction false} ShortLists(b: seq<Emit>)
    ensures |Written(b)| <= |b| && Reads(b) <= |b|
  {
    if b != [] {
      ShortLists(b[..|b| - 1]);
    }
  }

  /** The driver's place in the request: offset, rw_remaining, data_direction. */
  function At(tokens: seq<Byte>, off: nat, rw: nat, writing: bool): Cursor
  {
    Cursor(if off <= |tokens| then tokens[off..] else [], rw, writing)
  }

  /** Every byte read so far, and the two status bytes, took up at least as much of the request. */
  predicate Margin(off: nat, got: nat, rw: nat, writing: bool)
  {
    got <= off && (got > 0 || (rw > 0 && !writing) ==> got + 2 <= off)
  }

  /** The next token, with the byte it sends, and the place after it. */
  method Fetch(tokens: seq<Byte>, off: nat, rw: nat, writing: bool)
    returns (token: Byte, data: Byte, off': nat, rw': nat, writing': bool)
    requires off < |tokens| && Readable(At(tokens, off, rw, writing))
    ensures token == TokenOf(Emitted(At(tokens, off, rw, writing))) && token < 16
    ensures Emitted(At(tokens, off, rw, writing)).Send? ==> data == tokens[off]
    ensures Emitted(At(tokens, off, rw, writing)).Send? <==> token == MESON_DATA && writing'
    ensures Emitted(At(tokens, off, rw, writing)).Receive? <==>
              (token == MESON_DATA || token == MESON_DATA_END) && !writing'
    ensures off < off' <= |tokens| && At(tokens, off', rw', writing') == Advance(At(tokens, off, rw, writing))
    ensures forall got: nat :: Margin(off, got, rw, writing) ==>
      Margin(off', got + if Emitted(At(tokens, off, rw, writing)).Receive? then 1 else 0, rw', writing')
  {
    ghost var c := At(tokens, off, rw, writing);
    assert c.rest[0] == tokens[off];
    data, off', rw', writing' := 0, off, rw, writing;
    if rw == 0 {
      token := Convert(tokens[off]);
      if token == MESON_ADDR_WRITE || token == MESON_ADDR_READ {
        assert c.rest[1] == tokens[off + 1];
        rw' := tokens[off + 1] as nat;
        writing' := token == MESON_ADDR_WRITE;
        off' := off' + 1;
        assert c.rest[2..] == tokens[off + 2..];
      }
    } else {
      token := if rw == 1 && !writing then MESON_DATA_END else MESON_DATA;
      if writing {
        data := tokens[off];
      }
      rw' := rw - 1;
    }
    off' := off' + 1;
    assert c.rest[1..] == tokens[off + 1..];
  }

  /** The registers and the three counters after loading b. */
  datatype Batch = Batch(tk: Pair, wd: Pair, tkOffset: bv32, wdataOffset: bv32, rdataOffset: bv32)

  /** Names the places where a proof looks at what a batch holds. */
  predicate Within(k: int, r: Batch, b: seq<Emit>)
  {
    true
  }

  ghost predicate Loaded(r: Batch, b: seq<Emit>)
  {
    forall k: int {:trigger Within(k, r, b)} :: Within(k, r, b) ==> Registers(r, b)
  }

  ghost predicate Registers(r: Batch, b: seq<Emit>)
  {
    && TokensHeld(r.tk, r.tkOffset, Tokens(b)) && DataHeld(r.wd, r.wdataOffset, Written(b))
    && Counted(r.rdataOffset, Reads(b))
  }

  /** Room for another token, another byte to send and another to receive. */
  predicate RoomIn(r: Batch)
  {
    r.tkOffset < MAX_TOKENS && r.wdataOffset < MAX_DATA && r.rdataOffset < MAX_DATA
  }

  lemma BatchLimits(r: Batch, b: seq<Emit>)
    requires Loaded(r, b)
    ensures Registers(r, b) && |b| <= 16 && |Written(b)| <= 8 && Reads(b) <= 8
    ensures !RoomIn(r) ==> |b| == 16 || |Written(b)| == 8 || Reads(b) == 8
  {
    assert Within(0, r, b);
  }

  /** The counter of bytes to receive says how many the batch reads. */
  lemma CountIs(r: Batch, b: seq<Emit>)
    requires Loaded(r, b)
    ensures r.rdataOffset as nat == Reads(b) <= 8
  {
    assert Within(0, r, b) && Bitwise(0);
  }

  lemma PlainPush(r: Batch, b: seq<Emit>, e: Emit)
    requires Registers(r, b) && RoomIn(r) && e.Plain? && TokenOf(e) < 16
    ensures Registers(r.(tk := PutToken(r.tk, r.tkOffset, Bits(TokenOf(e))), tkOffset := r.tkOffset + 1), b + [e])
  {
    Push(b, e);
    TokensPush(r.tk, r.tkOffset, Tokens(b), TokenOf(e));
    assert Written(b + [e]) == Written(b);
  }

  lemma SendPush(r: Batch, b: seq<Emit>, e: Emit)
    requires Registers(r, b) && RoomIn(r) && e.Send?
    ensures Registers(Batch(PutToken(r.tk, r.tkOffset, Bits(MESON_DATA)), PutData(r.wd, r.wdataOffset, Bits(e.data)),
                            r.tkOffset + 1, r.wdataOffset + 1, r.rdataOffset), b + [e])
  {
    Push(b, e);
    TokensPush(r.tk, r.tkOffset, Tokens(b), MESON_DATA);
    DataPush(r.wd, r.wdataOffset, Written(b), e.data);
  }

  lemma ReceivePush(r: Batch, b: seq<Emit>, e: Emit)
    requires Registers(r, b) && RoomIn(r) && e.Receive?
    ensures Registers(r.(tk := PutToken(r.tk, r.tkOffset, Bits(TokenOf(e))), tkOffset := r.tkOffset + 1,
                         rdataOffset := r.rdataOffset + 1), b + [e])
  {
    Push(b, e);
    TokensPush(r.tk, r.tkOffset, Tokens(b), TokenOf(e));
    CountPush(r.rdataOffset, Reads(b));
    assert Written(b + [e]) == Written(b);
  }

  /** Load one token and, when writing, its byte. */
  method LoadOne(r: Batch, token: Byte, data: Byte, writing: bool, ghost b: seq<Emit>,
                 ghost e: Emit) returns (r': Batch)
    requires Loaded(r, b) && RoomIn(r) && token == TokenOf(e) < 16
    requires e.Send? <==> token == MESON_DATA && writing
    requires e.Receive? <==> (token == MESON_DATA || token == MESON_DATA_END) && !writing
    requires e.Send? ==> e.data == data
    ensures Loaded(r', b + [e])
  {
    assert Within(0, r, b);
    r' := r.(tk := PutToken(r.tk, r.tkOffset, Bits(token)), tkOffset := r.tkOffset + 1);
    if token == MESON_DATA && writing {
      r' := r'.(wd := PutData(r.wd, r.wdataOffset, Bits(data)), wdataOffset := r.wdataOffset + 1);
    }
    if (token == MESON_DATA || token == MESON_DATA_END) && !writing {
      r' := r'.(rdataOffset := r.rdataOffset + 1);
    }
    if e.Plain? {
      PlainPush(r, b, e);
    } else if e.Send? {
      SendPush(r, b, e);
    } else {
      ReceivePush(r, b, e);
    }
  }

  /** The body of the loop: fetch a token and load it. */
  method LoadStep(tokens: seq<Byte>, off: nat, rw: nat, writing: bool, r: Batch, ghost b: seq<Emit>, ghost got: nat)
    returns (off': nat, rw': nat, writing': bool, r': Batch)
    requires off < |tokens| && Readable(At(tokens, off, rw, writing)) && Loaded(r, b) && RoomIn(r)
             && Margin(off, got, rw, writing)
    ensures off < off' <= |tokens| && At(tokens, off', rw', writing') == Advance(At(tokens, off, rw, writing))
    ensures Loaded(r', b + [Emitted(At(tokens, off, rw, writing))])
    ensures Margin(off', got + if Emitted(At(tokens, off, rw, writing)).Receive? then 1 else 0, rw', writing')
  {
    var token, data;
    token, data, off', rw', writing' := Fetch(tokens, off, rw, writing);
    r' := LoadOne(r, token, data, writing', b, Emitted(At(tokens, off, rw, writing)));
  }

  /** Names the places where a proof looks into the translation of the rest of a request. */
  predicate Inside(k: int, b: seq<Emit>)
  {
    true
  }

  /** A walk ends the same way from both places. */
  predicate SameEnd(c0: Cursor, c: Cursor)
  {
    Walk(c0, 0) == Walk(c, 0)
  }

  /** Both places are within a request the driver can go through, and b is what is emitted between them. */
  ghost predicate Between(c0: Cursor, b: seq<Emit>, c: Cursor)
  {
    Readable(c0) && Readable(c) && forall k: int {:trigger Inside(k, b)} :: Inside(k, b) ==>
      OneShot(c0) == b + OneShot(c) && SameEnd(c0, c)
  }

  lemma BetweenMeans(c0: Cursor, b: seq<Emit>, c: Cursor)
    requires Readable(c0) && Readable(c)
    ensures Between(c0, b, c) <==> OneShot(c0) == b + OneShot(c) && SameEnd(c0, c)
  {
    assert Inside(0, b);
  }

  lemma BetweenNothing(c: Cursor)
    requires Readable(c)
    ensures Between(c, [], c)
  {
    assert [] + OneShot(c) == OneShot(c);
    BetweenMeans(c, [], c);
  }

  lemma BetweenPush(c0: Cursor, b: seq<Emit>, c: Cursor)
    requires c.rest != [] && Between(c0, b, c)
    ensures Between(c0, b + [Emitted(c)], Advance(c))
  {
    assert Inside(0, b);
    AppendMove(b, OneShot(c));
  }

  lemma BetweenAppend(c0: Cursor, a: seq<Emit>, c1: Cursor, b: seq<Emit>, c2: Cursor)
    requires Between(c0, a, c1) && Between(c1, b, c2)
    ensures Between(c0, a + b, c2)
  {
    assert Inside(0, a) && Inside(0, b);
    AppendAssociates(a, b, OneShot(c2));
  }

  /**
   i2c_load_tokens. From wherever the request stands, one batch is loaded: registers hold exactly the next operations,
   as many as fit, and nothing of the request is skipped or repeated.
   */
  method LoadTokens(tokens: seq<Byte>, off0: nat, rw0: nat, writing0: bool, ghost got0: nat)
    returns (off: nat, rw: nat, writing: bool, r: Batch, ghost b: seq<Emit>)
    requires off0 <= |tokens| && Readable(At(tokens, off0, rw0, writing0)) && Margin(off0, got0, rw0, writing0)
    ensures off0 + |b| <= off <= |tokens| && (off0 < |tokens| ==> off0 < off)
    ensures Margin(off, got0 + Reads(b), rw, writing)
    ensures Between(At(tokens, off0, rw0, writing0), b, At(tokens, off, rw, writing))
    ensures Loaded(r, b) && |b| <= 16 && |Written(b)| <= 8 && Reads(b) <= 8
    ensures off == |tokens| || |b| == 16 || |Written(b)| == 8 || Reads(b) == 8
  {
    off, rw, writing, b := off0, rw0, writing0, [];
    r := Batch(CLEARED, CLEARED, 0, 0, 0);
    ClearedHoldsNothing();
    assert Registers(r, b);
    ghost var c0 := At(tokens, off0, rw0, writing0);
    BetweenNothing(c0);
    while RoomIn(r) && off < |tokens|
      invariant off0 + |b| <= off <= |tokens|
      invariant Margin(off, got0 + Reads(b), rw, writing)
      invariant Between(c0, b, At(tokens, off, rw, writing))
      invariant Loaded(r, b)
      decreases |tokens| - off
    {
      ghost var c := At(tokens, off, rw, writing);
      BetweenPush(c0, b, c);
      off, rw, writing, r := LoadStep(tokens, off, rw, writing, r, b, got0 + Reads(b));
      Push(b, Emitted(c));
      b := b + [Emitted(c)];
    }
    BatchLimits(r, b);
  }

  // ---- A whole request, read from and answered in one buffer ----------------------------------

  const MAX_DATA_SIZE := 128
  const MAX_BUS_ADDRESS := 0x7F
  const RESPONSE_DATA_OFFSET := 2
  const ERR_OK: Byte := 0

  /** Byte i of what the controller has read, from its two read data registers. */
  function ReadData(rdata0: bv32, rdata1: bv32, i: nat): Byte
    requires i < 8
  {
    if i < 4 then ((rdata0 >> (i * 8)) & 0xFF) as Byte else ((rdata1 >> ((i - 4) * 8)) & 0xFF) as Byte
  }

  function AllRead(rdata0: bv32, rdata1: bv32, n: nat): (r: seq<Byte>)
    requires n <= 8
    ensures |r| == n && forall i :: 0 <= i < n ==> r[i] == ReadData(rdata0, rdata1, i)
  {
    seq(n, i requires 0 <= i < n => ReadData(rdata0, rdata1, i))
  }

  lemma ReadLow(rdata0: bv32, rdata1: bv32)
    ensures ReadData(rdata0, rdata1, 0) == (rdata0 & 0xFF) as Byte
    ensures ReadData(rdata0, rdata1, 1) == ((rdata0 >> 8) & 0xFF) as Byte
    ensures ReadData(rdata0, rdata1, 2) == ((rdata0 >> 16) & 0xFF) as Byte
    ensures ReadData(rdata0, rdata1, 3) == (rdata0 >> 24) as Byte
  {
    assert rdata0 >> 24 == (rdata0 >> 24) & 0xFF && rdata0 >> 0 == rdata0;
  }

  lemma ReadHigh(rdata0: bv32, rdata1: bv32)
    ensures ReadData(rdata0, rdata1, 4) == (rdata1 & 0xFF) as Byte
    ensures ReadData(rdata0, rdata1, 5) == ((rdata1 >> 8) & 0xFF) as Byte
    ensures ReadData(rdata0, rdata1, 6) == ((rdata1 >> 16) & 0xFF) as Byte
    ensures ReadData(rdata0, rdata1, 7) == (rdata1 >> 24) as Byte
  {
    assert rdata1 >> 24 == (rdata1 >> 24) & 0xFF && rdata1 >> 0 == rdata1;
  }

  lemma AllReadUnpacks(rdata0: bv32, rdata1: bv32, n: nat)
    requires n <= 8
    ensures Unpacks(rdata0, rdata1, AllRead(rdata0, rdata1, n))
  {
    ReadLow(rdata0, rdata1);
    ReadHigh(rdata0, rdata1);
    assert UnpacksBits(rdata0, rdata1, AllRead(rdata0, rdata1, n));
  }

  /** What is not yet loaded of the request is still in the buffer. */
  predicate RestIntact(buf: seq<Byte>, request: seq<Byte>, off: nat)
  {
    off <= |request| <= |buf| && buf[off..|request|] == request[off..]
  }

  /** What the controller read is in the buffer, behind the two status bytes. */
  predicate Answered(buf: seq<Byte>, received: seq<Byte>)
  {
    2 + |received| <= |buf| && buf[2..2 + |received|] == received
  }

  /** The buffer after a response: status bytes, all that was read, and the old bytes after that. */
  function Stored(buf: seq<Byte>, n: nat, got: seq<Byte>): (r: seq<Byte>)
    requires 2 + n + |got| <= |buf|
    ensures |r| == |buf|
  {
    [ERR_OK, 0] + buf[2..2 + n] + got + buf[2 + n + |got|..]
  }

  /** The place in the buffer is the place in the request. */
  lemma SamePlace(buf: seq<Byte>, request: seq<Byte>, off: nat, off': nat, rw: nat, writing: bool)
    requires RestIntact(buf, request, off) && off <= off' <= |request|
    ensures RestIntact(buf, request, off')
    ensures At(buf[..|request|], off', rw, writing) == At(request, off', rw, writing)
  {
    assert buf[off'..|request|] == buf[off..|request|][off' - off..] == request[off..][off' - off..] == request[off'..];
    assert buf[..|request|][off'..] == buf[off'..|request|];
  }

  lemma StoredAnswers(buf: seq<Byte>, received: seq<Byte>, got: seq<Byte>)
    requires Answered(buf, received) && 2 + |received| + |got| <= |buf|
    ensures Answered(Stored(buf, |received|, got), received + got)
    ensures Stored(buf, |received|, got)[..2] == [ERR_OK, 0]
  {
  }

  /** A response stays clear of what is left of the request: it fits in front of it. */
  lemma StoredKeepsRest(buf: seq<Byte>, request: seq<Byte>, off: nat, n: nat, got: seq<Byte>)
    requires RestIntact(buf, request, off) && 2 + n + |got| <= |buf|
    requires off == |request| || 2 + n + |got| <= off
    ensures RestIntact(Stored(buf, n, got), request, off)
  {
    if off < |request| {
      var s := Stored(buf, n, got);
      forall i | off <= i < |request|
        ensures s[i] == buf[i]
      {
      }
      assert s[off..|request|] == buf[off..|request|];
    }
  }

  /** Names the places where a proof looks into the driver's progress. */
  predicate Opened(k: int, buf: seq<Byte>, emitted: seq<Emit>)
  {
    true
  }

  /**
   A request is in progress, with some of it remaining: what remains is intact in the buffer, and so is what has been
   read so far; batch bytes are yet to come from the controller.
   */
  ghost predicate InProgress(buf: seq<Byte>, request: seq<Byte>, remaining: nat, rw: nat, writing: bool,
                             start: Cursor, emitted: seq<Emit>, received: seq<Byte>, batch: nat)
  {
    && remaining <= |request| <= |buf| && 2 + |received| + batch <= |buf| && batch <= 8
    && forall k: int {:trigger Opened(k, buf, emitted)} :: Opened(k, buf, emitted) ==>
         Progress(buf, request, |request| - remaining, rw, writing, start, emitted, received, batch)
  }

  ghost predicate Progress(buf: seq<Byte>, request: seq<Byte>, off: nat, rw: nat, writing: bool, start: Cursor,
                           emitted: seq<Emit>, received: seq<Byte>, batch: nat)
  {
    && RestIntact(buf, request, off) && Answered(buf, received)
    && start.rest == request && Between(start, emitted, At(request, off, rw, writing))
    && Reads(emitted) == |received| + batch
    && Margin(off, |received| + batch, rw, writing)
  }

  lemma AtStart(buf: seq<Byte>, size: nat, rw: nat, writing: bool)
    requires 2 <= |buf| && size <= |buf| && (rw == 0 || writing) && Readable(Cursor(buf[..size], rw, writing))
    ensures InProgress(buf, buf[..size], size, rw, writing, Cursor(buf[..size], rw, writing), [], [], 0)
  {
    var request, start := buf[..size], Cursor(buf[..size], rw, writing);
    assert request[0..] == request && buf[0..size] == request;
    assert At(request, 0, rw, writing) == start;
    BetweenNothing(start);
    assert Progress(buf, request, 0, rw, writing, start, [], [], 0);
  }

  /** The buffer holds what LoadTokens needs. */
  lemma CanLoad(buf: seq<Byte>, request: seq<Byte>, remaining: nat, rw: nat, writing: bool, start: Cursor,
                emitted: seq<Emit>, received: seq<Byte>, off: nat)
    requires InProgress(buf, request, remaining, rw, writing, start, emitted, received, 0)
    requires off + remaining == |request|
    ensures At(buf[..|request|], off, rw, writing) == At(request, off, rw, writing)
    ensures Readable(At(request, off, rw, writing)) && Margin(off, |received|, rw, writing)
  {
    assert Opened(0, buf, emitted);
    SamePlace(buf, request, off, off, rw, writing);
  }

  lemma AfterLoad(buf: seq<Byte>, request: seq<Byte>, off0: nat, rw0: nat, writing0: bool, start: Cursor,
                  emitted: seq<Emit>, received: seq<Byte>, off: nat, rw: nat, writing: bool, b: seq<Emit>)
    requires off0 <= off <= |request|
    requires InProgress(buf, request, |request| - off0, rw0, writing0, start, emitted, received, 0)
    requires Between(At(buf[..|request|], off0, rw0, writing0), b, At(buf[..|request|], off, rw, writing))
    requires Margin(off, |received| + Reads(b), rw, writing) && Reads(b) <= 8
    ensures InProgress(buf, request, |request| - off, rw, writing, start, emitted + b, received, Reads(b))
  {
    assert Opened(0, buf, emitted);
    SamePlace(buf, request, off0, off0, rw0, writing0);
    SamePlace(buf, request, off0, off, rw, writing);
    BetweenAppend(start, emitted, At(request, off0, rw0, writing0), b, At(request, off, rw, writing));
    ReadsAppend(emitted, b);
    assert Progress(buf, request, off, rw, writing, start, emitted + b, received, Reads(b));
  }

  /** The response of a batch stays clear of what is left of the request. */
  lemma AfterStore(buf: seq<Byte>, request: seq<Byte>, remaining: nat, rw: nat, writing: bool, start: Cursor,
                   emitted: seq<Emit>, received: seq<Byte>, got: seq<Byte>)
    requires InProgress(buf, request, remaining, rw, writing, start, emitted, received, |got|)
    requires remaining > 0 ==> |request| - remaining >= 8
    ensures InProgress(Stored(buf, |received|, got), request, remaining, rw, writing, start, emitted, received + got, 0)
  {
    assert Opened(0, buf, emitted);
    var off := |request| - remaining;
    StoredKeepsRest(buf, request, off, |received|, got);
    StoredAnswers(buf, received, got);
    assert Progress(Stored(buf, |received|, got), request, off, rw, writing, start, emitted, received + got, 0);
  }

  lemma AtEnd(buf: seq<Byte>, request: seq<Byte>, rw: nat, writing: bool, start: Cursor, emitted: seq<Emit>,
              received: seq<Byte>)
    requires InProgress(buf, request, 0, rw, writing, start, emitted, received, 0)
    ensures Readable(start) && emitted == OneShot(start) && Walk(start, 0) == Ending(rw, writing, false)
    ensures |received| == Reads(emitted) && buf[2..2 + |received|] == received
  {
    assert Opened(0, buf, emitted);
    BetweenMeans(start, emitted, At(request, |request|, rw, writing));
  }

  /** Load the next batch from what remains of the request in the buffer. */
  method LoadRest(buf: seq<Byte>, len: nat, remaining0: nat, rw0: nat, writing0: bool, responseLen: nat,
                  ghost request: seq<Byte>, ghost start: Cursor, ghost emitted: seq<Emit>, ghost received: seq<Byte>)
    returns (remaining: nat, rw: nat, writing: bool, r: Batch, ghost b: seq<Emit>)
    requires len == |request| && responseLen == |received|
    requires InProgress(buf, request, remaining0, rw0, writing0, start, emitted, received, 0)
    ensures InProgress(buf, request, remaining, rw, writing, start, emitted + b, received, Reads(b))
    ensures remaining0 > 0 ==> remaining < remaining0
    ensures remaining > 0 ==> len - remaining >= 8
    ensures Loaded(r, b)
  {
    var off0 := len - remaining0;
    CanLoad(buf, request, remaining0, rw0, writing0, start, emitted, received, off0);
    var off;
    off, rw, writing, r, b := LoadTokens(buf[..len], off0, rw0, writing0, responseLen);
    AfterLoad(buf, request, off0, rw0, writing0, start, emitted, received, off, rw, writing, b);
    ShortLists(b);
    remaining := len - off;
  }

  lemma CopyPush(before: seq<Byte>, start: nat, a: seq<Byte>, x: Byte)
    requires start + |a| < |before|
    ensures (before[..start] + a + before[start + |a|..])[start + |a| := x]
              == before[..start] + (a + [x]) + before[start + |a| + 1..]
  {
  }

  lemma StatusPut(before: seq<Byte>, start: nat, a: seq<Byte>)
    requires 2 <= start && start + |a| <= |before|
    ensures (before[..start] + a + before[start + |a|..])[0 := ERR_OK][1 := 0] == Stored(before, start - 2, a)
  {
  }

  /** The bytes the controller has read, out of its registers. */
  method ReadOut(rdata0: bv32, rdata1: bv32, n: nat) returns (got: seq<Byte>)
    requires n <= 8
    ensures got == AllRead(rdata0, rdata1, n) && |got| == n && Unpacks(rdata0, rdata1, got)
  {
    got := [];
    for i := 0 to n
      invariant got == AllRead(rdata0, rdata1, i)
    {
      got := got + [ReadData(rdata0, rdata1, i)];
    }
    AllReadUnpacks(rdata0, rdata1, n);
  }

  // ---- Everything that is loaded and read for one request -------------------------------------

  /** The registers hold, load by load, these batches. */
  ghost predicate AllLoaded(loads: seq<Batch>, batches: seq<seq<Emit>>)
  {
    |loads| == |batches| && forall k :: 0 <= k < |loads| ==> Loaded(loads[k], batches[k]) && Reads(batches[k]) <= 8
  }

  lemma AllLoadedPush(loads: seq<Batch>, batches: seq<seq<Emit>>, r: Batch, b: seq<Emit>)
    requires AllLoaded(loads, batches) && Loaded(r, b) && Reads(b) <= 8
    ensures AllLoaded(loads + [r], batches + [b])
  {
  }

  /** What the controller read over these batches, in order, hw(k) being its read data registers after batch k. */
  function Gathered(hw: nat -> (bv32, bv32), batches: seq<seq<Emit>>): seq<Byte>
    requires forall k :: 0 <= k < |batches| ==> Reads(batches[k]) <= 8
  {
    if batches == [] then []
    else
      var k := |batches| - 1;
      Gathered(hw, batches[..k]) + AllRead(hw(k).0, hw(k).1, Reads(batches[k]))
  }

  /** Batch by batch, these are the bytes it reads, out of the controller's registers. */
  ghost predicate Unpacked(hw: nat -> (bv32, bv32), batches: seq<seq<Emit>>, parts: seq<seq<Byte>>)
  {
    |parts| == |batches| && forall k :: 0 <= k < |parts| ==>
      |parts[k]| == Reads(batches[k]) && Unpacks(hw(k).0, hw(k).1, parts[k])
  }

  lemma {:induction false} GatheredUnpacks(hw: nat -> (bv32, bv32), batches: seq<seq<Emit>>)
    requires forall k :: 0 <= k < |batches| ==> Reads(batches[k]) <= 8
    ensures exists parts :: Unpacked(hw, batches, parts) && Gathered(hw, batches) == Concat(parts)
  {
    if batches == [] {
      assert Unpacked(hw, batches, []);
    } else {
      var k := |batches| - 1;
      GatheredUnpacks(hw, batches[..k]);
      var parts :| Unpacked(hw, batches[..k], parts) && Gathered(hw, batches[..k]) == Concat(parts);
      var last := AllRead(hw(k).0, hw(k).1, Reads(batches[k]));
      AllReadUnpacks(hw(k).0, hw(k).1, Reads(batches[k]));
      ConcatPush(parts, last);
      UnpackedPush(hw, batches, parts, last);
    }
  }

  lemma UnpackedPush(hw: nat -> (bv32, bv32), batches: seq<seq<Emit>>, parts: seq<seq<Byte>>, last: seq<Byte>)
    requires batches != [] && Unpacked(hw, batches[..|batches| - 1], parts)
    requires var k := |batches| - 1; |last| == Reads(batches[k]) && Unpacks(hw(k).0, hw(k).1, last)
    ensures Unpacked(hw, batches, parts + [last])
  {
    var k := |batches| - 1;
    forall i | 0 <= i < k
      ensures |parts[i]| == Reads(batches[i]) && Unpacks(hw(i).0, hw(i).1, parts[i])
    {
      assert batches[..k][i] == batches[i];
    }
  }

  /** Names the places where a proof looks into the log. */
  predicate Looked(n: int, loads: seq<Batch>, received: seq<Byte>)
  {
    true
  }

  /** The batches loaded so far, of which the controller has carried out the first k. */
  ghost predicate Logged(hw: nat -> (bv32, bv32), loads: seq<Batch>, batches: seq<seq<Emit>>, emitted: seq<Emit>,
                         received: seq<Byte>, k: nat)
  {
    forall n: int {:trigger Looked(n, loads, received)} :: Looked(n, loads, received) ==>
      Log(hw, loads, batches, emitted, received, k)
  }

  ghost predicate Log(hw: nat -> (bv32, bv32), loads: seq<Batch>, batches: seq<seq<Emit>>, emitted: seq<Emit>,
                      received: seq<Byte>, k: nat)
  {
    && AllLoaded(loads, batches) && Concat(batches) == emitted
    && k <= |batches| && received == Gathered(hw, batches[..k])
  }

  lemma LogStart(hw: nat -> (bv32, bv32))
    ensures Logged(hw, [], [], [], [], 0)
  {
    assert Log(hw, [], [], [], [], 0);
  }

  lemma LogLoad(hw: nat -> (bv32, bv32), loads: seq<Batch>, batches: seq<seq<Emit>>, emitted: seq<Emit>,
                received: seq<Byte>, k: nat, r: Batch, b: seq<Emit>)
    requires Logged(hw, loads, batches, emitted, received, k) && Loaded(r, b)
    ensures Logged(hw, loads + [r], batches + [b], emitted + b, received, k)
  {
    assert Looked(0, loads, received);
    CountIs(r, b);
    AllLoadedPush(loads, batches, r, b);
    ConcatPush(batches, b);
    assert (batches + [b])[..k] == batches[..k];
    assert Log(hw, loads + [r], batches + [b], emitted + b, received, k);
  }

  lemma LogRead(hw: nat -> (bv32, bv32), loads: seq<Batch>, batches: seq<seq<Emit>>, emitted: seq<Emit>,
                received: seq<Byte>, k: nat)
    requires Logged(hw, loads, batches, emitted, received, k) && k < |batches| && Reads(batches[k]) <= 8
    ensures Logged(hw, loads, batches, emitted, received + AllRead(hw(k).0, hw(k).1, Reads(batches[k])), k + 1)
  {
    assert Looked(0, loads, received);
    assert batches[..k + 1][..k] == batches[..k];
    assert Log(hw, loads, batches, emitted, received + AllRead(hw(k).0, hw(k).1, Reads(batches[k])), k + 1);
  }

  lemma LogEnd(hw: nat -> (bv32, bv32), loads: seq<Batch>, batches: seq<seq<Emit>>, emitted: seq<Emit>,
               received: seq<Byte>)
    requires Logged(hw, loads, batches, emitted, received, |batches|)
    ensures AllLoaded(loads, batches) && Concat(batches) == emitted && received == Gathered(hw, batches)
  {
    assert Looked(0, loads, received);
    assert batches[..|batches|] == batches;
  }

  class Driver {
    const buf: array<Byte>         // curr_data: the request, then the response
    var len: nat                   // curr_request_len
    var remaining: nat
    var rw: nat                    // rw_remaining
    var writing: bool              // data_direction
    var responseLen: nat           // curr_response_len
    var regs: Batch
    ghost var request: seq<Byte>   // as the client wrote it
    ghost var start: Cursor        // where the driver began with it
    ghost var emitted: seq<Emit>   // everything loaded so far
    ghost var received: seq<Byte>  // everything the controller read so far
    ghost var loaded: seq<Emit>    // the current batch
    ghost var batch: nat           // bytes it reads that are yet to come

    ghost predicate Intact()
      reads this, buf
    {
      && len == |request| && responseLen == |received|
      && InProgress(buf[..], request, remaining, rw, writing, start, emitted, received, batch)
    }

    /** A batch has been loaded: if more is to come, it used up at least eight bytes. */
    ghost predicate Valid()
      reads this, buf
    {
      Intact() && (remaining > 0 ==> len - remaining >= 8) && Loaded(regs, loaded) && batch == Reads(loaded)
    }

    method WriteByte(index: nat, x: Byte)
      requires index < buf.Length
      modifies buf
      ensures buf[..] == old(buf[..])[index := x]
    {
      buf[index] := x;
    }

    /** Copy what the controller read behind what it read before, and set the status. */
    method Store(got: seq<Byte>)
      requires 2 + responseLen + |got| <= buf.Length
      modifies this`responseLen, buf
      ensures responseLen == old(responseLen) + |got|
      ensures buf[..] == Stored(old(buf[..]), old(responseLen), got)
    {
      ghost var start, before := 2 + responseLen, buf[..];
      for i := 0 to |got|
        invariant responseLen == start - 2 + i
        invariant buf[..] == before[..start] + got[..i] + before[start + i..]
      {
        WriteByte(RESPONSE_DATA_OFFSET + responseLen, got[i]);
        responseLen := responseLen + 1;
        CopyPush(before, start, got[..i], got[i]);
        assert got[..i + 1] == got[..i] + [got[i]];
      }
      assert got[..|got|] == got;
      StatusPut(before, start, got);
      WriteByte(0, ERR_OK);
      WriteByte(1, 0);
    }

    /** The next batch of the request in progress, loaded from what is left of it in the buffer. */
    method LoadNext()
      requires Intact() && batch == 0
      modifies this`remaining, this`rw, this`writing, this`regs, this`emitted, this`loaded, this`batch
      ensures Valid() && emitted == old(emitted) + loaded
      ensures old(remaining) > 0 ==> remaining < old(remaining)
    {
      var bytes := buf[..];
      ghost var b;
      remaining, rw, writing, regs, b :=
        LoadRest(bytes, len, remaining, rw, writing, responseLen, request, start, emitted, received);
      emitted, loaded, batch := emitted + b, b, Reads(b);
      assert buf[..] == bytes;
    }

    /** handle_request: a request too long, or for an address of more than 7 bits, is dropped. */
    method HandleRequest(size: nat, busAddress: nat) returns (accepted: bool)
      requires 2 <= buf.Length && size <= buf.Length && responseLen == 0
      requires (rw == 0 || writing) && Readable(Cursor(buf[..size], rw, writing))
      modifies this
      ensures accepted <==> size <= 128 && busAddress <= 0x7F
      ensures accepted ==> Valid() && request == buf[..size] && start == Cursor(buf[..size], old(rw), old(writing))
      ensures accepted ==> received == [] && emitted == loaded
    {
      accepted := size <= MAX_DATA_SIZE && busAddress <= MAX_BUS_ADDRESS;
      if accepted {
        len, remaining := size, size;
        request, start, emitted, received, batch := buf[..size], Cursor(buf[..size], rw, writing), [], [], 0;
        assert buf[..][..size] == request;
        AtStart(buf[..], size, rw, writing);
        LoadNext();
      }
    }

    /** The response of a batch goes into the buffer, clear of what is left of the request. */
    method StoreBatch(got: seq<Byte>)
      requires Valid() && |got| == batch
      modifies this`responseLen, this`received, this`batch, buf
      ensures Intact() && batch == 0 && received == old(received) + got && buf[..2] == [ERR_OK, 0]
    {
      ghost var bytes := buf[..];
      AfterStore(bytes, request, remaining, rw, writing, start, emitted, received, got);
      Store(got);
      received, batch := received + got, 0;
      assert buf[..] == Stored(bytes, old(responseLen), got);
      assert buf[..2] == [ERR_OK, 0];
    }

    /**
     handle_response after a batch that met no error: what the controller read goes into the buffer; then either the
     next batch is loaded, or the request is complete and the response is handed back.
     */
    method HandleResponse(rdata0: bv32, rdata1: bv32, bytesRead: nat) returns (done: bool, response: seq<Byte>)
      requires Valid() && bytesRead == batch
      modifies this, buf
      ensures received == old(received) + AllRead(rdata0, rdata1, bytesRead)
      ensures |received| == |old(received)| + bytesRead && Unpacks(rdata0, rdata1, received[|old(received)|..])
      ensures request == old(request) && start == old(start)
      ensures done <==> old(remaining) == 0
      ensures done ==> Readable(start) && emitted == old(emitted) == OneShot(start)
      ensures done ==> response == [0, 0] + received && responseLen == 0 && |received| == Reads(emitted)
      ensures done ==> Walk(start, 0) == Ending(rw, writing, false)
      ensures !done ==> Valid() && remaining < old(remaining)
      ensures !done ==> emitted == old(emitted) + loaded
    {
      var got := ReadOut(rdata0, rdata1, bytesRead);
      StoreBatch(got);
      assert received[|old(received)|..] == got;
      done, response := remaining == 0, [];
      if done {
        AtEnd(buf[..], request, rw, writing, start, emitted, received);
        response := buf[..RESPONSE_DATA_OFFSET + responseLen];
        assert response == buf[..2] + buf[..][2..2 + responseLen];
        responseLen, len := 0, 0;
      } else {
        LoadNext();
      }
    }

    /**
     A whole request, whatever the controller reads in each batch: the operations loaded, over all batches, are what the
     driver makes of the request the client wrote, although the response was being written over it; and the response is
     the bytes read, in order, behind an OK status. Of a well-formed request it makes what it means, and nothing of a
     read or write is left. Of one that is cut off inside a read or write, that much is left.
     */
    method Serve(size: nat, busAddress: nat, hw: nat -> (bv32, bv32))
      returns (response: seq<Byte>, loads: seq<Batch>, ghost batches: seq<seq<Emit>>)
      requires 2 <= buf.Length && size <= buf.Length && size <= MAX_DATA_SIZE && busAddress <= MAX_BUS_ADDRESS
      requires responseLen == 0 && (rw == 0 || writing) && Readable(Cursor(buf[..size], rw, writing))
      modifies this, buf
      ensures AllLoaded(loads, batches) && emitted == Concat(batches)
      ensures Readable(old(Cursor(buf[..size], rw, writing)))
      ensures emitted == OneShot(old(Cursor(buf[..size], rw, writing)))
      ensures received == Gathered(hw, batches) && |received| == Reads(emitted) && response == [0, 0] + received
      ensures exists parts :: Unpacked(hw, batches, parts) && received == Concat(parts)
      ensures Walk(old(Cursor(buf[..size], rw, writing)), 0) == Ending(rw, writing, false) && responseLen == 0
      ensures old(rw) == 0 && Legal(Cursor(old(buf[..size]), 0, false)) ==>
                emitted == Meaning(Parse(old(buf[..size]))) && rw == 0
    {
      ghost var whole, rw0, first := buf[..size], rw, Cursor(buf[..size], rw, writing);
      var accepted := HandleRequest(size, busAddress);
      var done, k := false, 0;
      response, loads, batches := [], [] + [regs], [] + [loaded];
      LogStart(hw);
      assert [] + loaded == emitted;
      LogLoad(hw, [], [], [], [], 0, regs, loaded);
      while !done
        invariant start == first && Readable(first)
        invariant Logged(hw, loads, batches, emitted, received, k)
        invariant |batches| == if done then k else k + 1
        invariant !done ==> Valid() && loaded == batches[k]
        invariant done ==> emitted == OneShot(first) && response == [ERR_OK, 0] + received
        invariant done ==> Walk(first, 0) == Ending(rw, writing, false) && responseLen == 0
        invariant done ==> |received| == Reads(emitted)
        decreases !done, remaining
      {
        CountIs(regs, loaded);
        LogRead(hw, loads, batches, emitted, received, k);
        ghost var before := emitted;
        done, response := HandleResponse(hw(k).0, hw(k).1, regs.rdataOffset as nat);
        k := k + 1;
        if !done {
          LogLoad(hw, loads, batches, before, received, k, regs, loaded);
          loads, batches := loads + [regs], batches + [loaded];
        }
      }
      LogEnd(hw, loads, batches, emitted, received);
      GatheredUnpacks(hw, batches);
      if rw0 == 0 && Legal(Cursor(whole, 0, false)) {
        WholeRequest(whole, first.writing);
      }
    }
  }

  /** What the driver makes of a well-formed request is what it means. */
  lemma WholeRequest(request: seq<Byte>, writing: bool)
    requires Legal(Cursor(request, 0, false))
    ensures Readable(Cursor(request, 0, writing)) && OneShot(Cursor(request, 0, writing)) == Meaning(Parse(request))
    ensures Walk(Cursor(request, 0, writing), 0).rw == 0
  {
    LegalIsEncoded(request);
    TranslationIsMeaning(Parse(request), writing);
    LegalExactly(Cursor(request, 0, writing), 0);
  }

  /**
   With a read left over from the request before, a response does overwrite the request: eight bytes read for the first
   eight bytes of the request reach over the ninth and tenth, which are not loaded yet.
   */
  lemma LeftoverReadOverwrites(request: seq<Byte>, got: seq<Byte>)
    requires |request| >= 10 && |got| == 8 && got[6..] != request[8..10]
    ensures RestIntact(request, request, 8) && !RestIntact(Stored(request, 0, got), request, 8)
  {
    var s := Stored(request, 0, got);
    assert s[8..10] == got[6..];
    assert s[8..|request|][..2] == s[8..10] && request[8..][..2] == request[8..10];
  }
}
