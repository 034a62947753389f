/**
 I2C requests and what they mean. A client writes a request as bytes: START, STOP and END are one byte each; a write is
 ADDR_WRITE, a length and that many bytes; a read is ADDR_READ, a length and that many bytes of padding. The Meson
 driver turns it into hardware tokens, one at a time, from wherever the previous batch left off.
 */
module I2cRequest {
  import opened Sequences

  newtype Byte = x: int | 0 <= x < 256

  // Tokens of a request (include/sddf/i2c/queue.h)
  const TOKEN_END: Byte := 0
  const TOKEN_START: Byte := 1
  const TOKEN_ADDR_WRITE: Byte := 2
  const TOKEN_ADDR_READ: Byte := 3
  const TOKEN_STOP: Byte := 4

  // Tokens of the hardware (drivers/i2c/meson/driver.h)
  const MESON_END: Byte := 0
  const MESON_START: Byte := 1
  const MESON_ADDR_WRITE: Byte := 2
  const MESON_ADDR_READ: Byte := 3
  const MESON_DATA: Byte := 4
  const MESON_DATA_END: Byte := 5
  const MESON_STOP: Byte := 6

  datatype Op = Start | Stop | End | Write(data: seq<Byte>) | Read(padding: seq<Byte>)

  /** One hardware operation: a token, with the byte it sends if it sends one. */
  datatype Emit = Plain(token: Byte) | Send(data: Byte) | Receive(last: bool)

  function TokenOf(e: Emit): Byte
  {
    match e
    case Plain(token) => token
    case Send(_) => MESON_DATA
    case Receive(last) => if last then MESON_DATA_END else MESON_DATA
  }

  // ---- What a request means ---------------------------------------------------------------

  /** The length of a write or read fits its length byte. */
  predicate Fits(op: Op)
  {
    match op
    case Write(data) => |data| < 256
    case Read(padding) => |padding| < 256
    case _ => true
  }

  predicate AllFit(ops: seq<Op>)
  {
    forall i :: 0 <= i < |ops| ==> Fits(ops[i])
  }

  function EncodeOp(op: Op): seq<Byte>
    requires Fits(op)
  {
    match op
    case Start => [TOKEN_START]
    case Stop => [TOKEN_STOP]
    case End => [TOKEN_END]
    case Write(data) => [TOKEN_ADDR_WRITE, |data| as Byte] + data
    case Read(padding) => [TOKEN_ADDR_READ, |padding| as Byte] + padding
  }

  function Encode(ops: seq<Op>): seq<Byte>
    requires AllFit(ops)
  {
    if ops == [] then [] else EncodeOp(ops[0]) + Encode(ops[1..])
  }

  function Sends(data: seq<Byte>): (r: seq<Emit>)
    ensures |r| == |data| && forall i :: 0 <= i < |data| ==> r[i] == Send(data[i])
  {
    seq(|data|, i requires 0 <= i < |data| => Send(data[i]))
  }

  /** Reading n bytes: the last is announced to the hardware as such. */
  function Receives(n: nat): (r: seq<Emit>)
    ensures |r| == n && forall i :: 0 <= i < n ==> r[i] == Receive(i == n - 1)
  {
    seq(n, i requires 0 <= i < n => Receive(i == n - 1))
  }

  function MeaningOp(op: Op): seq<Emit>
  {
    match op
    case Start => [Plain(MESON_START)]
    case Stop => [Plain(MESON_STOP)]
    case End => [Plain(MESON_END)]
    case Write(data) => [Plain(MESON_ADDR_WRITE)] + Sends(data)
    case Read(padding) => [Plain(MESON_ADDR_READ)] + Receives(|padding|)
  }

  function Meaning(ops: seq<Op>): seq<Emit>
  {
    if ops == [] then [] else MeaningOp(ops[0]) + Meaning(ops[1..])
  }

  // ---- How the driver goes through it -----------------------------------------------------

  /** i2c_token_convert; an unknown token becomes -1 as a byte. */
  function Convert(token: Byte): Byte
  {
    if token == TOKEN_END then MESON_END
    else if token == TOKEN_START then MESON_START
    else if token == TOKEN_ADDR_WRITE then MESON_ADDR_WRITE
    else if token == TOKEN_ADDR_READ then MESON_ADDR_READ
    else if token == TOKEN_STOP then MESON_STOP
    else 0xFF
  }

  /** Where the driver is: the rest of the request, how much of a read or write is left (rw_remaining), and which. */
  datatype Cursor = Cursor(rest: seq<Byte>, rw: nat, writing: bool)

  /** A token that is an operation by itself. */
  predicate IsSingle(token: Byte)
  {
    token == TOKEN_START || token == TOKEN_STOP || token == TOKEN_END
  }

  /** A token that a length and that many bytes follow. */
  predicate IsBuffered(token: Byte)
  {
    token == TOKEN_ADDR_WRITE || token == TOKEN_ADDR_READ
  }

  /** The rest is well formed: whole operations, after what is left of the current one. */
  predicate Legal(c: Cursor)
    decreases |c.rest|
  {
    if c.rest == [] then c.rw == 0
    else if c.rw != 0 then Legal(Cursor(c.rest[1..], c.rw - 1, c.writing))
    else if IsSingle(c.rest[0]) then Legal(Cursor(c.rest[1..], 0, c.writing))
    else
      && IsBuffered(c.rest[0]) && |c.rest| >= 2
           && Legal(Cursor(c.rest[2..], c.rest[1] as nat, c.rest[0] == TOKEN_ADDR_WRITE))
  }

  /** The driver can go through the rest: it knows every token, and every length is there. */
  predicate Readable(c: Cursor)
    decreases |c.rest|
  {
    if c.rest == [] then true
    else if c.rw != 0 then Readable(Cursor(c.rest[1..], c.rw - 1, c.writing))
    else if IsSingle(c.rest[0]) then Readable(Cursor(c.rest[1..], 0, c.writing))
    else
      && IsBuffered(c.rest[0]) && |c.rest| >= 2
      && Readable(Cursor(c.rest[2..], c.rest[1] as nat, c.rest[0] == TOKEN_ADDR_WRITE))
  }

  lemma {:induction false} LegalIsReadable(c: Cursor)
    requires Legal(c)
    ensures Readable(c)
    decreases |c.rest|
  {
    if c.rest != [] {
      if c.rw != 0 {
        LegalIsReadable(Cursor(c.rest[1..], c.rw - 1, c.writing));
      } else if IsSingle(c.rest[0]) {
        LegalIsReadable(Cursor(c.rest[1..], 0, c.writing));
      } else {
        LegalIsReadable(Cursor(c.rest[2..], c.rest[1] as nat, c.rest[0] == TOKEN_ADDR_WRITE));
      }
    }
  }

  /** The next hardware operation. */
  function Emitted(c: Cursor): Emit
    requires c.rest != []
  {
    if c.rw == 0 then Plain(Convert(c.rest[0]))
    else if c.writing then Send(c.rest[0])
    else Receive(c.rw == 1)
  }

  /** Bytes of the request it uses up. */
  function Width(c: Cursor): nat
    requires c.rest != []
  {
    if c.rw == 0 && IsBuffered(c.rest[0]) then 2 else 1
  }

  function Advance(c: Cursor): (c': Cursor)
    requires c.rest != [] && Readable(c)
    ensures Readable(c') && |c'.rest| == |c.rest| - Width(c)
  {
    if c.rw != 0 then Cursor(c.rest[1..], c.rw - 1, c.writing)
    else if Width(c) == 2 then Cursor(c.rest[2..], c.rest[1] as nat, c.rest[0] == TOKEN_ADDR_WRITE)
    else Cursor(c.rest[1..], 0, c.writing)
  }

  /** Everything still to be emitted: the translation of the rest in one go. */
  function OneShot(c: Cursor): seq<Emit>
    requires Readable(c)
    decreases |c.rest|
  {
    if c.rest == [] then [] else [Emitted(c)] + OneShot(Advance(c))
  }

  // ---- The driver's translation is the request's meaning ------------------------------------

  function Transfers(data: seq<Byte>, writing: bool): (r: seq<Emit>)
    ensures |r| == |data|
  {
    if writing then Sends(data) else Receives(|data|)
  }

  lemma TransfersFirst(data: seq<Byte>, writing: bool)
    requires data != []
    ensures Transfers(data, writing) == [if writing then Send(data[0]) else Receive(|data| == 1)]
              + Transfers(data[1..], writing)
  {
  }

  lemma OneShotFirst(c: Cursor)
    requires c.rest != [] && c.rw > 0 && Readable(Cursor(c.rest[1..], c.rw - 1, c.writing))
    ensures Readable(c)
    ensures OneShot(c) == [if c.writing then Send(c.rest[0]) else Receive(c.rw == 1)]
                          + OneShot(Cursor(c.rest[1..], c.rw - 1, c.writing))
  {
  }

  /** Through the bytes of a write or read. */
  lemma {:induction false} InsideBuffer(data: seq<Byte>, writing: bool, tail: seq<Byte>)
    requires Readable(Cursor(tail, 0, writing))
    ensures Readable(Cursor(data + tail, |data|, writing))
    ensures Legal(Cursor(tail, 0, writing)) ==> Legal(Cursor(data + tail, |data|, writing))
    ensures OneShot(Cursor(data + tail, |data|, writing))
              == Transfers(data, writing) + OneShot(Cursor(tail, 0, writing))
    decreases |data|
  {
    var c, end := Cursor(data + tail, |data|, writing), Cursor(tail, 0, writing);
    if data == [] {
      assert data + tail == tail;
      assert Transfers(data, writing) == [];
    } else {
      InsideBuffer(data[1..], writing, tail);
      assert c.rest[1..] == data[1..] + tail;
      OneShotFirst(c);
      TransfersFirst(data, writing);
      var first := if writing then Send(data[0]) else Receive(|data| == 1);
      AppendAssociates([first], Transfers(data[1..], writing), OneShot(end));
    }
  }

  /** A buffered operation: token, length, bytes. */
  lemma BufferedOp(token: Byte, data: seq<Byte>, tail: seq<Byte>, writing: bool)
    requires |data| < 256 && IsBuffered(token)
    requires Readable(Cursor(tail, 0, token == TOKEN_ADDR_WRITE)) && Legal(Cursor(tail, 0, token == TOKEN_ADDR_WRITE))
    ensures var c := Cursor([token, |data| as Byte] + data + tail, 0, writing);
            Legal(c) && Readable(c) && OneShot(c) == ([Plain(token)] + Transfers(data, token == TOKEN_ADDR_WRITE))
                                      + OneShot(Cursor(tail, 0, token == TOKEN_ADDR_WRITE))
  {
    var c := Cursor([token, |data| as Byte] + data + tail, 0, writing);
    InsideBuffer(data, token == TOKEN_ADDR_WRITE, tail);
    assert c.rest[2..] == data + tail;
    assert Legal(c) && Readable(c);
    assert Advance(c) == Cursor(data + tail, |data|, token == TOKEN_ADDR_WRITE);
    AppendAssociates([Plain(token)], Transfers(data, token == TOKEN_ADDR_WRITE),
        OneShot(Cursor(tail, 0, token == TOKEN_ADDR_WRITE)));
  }

  /** An operation of one byte. */
  lemma SingleOp(token: Byte, tail: seq<Byte>, writing: bool)
    requires IsSingle(token) && Legal(Cursor(tail, 0, writing)) && Readable(Cursor(tail, 0, writing))
    ensures var c := Cursor([token] + tail, 0, writing);
            Legal(c) && Readable(c) && OneShot(c) == [Plain(Convert(token))] + OneShot(Cursor(tail, 0, writing))
  {
    var c := Cursor([token] + tail, 0, writing);
    assert c.rest[1..] == tail;
  }

  /** The driver's translation of a request, whatever it did before, is what the request means. */
  lemma {:induction false} TranslationIsMeaning(ops: seq<Op>, writing: bool)
    requires AllFit(ops)
    ensures Legal(Cursor(Encode(ops), 0, writing)) && Readable(Cursor(Encode(ops), 0, writing))
    ensures OneShot(Cursor(Encode(ops), 0, writing)) == Meaning(ops)
  {
    if ops != [] {
      var op, tail := ops[0], Encode(ops[1..]);
      if op.Write? {
        TranslationIsMeaning(ops[1..], true);
        BufferedOp(TOKEN_ADDR_WRITE, op.data, tail, writing);
      } else if op.Read? {
        TranslationIsMeaning(ops[1..], false);
        BufferedOp(TOKEN_ADDR_READ, op.padding, tail, writing);
      } else {
        TranslationIsMeaning(ops[1..], writing);
        SingleOp(EncodeOp(op)[0], tail, writing);
      }
    }
  }

  /** The operations of a well-formed request. */
  function Parse(s: seq<Byte>): seq<Op>
    decreases |s|
  {
    if s == [] then []
    else if s[0] == TOKEN_START then [Start] + Parse(s[1..])
    else if s[0] == TOKEN_STOP then [Stop] + Parse(s[1..])
    else if s[0] == TOKEN_END then [End] + Parse(s[1..])
    else if |s| < 2 || |s| < 2 + s[1] as nat then []
    else
      var n := s[1] as nat;
      [if s[0] == TOKEN_ADDR_WRITE then Write(s[2..2 + n]) else Read(s[2..2 + n])] + Parse(s[2 + n..])
  }

  lemma {:induction false} LegalSkip(s: seq<Byte>, n: nat, writing: bool)
    requires Legal(Cursor(s, n, writing))
    ensures n <= |s| && Legal(Cursor(s[n..], 0, writing))
    decreases |s|
  {
    if n > 0 {
      LegalSkip(s[1..], n - 1, writing);
      assert s[1..][n - 1..] == s[n..];
    } else {
      assert s[0..] == s;
    }
  }

  lemma EncodeFirst(op: Op, ops: seq<Op>, s: seq<Byte>)
    requires Fits(op) && AllFit(ops) && s == EncodeOp(op) + Encode(ops)
    ensures AllFit([op] + ops) && Encode([op] + ops) == s
  {
    assert ([op] + ops)[1..] == ops;
  }

  lemma ParseFirst(s: seq<Byte>) returns (op: Op, k: nat)
    requires Legal(Cursor(s, 0, false)) && s != []
    ensures 0 < k <= |s| && Fits(op) && s == EncodeOp(op) + s[k..] && Parse(s) == [op] + Parse(s[k..])
    ensures Legal(Cursor(s[k..], 0, false))
  {
    if IsSingle(s[0]) {
      op, k := if s[0] == TOKEN_START then Start else if s[0] == TOKEN_STOP then Stop else End, 1;
      assert s == [s[0]] + s[1..];
    } else {
      var n, w := s[1] as nat, s[0] == TOKEN_ADDR_WRITE;
      LegalSkip(s[2..], n, w);
      op, k := if w then Write(s[2..2 + n]) else Read(s[2..2 + n]), 2 + n;
      assert s[2..][n..] == s[k..];
      LegalIsReadable(Cursor(s[k..], 0, w));
      DirectionIrrelevant(s[k..], w, false);
      assert s == [s[0], s[1]] + s[2..2 + n] + s[k..];
    }
  }

  /** Every request the driver can go through to the end is the encoding of some operations. */
  lemma {:induction false} LegalIsEncoded(s: seq<Byte>)
    requires Legal(Cursor(s, 0, false))
    ensures AllFit(Parse(s)) && Encode(Parse(s)) == s
    decreases |s|
  {
    if s != [] {
      var op, k := ParseFirst(s);
      LegalIsEncoded(s[k..]);
      EncodeFirst(op, Parse(s[k..]), s);
    }
  }

  /** Between operations it does not matter which way the last one went. */
  lemma {:induction false} DirectionIrrelevant(s: seq<Byte>, v: bool, w: bool)
    requires Readable(Cursor(s, 0, v))
    ensures Readable(Cursor(s, 0, w)) && OneShot(Cursor(s, 0, w)) == OneShot(Cursor(s, 0, v))
    ensures Legal(Cursor(s, 0, v)) ==> Legal(Cursor(s, 0, w))
    decreases |s|
  {
    if s != [] && IsSingle(s[0]) {
      DirectionIrrelevant(s[1..], v, w);
    }
  }

  // ---- Requests that are cut off --------------------------------------------------------------

  /**
   How a walk through the rest ends: rw_remaining, data_direction, and whether the last length byte lay beyond the end.
   */
  datatype Ending = Ending(rw: nat, writing: bool, past: bool)

  /**
   The driver's walk through any bytes. A token it does not know takes one byte; the length of an address token that
   is the last byte of the request is read from the byte beyond it.
   */
  function Walk(c: Cursor, beyond: Byte): Ending
    decreases |c.rest|
  {
    if c.rest == [] then Ending(c.rw, c.writing, false)
    else if c.rw != 0 then Walk(Cursor(c.rest[1..], c.rw - 1, c.writing), beyond)
    else if !IsBuffered(c.rest[0]) then Walk(Cursor(c.rest[1..], 0, c.writing), beyond)
    else if |c.rest| < 2 then Ending(beyond as nat, c.rest[0] == TOKEN_ADDR_WRITE, true)
    else Walk(Cursor(c.rest[2..], c.rest[1] as nat, c.rest[0] == TOKEN_ADDR_WRITE), beyond)
  }

  /** Wherever the walk looks for a token it finds one it knows. */
  predicate AllKnown(c: Cursor)
    decreases |c.rest|
  {
    if c.rest == [] then true
    else if c.rw != 0 then AllKnown(Cursor(c.rest[1..], c.rw - 1, c.writing))
    else if IsSingle(c.rest[0]) then AllKnown(Cursor(c.rest[1..], 0, c.writing))
    else
      && IsBuffered(c.rest[0])
      && (|c.rest| >= 2 ==> AllKnown(Cursor(c.rest[2..], c.rest[1] as nat, c.rest[0] == TOKEN_ADDR_WRITE)))
  }

  /**
   A request is well formed exactly if the driver knows its tokens and is left with nothing of a read or write, nor
   with an offset beyond the end, when it has gone through it.
   */
  lemma {:induction false} LegalExactly(c: Cursor, beyond: Byte)
    ensures Legal(c) <==> AllKnown(c) && Walk(c, beyond).rw == 0 && !Walk(c, beyond).past
    decreases |c.rest|
  {
    if c.rest != [] {
      if c.rw != 0 {
        LegalExactly(Cursor(c.rest[1..], c.rw - 1, c.writing), beyond);
      } else if IsSingle(c.rest[0]) {
        LegalExactly(Cursor(c.rest[1..], 0, c.writing), beyond);
      } else if IsBuffered(c.rest[0]) && |c.rest| >= 2 {
        LegalExactly(Cursor(c.rest[2..], c.rest[1] as nat, c.rest[0] == TOKEN_ADDR_WRITE), beyond);
      }
    }
  }

  /** The driver can go through a request exactly if it knows its tokens and reads no length beyond its end. */
  lemma {:induction false} ReadableExactly(c: Cursor, beyond: Byte)
    ensures Readable(c) <==> AllKnown(c) && !Walk(c, beyond).past
    decreases |c.rest|
  {
    if c.rest != [] {
      if c.rw != 0 {
        ReadableExactly(Cursor(c.rest[1..], c.rw - 1, c.writing), beyond);
      } else if IsSingle(c.rest[0]) {
        ReadableExactly(Cursor(c.rest[1..], 0, c.writing), beyond);
      } else if IsBuffered(c.rest[0]) && |c.rest| >= 2 {
        ReadableExactly(Cursor(c.rest[2..], c.rest[1] as nat, c.rest[0] == TOKEN_ADDR_WRITE), beyond);
      }
    }
  }

  /**
   What is left over of a read or write is taken out of the next request, so many bytes of which are read as its bytes;
   what comes behind them is read as a request.
   */
  lemma {:induction false} LeftoverSwallows(rw: nat, writing: bool, next: seq<Byte>, beyond: Byte)
    ensures rw >= |next| ==> Walk(Cursor(next, rw, writing), beyond) == Ending(rw - |next|, writing, false)
    ensures rw <= |next| ==> Walk(Cursor(next, rw, writing), beyond) == Walk(Cursor(next[rw..], 0, writing), beyond)
    ensures rw > 0 && next != [] ==> !Emitted(Cursor(next, rw, writing)).Plain?
    ensures Legal(Cursor(next, rw, writing)) <==> rw <= |next| && Legal(Cursor(next[rw..], 0, writing))
    decreases |next|
  {
    if rw == 0 {
      assert next[0..] == next;
    } else if next != [] {
      LeftoverSwallows(rw - 1, writing, next[1..], beyond);
      assert rw <= |next| ==> next[1..][rw - 1..] == next[rw..];
    }
  }

  /**
   A write of five bytes of which the request holds one: the driver stays four bytes short, and the START, the read
   and the STOP of the next request go out as data.
   */
  lemma CutOffInstance(beyond: Byte)
    ensures var cut, next := [TOKEN_START, TOKEN_ADDR_WRITE, 5, 7], [TOKEN_START, TOKEN_ADDR_READ, 0, TOKEN_STOP];
            && AllKnown(Cursor(cut, 0, false)) && Walk(Cursor(cut, 0, false), beyond) == Ending(4, true, false)
            && Legal(Cursor(next, 0, true)) && Emitted(Cursor(next, 0, true)) == Plain(MESON_START)
            && Legal(Cursor(next, 4, true)) && Readable(Cursor(next, 4, true))
            && OneShot(Cursor(next, 4, true)) == Sends(next)
  {
    var cut, next := [TOKEN_START, TOKEN_ADDR_WRITE, 5, 7], [TOKEN_START, TOKEN_ADDR_READ, 0, TOKEN_STOP];
    assert cut[1..] == [TOKEN_ADDR_WRITE, 5, 7] && cut[1..][2..] == [7] && [7 as Byte][1..] == [];
    assert Walk(Cursor([7], 5, true), beyond) == Ending(4, true, false);
    assert next[1..] == [TOKEN_ADDR_READ, 0, TOKEN_STOP] && next[1..][2..] == [TOKEN_STOP] && [TOKEN_STOP][1..] == [];
    assert Legal(Cursor([TOKEN_STOP], 0, false));
    InsideBuffer(next, true, []);
    assert next + [] == next && Sends(next) + [] == Sends(next);
  }
}
