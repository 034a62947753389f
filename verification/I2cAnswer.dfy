/**
 Whether a request is ever answered: load by load through any bytes, well formed or not (i2c_load_tokens and
 handle_response of drivers/i2c/meson/i2c.c), with the arithmetic of int and size_t by which the driver keeps its place.
 */
module I2cAnswer {
  import opened I2cRequest

  const SIZE_MODULUS: nat := 0x1_0000_0000_0000_0000
  const MAX_REQUEST: nat := 128

  /** Where the driver is in a request: request_data_offset, rw_remaining, data_direction. */
  datatype Spot = Spot(off: nat, rw: nat, writing: bool)

  /** One round of the loop, on whatever byte is there; the length behind the last byte is the byte beyond. */
  function Step(request: seq<Byte>, beyond: Byte, p: Spot): (p': Spot)
    requires p.off < |request|
    ensures p.off < p'.off <= |request| + 1
  {
    if p.rw != 0 then Spot(p.off + 1, p.rw - 1, p.writing)
    else if !IsBuffered(request[p.off]) then Spot(p.off + 1, 0, p.writing)
    else
      var length := if p.off + 1 < |request| then request[p.off + 1] else beyond;
      Spot(p.off + 2, length as nat, request[p.off] == TOKEN_ADDR_WRITE)
  }

  /** i2c_load_tokens: as many rounds as the registers have room for, and the request has bytes for. */
  function Load(request: seq<Byte>, beyond: Byte, p: Spot, tk: nat, wd: nat, rd: nat): (p': Spot)
    ensures p.off <= p'.off
    ensures p.off <= |request| + 1 ==> p'.off <= |request| + 1
    ensures p.off >= |request| ==> p' == p
    ensures p.off < |request| && tk < 16 && wd < 8 && rd < 8 ==> p.off < p'.off
    decreases if p.off < |request| then |request| - p.off else 0
  {
    if tk < 16 && wd < 8 && rd < 8 && p.off < |request| then
      Load(request, beyond, Step(request, beyond, p), tk + 1, wd + if p.rw != 0 && p.writing then 1 else 0,
           rd + if p.rw != 0 && !p.writing then 1 else 0)
    else p
  }

  /** Of tokens without data, a load takes sixteen. */
  lemma {:induction false} LoadsSixteenTokens(request: seq<Byte>, beyond: Byte, p: Spot, tk: nat)
    requires p.rw == 0 && tk <= 16 && p.off <= |request|
    requires forall i :: p.off <= i < |request| ==> !IsBuffered(request[i])
    ensures Load(request, beyond, p, tk, 0, 0).off
              == if p.off + (16 - tk) <= |request| then p.off + (16 - tk) else |request|
    decreases |request| - p.off
  {
    if tk < 16 && p.off < |request| {
      LoadsSixteenTokens(request, beyond, Step(request, beyond, p), tk + 1);
    }
  }

  /** Within a write or a read, it takes eight bytes. */
  lemma {:induction false} LoadsEightBytes(request: seq<Byte>, beyond: Byte, p: Spot, n: nat)
    requires n <= 8 && p.off <= |request| <= p.off + p.rw
    ensures var p' := if p.writing then Load(request, beyond, p, n, n, 0) else Load(request, beyond, p, n, 0, n);
            p'.off == if p.off + (8 - n) <= |request| then p.off + (8 - n) else |request|
    decreases |request| - p.off
  {
    if n < 8 && p.off < |request| {
      LoadsEightBytes(request, beyond, Step(request, beyond, p), n + 1);
    }
  }

  /** STATE_PTR->remaining, a size_t, computed from two ints. */
  function Remaining(len: nat, off: nat): nat
  {
    (len - off) % SIZE_MODULUS
  }

  /** request_data_offset, an int, from what remains. */
  function Resume(len: nat, remaining: nat): int
  {
    var d := (len - remaining) % 0x1_0000_0000;
    if d < 0x8000_0000 then d else d - 0x1_0000_0000
  }

  /** The driver finds its place again, also when it is beyond the end of the request. */
  lemma ResumeIs(len: nat, off: nat)
    requires len <= MAX_REQUEST && off <= len + 1
    ensures Resume(len, Remaining(len, off)) == off && (Remaining(len, off) == 0 <==> off == len)
  {
  }

  /** After the first load and so many further ones, one for each response of the controller. */
  function Loads(request: seq<Byte>, beyond: Byte, p: Spot, n: nat): (p': Spot)
    requires |request| <= MAX_REQUEST && p.off <= |request| + 1
    ensures p'.off <= |request| + 1
  {
    if n == 0 then Load(request, beyond, p, 0, 0, 0)
    else
      var q := Loads(request, beyond, p, n - 1);
      ResumeIs(|request|, q.off);
      Load(request, beyond, q.(off := Resume(|request|, Remaining(|request|, q.off))), 0, 0, 0)
  }

  /** handle_response hands the response back once nothing remains. */
  ghost predicate IsAnswered(request: seq<Byte>, beyond: Byte, rw: nat, writing: bool)
    requires |request| <= MAX_REQUEST
  {
    exists n: nat :: Remaining(|request|, Loads(request, beyond, Spot(0, rw, writing), n).off) == 0
  }

  /** How the walk goes on from here; beyond the end it is over. */
  function WalkFrom(request: seq<Byte>, beyond: Byte, p: Spot): Ending
  {
    if p.off <= |request| then Walk(Cursor(request[p.off..], p.rw, p.writing), beyond)
    else Ending(p.rw, p.writing, true)
  }

  lemma StepWalks(request: seq<Byte>, beyond: Byte, p: Spot)
    requires p.off < |request|
    ensures WalkFrom(request, beyond, Step(request, beyond, p)) == WalkFrom(request, beyond, p)
  {
    var rest := request[p.off..];
    assert rest[1..] == request[p.off + 1..];
    if p.off + 2 <= |request| {
      assert rest[2..] == request[p.off + 2..];
    }
  }

  lemma {:induction false} LoadWalks(request: seq<Byte>, beyond: Byte, p: Spot, tk: nat, wd: nat, rd: nat)
    ensures WalkFrom(request, beyond, Load(request, beyond, p, tk, wd, rd)) == WalkFrom(request, beyond, p)
    decreases if p.off < |request| then |request| - p.off else 0
  {
    if tk < 16 && wd < 8 && rd < 8 && p.off < |request| {
      StepWalks(request, beyond, p);
      LoadWalks(request, beyond, Step(request, beyond, p), tk + 1, wd + if p.rw != 0 && p.writing then 1 else 0,
                rd + if p.rw != 0 && !p.writing then 1 else 0);
    }
  }

  lemma {:induction false} LoadsWalk(request: seq<Byte>, beyond: Byte, p: Spot, n: nat)
    requires |request| <= MAX_REQUEST && p.off <= |request| + 1
    ensures WalkFrom(request, beyond, Loads(request, beyond, p, n)) == WalkFrom(request, beyond, p)
  {
    if n == 0 {
      LoadWalks(request, beyond, p, 0, 0, 0);
    } else {
      LoadsWalk(request, beyond, p, n - 1);
      var q := Loads(request, beyond, p, n - 1);
      ResumeIs(|request|, q.off);
      LoadWalks(request, beyond, q, 0, 0, 0);
    }
  }

  /** Every load takes at least a byte of the request, as long as there is one. */
  lemma {:induction false} LoadsAdvance(request: seq<Byte>, beyond: Byte, p: Spot, n: nat)
    requires |request| <= MAX_REQUEST && p.off <= |request| + 1
    ensures var off := Loads(request, beyond, p, n).off; off > n || off >= |request|
  {
    if n > 0 {
      LoadsAdvance(request, beyond, p, n - 1);
      ResumeIs(|request|, Loads(request, beyond, p, n - 1).off);
    }
  }

  /**
   Whatever bytes a request consists of and whatever was left over before it: it is answered exactly if its last byte is
   not taken as an address token. Otherwise the driver stands one byte beyond its end, so that size_t wraps, and loads
   nothing, and is never done.
   */
  lemma AnsweredExactly(request: seq<Byte>, beyond: Byte, rw: nat, writing: bool)
    requires |request| <= 128
    ensures IsAnswered(request, beyond, rw, writing) <==> !Walk(Cursor(request, rw, writing), beyond).past
  {
    var p := Spot(0, rw, writing);
    assert request[0..] == request;
    forall n: nat
      ensures var off := Loads(request, beyond, p, n).off;
              Remaining(|request|, off) == 0 ==> !Walk(Cursor(request, rw, writing), beyond).past
    {
      LoadsWalk(request, beyond, p, n);
      ResumeIs(|request|, Loads(request, beyond, p, n).off);
    }
    if !Walk(Cursor(request, rw, writing), beyond).past {
      var n := |request|;
      LoadsAdvance(request, beyond, p, n);
      LoadsWalk(request, beyond, p, n);
      assert Loads(request, beyond, p, n).off == |request|;
      assert Remaining(|request|, Loads(request, beyond, p, n).off) == 0;
    }
  }

  /** A request that ends with an address token: after every load there are 2^64 - 1 bytes to go. */
  lemma NeverAnswered(beyond: Byte, n: nat)
    ensures var request := [TOKEN_START, TOKEN_ADDR_READ];
            Remaining(2, Loads(request, beyond, Spot(0, 0, false), n).off) == 0xFFFF_FFFF_FFFF_FFFF
  {
    OffEnd(beyond, n);
  }

  lemma {:induction false} OffEnd(beyond: Byte, n: nat)
    ensures Loads([TOKEN_START, TOKEN_ADDR_READ], beyond, Spot(0, 0, false), n).off == 3
  {
    var request, p := [TOKEN_START, TOKEN_ADDR_READ], Spot(0, 0, false);
    if n == 0 {
      var q := Spot(1, 0, false);
      assert Step(request, beyond, p) == q && Step(request, beyond, q).off == 3;
      assert Load(request, beyond, q, 1, 0, 0) == Load(request, beyond, Step(request, beyond, q), 2, 0, 0);
    } else {
      OffEnd(beyond, n - 1);
      ResumeIs(2, 3);
    }
  }
}
