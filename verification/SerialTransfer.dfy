/**
 Moving everything a client has queued to the driver's queue (serial_transfer_all and serial_transfer_all_colour), while
 the client may go on typing and the driver may go on taking characters. The two functions assert that there is room;
 this module says exactly when their assertions hold.
 */
module SerialTransfer {
  import opened Sequences

  const COLOUR_BEGIN_LEN: nat := 5
  const COLOUR_END_LEN: nat := 4

  /** The characters the colour codes add. */
  function Extra(colour: bool): nat
  {
    if colour then COLOUR_BEGIN_LEN + COLOUR_END_LEN else 0
  }

  function Min(a: nat, b: nat): nat
  {
    if a < b then a else b
  }

  /** What a queue of this length accepts of s: as much as fits. */
  function Accepted(len: nat, cap: nat, s: string): (r: string)
    requires len <= cap
    ensures r <= s && len + |r| == Min(cap, len + |s|)
  {
    s[..Min(|s|, cap - len)]
  }

  /** A client's queue after it typed s: what does not fit is not queued. */
  function Accept(q: string, cap: nat, s: string): (r: string)
    requires |q| <= cap
    ensures q <= r && |r| == Min(cap, |q| + |s|)
  {
    q + Accepted(|q|, cap, s)
  }

  /** How much of a queue of this length lies in one piece, its first character being at this position of its ring. */
  function Contiguous(len: nat, head: nat, cap: nat): (n: nat)
    requires 0 < len <= cap && head < cap
    ensures 0 < n <= len && head + n <= cap
  {
    Min(cap - head, len)
  }

  function Onward(head: nat, n: nat, cap: nat): (head': nat)
    requires head < cap && head + n <= cap
    ensures head' < cap
  {
    if head + n == cap then 0 else head + n
  }

  /**
   What happens during a transfer: at each of some points the client types and the driver takes so many characters; then
   both are quiet.
   */
  datatype Lates = Quiet | Late(typed: string, taken: nat, later: Lates)

  function Typed(lates: Lates): string
  {
    if lates.Quiet? then [] else lates.typed
  }

  function Taken(lates: Lates): nat
  {
    if lates.Quiet? then 0 else lates.taken
  }

  function Rest(lates: Lates): Lates
  {
    if lates.Quiet? then Quiet else lates.later
  }

  /** All that the client types. */
  function Total(lates: Lates): nat
  {
    if lates.Quiet? then 0 else |lates.typed| + Total(lates.later)
  }

  /** An assertion failed, or so many characters were moved, with this much room left in the driver's queue. */
  datatype Finish = Stopped | Through(room: nat, moved: nat)

  function Prepend(n: nat, o: Finish): Finish
  {
    if o.Stopped? then Stopped else Through(o.room, n + o.moved)
  }

  /** The loop of serial_transfer_all: piece by piece, until the client's queue is empty. */
  function Loop(size: nat, room: nat, len: nat, head: nat, cap: nat, lates: Lates): (o: Finish)
    requires len <= cap && head < cap && room <= size
    ensures o.Through? ==> o.room <= size
    decreases lates, len
  {
    if len == 0 then Through(room, 0)
    else
      var n := Contiguous(len, head, cap);
      if n > room then Stopped
      else
        var room', len' := Min(size, room - n + Taken(lates)), Min(cap, len - n + |Typed(lates)|);
        Prepend(n, Loop(size, room', len', Onward(head, n, cap), cap, Rest(lates)))
  }

  /** serial_transfer_all, from its assertion on; the first piece is measured after that. */
  function TransferPlain(size: nat, room: nat, len: nat, head: nat, cap: nat, lates: Lates): (o: Finish)
    requires len <= cap && head < cap && room <= size
    ensures o.Through? ==> o.room <= size
  {
    if len > room then Stopped
    else
      var room', len' := Min(size, room + Taken(lates)), Min(cap, len + |Typed(lates)|);
      Loop(size, room', len', head, cap, Rest(lates))
  }

  /** The end code after the queue, if there is room. */
  function EndCode(o: Finish): Finish
  {
    if o.Stopped? || o.room < COLOUR_END_LEN then Stopped else Through(o.room - COLOUR_END_LEN, o.moved)
  }

  /** serial_transfer_all_colour: the colour, the queue, the end code, with an assertion before each. */
  function TransferColour(size: nat, room: nat, len: nat, head: nat, cap: nat, lates: Lates): (o: Finish)
    requires len <= cap && head < cap && room <= size
    ensures o.Through? ==> o.room <= size
  {
    if len + Extra(true) > room then Stopped
    else
      var room', len' := Min(size, room - COLOUR_BEGIN_LEN + Taken(lates)), Min(cap, len + |Typed(lates)|);
      EndCode(TransferPlain(size, room', len', head, cap, Rest(lates)))
  }

  /** From the moment the queue was measured: whatever happens until the transfer begins comes first. */
  function Transfer(colour: bool, size: nat, room: nat, len: nat, head: nat, cap: nat, lates: Lates): (o: Finish)
    requires len <= cap && head < cap && room <= size
    ensures o.Through? ==> o.room <= size
  {
    var room', len' := Min(size, room + Taken(lates)), Min(cap, len + |Typed(lates)|);
    if colour then TransferColour(size, room', len', head, cap, Rest(lates))
    else TransferPlain(size, room', len', head, cap, Rest(lates))
  }

  // ---- What goes along --------------------------------------------------------------------------

  /** What the client adds to its queue while the loop runs: at each point, as much of what it types as fits. */
  function LoopAdds(len: nat, head: nat, cap: nat, lates: Lates): string
    requires len <= cap && head < cap
    decreases lates, len
  {
    if len == 0 then []
    else
      var n := Contiguous(len, head, cap);
      var a := Accepted(len - n, cap, Typed(lates));
      a + LoopAdds(len - n + |a|, Onward(head, n, cap), cap, Rest(lates))
  }

  /** The same before so many points, and then while the loop runs. */
  function Adds(points: nat, len: nat, head: nat, cap: nat, lates: Lates): string
    requires len <= cap && head < cap
  {
    if points == 0 then LoopAdds(len, head, cap, lates)
    else
      var a := Accepted(len, cap, Typed(lates));
      a + Adds(points - 1, len + |a|, head, cap, Rest(lates))
  }

  /** The points before the loop: before the transfer, after the colour code, and after the loop's assertion. */
  function Points(colour: bool): nat
  {
    if colour then 3 else 2
  }

  /** All the client types. */
  function Text(lates: Lates): (r: string)
    ensures |r| == Total(lates)
  {
    if lates.Quiet? then [] else lates.typed + Text(lates.later)
  }

  lemma TextRest(lates: Lates)
    ensures Text(lates) == Typed(lates) + Text(Rest(lates))
  {
  }

  /** Names the places where a proof compares what goes along with what is typed. */
  predicate Compared(k: int, added: string, lates: Lates)
  {
    true
  }

  /** This is some of what the client types, in order; all of it from the start on, if it fits. */
  ghost predicate FromText(added: string, lates: Lates, fits: bool)
  {
    forall k: int {:trigger Compared(k, added, lates)} :: Compared(k, added, lates) ==>
      IsSubsequence(added, Text(lates)) && (fits ==> added <= Text(lates))
  }

  lemma FromTextMeans(added: string, lates: Lates, fits: bool)
    ensures FromText(added, lates, fits) <==> IsSubsequence(added, Text(lates)) && (fits ==> added <= Text(lates))
  {
    assert Compared(0, added, lates);
  }

  /** What is typed at one point, and then the rest. */
  lemma JoinTyped(a: string, rest: string, lates: Lates, fits: bool)
    requires a <= Typed(lates) && FromText(rest, Rest(lates), fits) && (fits ==> a == Typed(lates))
    ensures FromText(a + rest, lates, fits)
  {
    TextRest(lates);
    FromTextMeans(rest, Rest(lates), fits);
    PrefixIsSubsequence(a, Typed(lates));
    SubsequenceJoin(a, Typed(lates), rest, Text(Rest(lates)));
    FromTextMeans(a + rest, lates, fits);
  }

  lemma LoopAddsRound(len: nat, head: nat, cap: nat, lates: Lates, n: nat, a: string)
    requires 0 < len <= cap && head < cap
    requires n == Contiguous(len, head, cap) && a == Accepted(len - n, cap, Typed(lates))
    ensures LoopAdds(len, head, cap, lates) == a + LoopAdds(len - n + |a|, Onward(head, n, cap), cap, Rest(lates))
  {
  }

  lemma {:induction false} LoopAddsTyped(len: nat, head: nat, cap: nat, lates: Lates, fits: bool)
    requires len <= cap && head < cap && (fits ==> len + Total(lates) <= cap)
    ensures FromText(LoopAdds(len, head, cap, lates), lates, fits)
    decreases lates, len
  {
    if len > 0 {
      var n := Contiguous(len, head, cap);
      var a := Accepted(len - n, cap, Typed(lates));
      TotalRest(lates);
      LoopAddsRound(len, head, cap, lates, n, a);
      LoopAddsTyped(len - n + |a|, Onward(head, n, cap), cap, Rest(lates), fits);
      JoinTyped(a, LoopAdds(len - n + |a|, Onward(head, n, cap), cap, Rest(lates)), lates, fits);
    } else {
      FromTextMeans([], lates, fits);
    }
  }

  lemma {:induction false} AddsFromText(points: nat, len: nat, head: nat, cap: nat, lates: Lates, fits: bool)
    requires len <= cap && head < cap && (fits ==> len + Total(lates) <= cap)
    ensures FromText(Adds(points, len, head, cap, lates), lates, fits)
  {
    if points == 0 {
      LoopAddsTyped(len, head, cap, lates, fits);
    } else {
      var a := Accepted(len, cap, Typed(lates));
      var rest := Adds(points - 1, len + |a|, head, cap, Rest(lates));
      TotalRest(lates);
      AddsFromText(points - 1, len + |a|, head, cap, Rest(lates), fits);
      JoinTyped(a, rest, lates, fits);
    }
  }

  /**
   What goes along is what the client typed, in order; with room for all of it in the client's queue, everything up to
   the end of the transfer.
   */
  lemma AddsTyped(points: nat, len: nat, head: nat, cap: nat, lates: Lates)
    requires len <= cap && head < cap
    ensures IsSubsequence(Adds(points, len, head, cap, lates), Text(lates))
    ensures len + Total(lates) <= cap ==> Adds(points, len, head, cap, lates) <= Text(lates)
  {
    var fits := len + Total(lates) <= cap;
    AddsFromText(points, len, head, cap, lates, fits);
    FromTextMeans(Adds(points, len, head, cap, lates), lates, fits);
  }

  // ---- When the assertions hold -----------------------------------------------------------------

  lemma TotalRest(lates: Lates)
    ensures Total(lates) == |Typed(lates)| + Total(Rest(lates))
  {
  }

  /** All was moved: at most this much, and the room taken up is what was moved. */
  predicate Fine(o: Finish, room: nat, most: nat)
  {
    o.Through? && o.moved <= most && room <= o.room + o.moved
  }

  lemma FineAfter(o: Finish, room: nat, most: nat, o': Finish, room': nat, most': nat, n: nat)
    requires o == Prepend(n, o') && Fine(o', room', most') && n <= room && room - n <= room' && n + most' <= most
    ensures Fine(o, room, most)
  {
  }

  /** One round of the loop. */
  lemma LoopRound(size: nat, room: nat, len: nat, head: nat, cap: nat, lates: Lates, n: nat, room': nat, len': nat)
    requires 0 < len <= cap && head < cap && n == Contiguous(len, head, cap) <= room <= size
    requires room' == Min(size, room - n + Taken(lates)) && len' == Min(cap, len - n + |Typed(lates)|)
    ensures Loop(size, room, len, head, cap, lates)
              == Prepend(n, Loop(size, room', len', Onward(head, n, cap), cap, Rest(lates)))
  {
  }

  /** Room for what is queued and for all that may be typed meanwhile is enough, and what is over stays over. */
  lemma {:induction false} LoopSafe(size: nat, room: nat, len: nat, head: nat, cap: nat, lates: Lates)
    requires len <= cap && head < cap && room <= size && len + Total(lates) <= room
    ensures Fine(Loop(size, room, len, head, cap, lates), room, len + Total(lates))
    decreases lates, len
  {
    if len > 0 {
      var n, rest := Contiguous(len, head, cap), Rest(lates);
      var room', len' := Min(size, room - n + Taken(lates)), Min(cap, len - n + |Typed(lates)|);
      TotalRest(lates);
      LoopRound(size, room, len, head, cap, lates, n, room', len');
      LoopSafe(size, room', len', Onward(head, n, cap), cap, rest);
      FineAfter(Loop(size, room, len, head, cap, lates), room, len + Total(lates),
                Loop(size, room', len', Onward(head, n, cap), cap, rest), room', len' + Total(rest), n);
    }
  }

  lemma PlainSafe(size: nat, room: nat, len: nat, head: nat, cap: nat, lates: Lates)
    requires len <= cap && head < cap && room <= size && len + Total(lates) <= room
    ensures Fine(TransferPlain(size, room, len, head, cap, lates), room, len + Total(lates))
  {
    TotalRest(lates);
    LoopSafe(size, Min(size, room + Taken(lates)), Min(cap, len + |Typed(lates)|), head, cap, Rest(lates));
  }

  lemma EndCodeFine(o: Finish, room: nat, most: nat, room': nat, most': nat)
    requires Fine(o, room', most') && most' <= most && room <= room' && most + COLOUR_END_LEN <= room
    ensures Fine(EndCode(o), room - COLOUR_END_LEN, most)
  {
  }

  lemma ColourSafe(size: nat, room: nat, len: nat, head: nat, cap: nat, lates: Lates)
    requires len <= cap && head < cap && room <= size && len + Total(lates) + Extra(true) <= room
    ensures Fine(TransferColour(size, room, len, head, cap, lates), room - Extra(true), len + Total(lates))
  {
    TotalRest(lates);
    var rest := Rest(lates);
    var room', len' := Min(size, room - COLOUR_BEGIN_LEN + Taken(lates)), Min(cap, len + |Typed(lates)|);
    var o := TransferPlain(size, room', len', head, cap, rest);
    assert TransferColour(size, room, len, head, cap, lates) == EndCode(o);
    PlainSafe(size, room', len', head, cap, rest);
    EndCodeFine(o, room - COLOUR_BEGIN_LEN, len + Total(lates), room', len' + Total(rest));
  }

  lemma TransferSafe(colour: bool, size: nat, room: nat, len: nat, head: nat, cap: nat, lates: Lates)
    requires len <= cap && head < cap && room <= size && len + Total(lates) + Extra(colour) <= room
    ensures Fine(Transfer(colour, size, room, len, head, cap, lates), room - Extra(colour), len + Total(lates))
  {
    TotalRest(lates);
    var room', len' := Min(size, room + Taken(lates)), Min(cap, len + |Typed(lates)|);
    if colour {
      ColourSafe(size, room', len', head, cap, Rest(lates));
    } else {
      PlainSafe(size, room', len', head, cap, Rest(lates));
    }
  }

  /** Names the places where a proof looks into a transfer. */
  predicate Seen(k: int, len: nat, lates: Lates)
  {
    true
  }

  /** The transfer ends like this: whether it gets through, and then what was moved and what room is left. */
  ghost predicate Ends(colour: bool, size: nat, room: nat, len: nat, head: nat, cap: nat, lates: Lates, ok: bool,
                       moved: nat, left: nat)
    requires len <= cap && head < cap && room <= size
  {
    forall k: int {:trigger Seen(k, len, lates)} :: Seen(k, len, lates) ==>
      EndsIn(Transfer(colour, size, room, len, head, cap, lates), ok, moved, left)
  }

  lemma EndsMeans(colour: bool, size: nat, room: nat, len: nat, head: nat, cap: nat, lates: Lates, ok: bool, moved: nat,
                  left: nat)
    requires len <= cap && head < cap && room <= size
    ensures Ends(colour, size, room, len, head, cap, lates, ok, moved, left)
            <==> EndsIn(Transfer(colour, size, room, len, head, cap, lates), ok, moved, left)
  {
    assert Seen(0, len, lates);
  }

  predicate EndsIn(o: Finish, ok: bool, moved: nat, left: nat)
  {
    (ok <==> o.Through?) && (ok ==> o == Through(left, moved))
  }

  /** The loop ends like this. */
  ghost predicate LoopEnds(size: nat, room: nat, len: nat, head: nat, cap: nat, lates: Lates, ok: bool, moved: nat,
                           left: nat)
    requires len <= cap && head < cap && room <= size
  {
    forall k: int {:trigger Seen(k, len, lates)} :: Seen(k, len, lates) ==>
      EndsIn(Loop(size, room, len, head, cap, lates), ok, moved, left)
  }

  /** The same for the two ways of transferring, with the room left in the end. */
  ghost predicate WayEnds(colour: bool, size: nat, room: nat, len: nat, head: nat, cap: nat, lates: Lates,
                          ok: bool, moved: nat, left: nat)
    requires len <= cap && head < cap && room <= size
  {
    forall k: int {:trigger Seen(k, len, lates)} :: Seen(k, len, lates) ==>
      EndsIn(if colour then TransferColour(size, room, len, head, cap, lates)
             else TransferPlain(size, room, len, head, cap, lates), ok, moved, left)
  }

  /** After the assertion, whatever happens before the first piece is measured; then the loop. */
  lemma PlainEnds(size: nat, room: nat, len: nat, head: nat, cap: nat, lates: Lates,
                  room': nat, len': nat, ok: bool, moved: nat, left: nat)
    requires len <= cap && head < cap && len <= room <= size
    requires room' == Min(size, room + Taken(lates)) && len' == Min(cap, len + |Typed(lates)|)
    requires LoopEnds(size, room', len', head, cap, Rest(lates), ok, moved, left)
    ensures WayEnds(false, size, room, len, head, cap, lates, ok, moved, left)
  {
    assert Seen(0, len', Rest(lates));
  }

  lemma PlainStops(size: nat, room: nat, len: nat, head: nat, cap: nat, lates: Lates, moved: nat, left: nat)
    requires len <= cap && head < cap && room < len && room <= size
    ensures WayEnds(false, size, room, len, head, cap, lates, false, moved, left)
  {
  }

  /** The colour code goes first; then, whatever happens in between, everything else; then the end code. */
  lemma ColourEnds(size: nat, room: nat, len: nat, head: nat, cap: nat, lates: Lates,
                   room': nat, len': nat, ok: bool, moved: nat, left: nat)
    requires len <= cap && head < cap && len + Extra(true) <= room <= size
    requires room' == Min(size, room - COLOUR_BEGIN_LEN + Taken(lates)) && len' == Min(cap, len + |Typed(lates)|)
    requires WayEnds(false, size, room', len', head, cap, Rest(lates), ok, moved, left)
    ensures WayEnds(true, size, room, len, head, cap, lates, ok && COLOUR_END_LEN <= left, moved,
                    if COLOUR_END_LEN <= left then left - COLOUR_END_LEN else 0)
  {
    assert Seen(0, len', Rest(lates));
  }

  lemma MeasuredEnds(colour: bool, size: nat, room: nat, len: nat, head: nat, cap: nat, lates: Lates,
                     room': nat, len': nat, ok: bool, moved: nat, left: nat)
    requires len <= cap && head < cap && room <= size
    requires room' == Min(size, room + Taken(lates)) && len' == Min(cap, len + |Typed(lates)|)
    requires WayEnds(colour, size, room', len', head, cap, Rest(lates), ok, moved, left)
    ensures Ends(colour, size, room, len, head, cap, lates, ok, moved, left)
  {
    assert Seen(0, len', Rest(lates));
    EndsMeans(colour, size, room, len, head, cap, lates, ok, moved, left);
  }

  /** One character at each point, and the driver takes none. */
  function Steady(m: nat): (r: Lates)
    ensures Total(r) == m
  {
    if m == 0 then Quiet else Late("x", 0, Steady(m - 1))
  }

  /** It gets through exactly if there is room for so many characters, and they take up that room. */
  predicate Fills(o: Finish, room: nat, need: nat)
  {
    (o.Through? <==> need <= room) && (o.Through? ==> o.room == room - need)
  }

  lemma FillsAfter(o: Finish, o': Finish, room: nat, need: nat, n: nat)
    requires o == Prepend(n, o') && n <= room && n <= need && Fills(o', room - n, need - n)
    ensures Fills(o, room, need)
  {
  }

  lemma {:induction false} QuietFills(size: nat, room: nat, len: nat, head: nat, cap: nat)
    requires len <= cap && head < cap && room <= size
    ensures Fills(Loop(size, room, len, head, cap, Quiet), room, len)
    decreases len
  {
    if len > 0 {
      var n := Contiguous(len, head, cap);
      if n <= room {
        LoopRound(size, room, len, head, cap, Quiet, n, room - n, len - n);
        QuietFills(size, room - n, len - n, Onward(head, n, cap), cap);
        FillsAfter(Loop(size, room, len, head, cap, Quiet),
            Loop(size, room - n, len - n, Onward(head, n, cap), cap, Quiet), room, len, n);
      }
    }
  }

  /**
   A client that types as its queue empties has all it types moved along: without that much room, an assertion fails.
   */
  lemma {:induction false} SteadyFills(size: nat, room: nat, len: nat, head: nat, cap: nat, m: nat)
    requires 0 < len <= cap && head < cap && room <= size
    ensures Fills(Loop(size, room, len, head, cap, Steady(m)), room, len + m)
    decreases m
  {
    var n := Contiguous(len, head, cap);
    if m == 0 {
      QuietFills(size, room, len, head, cap);
    } else if n <= room {
      SteadyRound(size, room, len, head, cap, m, n);
      SteadyFills(size, room - n, len - n + 1, Onward(head, n, cap), cap, m - 1);
      var o := Loop(size, room - n, len - n + 1, Onward(head, n, cap), cap, Steady(m - 1));
      FillsAfter(Loop(size, room, len, head, cap, Steady(m)), o, room, len + m, n);
    }
  }

  lemma SteadyRound(size: nat, room: nat, len: nat, head: nat, cap: nat, m: nat, n: nat)
    requires 0 < len <= cap && head < cap && n == Contiguous(len, head, cap) <= room <= size && m > 0
    ensures Loop(size, room, len, head, cap, Steady(m))
              == Prepend(n, Loop(size, room - n, len - n + 1, Onward(head, n, cap), cap, Steady(m - 1)))
  {
    LoopRound(size, room, len, head, cap, Steady(m), n, room - n, len - n + 1);
  }

  /** The client types only once the loop has begun. */
  function Held(colour: bool, m: nat): (r: Lates)
    ensures Total(r) == m
  {
    Late([], 0, Late([], 0, if colour then Late([], 0, Steady(m)) else Steady(m)))
  }

  lemma HeldFills(colour: bool, size: nat, room: nat, len: nat, head: nat, cap: nat, m: nat)
    requires 0 < len <= cap && head < cap && room <= size
    ensures Fills(Transfer(colour, size, room, len, head, cap, Held(colour, m)), room, len + m + Extra(colour))
  {
    if !colour {
      SteadyFills(size, room, len, head, cap, m);
    } else if len + Extra(true) <= room {
      SteadyFills(size, room - COLOUR_BEGIN_LEN, len, head, cap, m);
    }
  }

  /** The assertions hold whenever the client types at most m characters before the transfer is over. */
  ghost predicate SafeFor(colour: bool, size: nat, room: nat, len: nat, head: nat, cap: nat, m: nat)
    requires len <= cap && head < cap && room <= size
  {
    forall lates :: Total(lates) <= m ==> Transfer(colour, size, room, len, head, cap, lates).Through?
  }

  /** That is so exactly if those characters, too, fit in the driver's queue as it was measured. */
  lemma SafeExactly(colour: bool, size: nat, room: nat, len: nat, head: nat, cap: nat, m: nat)
    requires 0 < len <= cap && head < cap && room <= size
    ensures SafeFor(colour, size, room, len, head, cap, m) <==> len + m + (if colour then 9 else 0) <= room
  {
    if len + m + Extra(colour) <= room {
      forall lates | Total(lates) <= m
        ensures Transfer(colour, size, room, len, head, cap, lates).Through?
      {
        TransferSafe(colour, size, room, len, head, cap, lates);
      }
    } else {
      HeldFills(colour, size, room, len, head, cap, m);
      assert Total(Held(colour, m)) <= m;
    }
  }

  /** The assertions hold whatever the client types between measurement and transfer, if it is quiet after that. */
  ghost predicate SafeAtOnce(colour: bool, size: nat, room: nat, len: nat, head: nat, cap: nat)
    requires len <= cap && head < cap && room <= size
  {
    forall s: string :: len + |s| <= cap ==> Transfer(colour, size, room, len, head, cap, Late(s, 0, Quiet)).Through?
  }

  /** That is so exactly if the driver's queue has room for a full client queue. */
  lemma SafeAtOnceExactly(colour: bool, size: nat, room: nat, len: nat, head: nat, cap: nat)
    requires 0 < len <= cap && head < cap && room <= size
    ensures SafeAtOnce(colour, size, room, len, head, cap) <==> cap + Extra(colour) <= room
  {
    if cap + Extra(colour) <= room {
      forall s: string | len + |s| <= cap
        ensures Transfer(colour, size, room, len, head, cap, Late(s, 0, Quiet)).Through?
      {
        TransferSafe(colour, size, room, len, head, cap, Late(s, 0, Quiet));
      }
    } else {
      var s: string := Fill(cap - len, 'x');
      assert Transfer(colour, size, room, len, head, cap, Late(s, 0, Quiet)).Stopped?;
    }
  }

  /**
   A queue of three fits in room for six; the client adds four more before the transfer, whose assertion then fails.
   */
  lemma LateTypingFails()
    ensures 3 + Extra(false) <= 6 && Transfer(false, 16, 6, 3, 0, 8, Late("defg", 0, Quiet)) == Stopped
  {
  }

  // ---- The loop as code -------------------------------------------------------------------------

  lemma Resplit(consumed: string, all: string, d: nat)
    requires d <= |all|
    ensures (consumed + all[..d]) + all[d..] == consumed + all
  {
    AppendAssociates(consumed, all[..d], all[d..]);
    assert all[..d] + all[d..] == all;
  }

  /** A queue, and what is added to it while the loop runs. */
  function Goes(q: string, head: nat, cap: nat, lates: Lates): string
    requires |q| <= cap && head < cap
  {
    q + LoopAdds(|q|, head, cap, lates)
  }

  /** A piece goes, and then the rest, with what is added to it. */
  lemma GoesOn(q: string, head: nat, cap: nat, lates: Lates, n: nat, q': string)
    requires 0 < |q| <= cap && head < cap && n == Contiguous(|q|, head, cap) && q' == Accept(q[n..], cap, Typed(lates))
    ensures Goes(q, head, cap, lates) == q[..n] + Goes(q', Onward(head, n, cap), cap, Rest(lates))
  {
    var a := Accepted(|q| - n, cap, Typed(lates));
    var more := LoopAdds(|q'|, Onward(head, n, cap), cap, Rest(lates));
    assert LoopAdds(|q|, head, cap, lates) == a + more;
    assert q == q[..n] + q[n..];
    AppendAssociates(q[n..], a, more);
    AppendAssociates(q[..n], q[n..], a + more);
  }

  /** One piece goes to the driver's queue, of which the driver then takes some, while the client types. */
  method MovePiece(size: nat, drv0: string, q0: string, head0: nat, cap: nat, lates0: Lates, ghost consumed0: string)
    returns (drv: string, q: string, head: nat, lates: Lates, ghost consumed: string)
    requires 0 < |q0| <= cap && head0 < cap && |drv0| <= size && Contiguous(|q0|, head0, cap) <= size - |drv0|
    ensures var n := Contiguous(|q0|, head0, cap);
            && |q| <= cap && head < cap && |drv| <= size
            && Goes(q0, head0, cap, lates0) == q0[..n] + Goes(q, head, cap, lates)
            && Loop(size, size - |drv0|, |q0|, head0, cap, lates0)
               == Prepend(n, Loop(size, size - |drv|, |q|, head, cap, lates))
            && consumed + drv == consumed0 + (drv0 + q0[..n])
    ensures lates == Rest(lates0) && (lates0.Quiet? ==> |q| < |q0|)
  {
    var n := Contiguous(|q0|, head0, cap);
    var all := drv0 + q0[..n];
    var d := Min(Taken(lates0), |all|);
    drv, q, head, lates, consumed := all[d..], Accept(q0[n..], cap, Typed(lates0)), Onward(head0, n, cap), Rest(lates0),
      consumed0 + all[..d];
    LoopRound(size, size - |drv0|, |q0|, head0, cap, lates0, n, size - |drv|, |q|);
    GoesOn(q0, head0, cap, lates0, n, q);
    Resplit(consumed0, all, d);
  }

  /** Names the places where a proof looks at what goes along. */
  predicate Watched(k: int, q: string, moved: string)
  {
    true
  }

  /** What was moved is the queue, and what was added to it before so many points and while the loop ran. */
  ghost predicate Joins(points: nat, q: string, head: nat, cap: nat, lates: Lates, moved: string)
    requires |q| <= cap && head < cap
  {
    forall k: int {:trigger Watched(k, q, moved)} :: Watched(k, q, moved) ==>
      moved == q + Adds(points, |q|, head, cap, lates)
  }

  lemma JoinsMeans(points: nat, q: string, head: nat, cap: nat, lates: Lates, moved: string)
    requires |q| <= cap && head < cap
    ensures Joins(points, q, head, cap, lates, moved) <==> moved == q + Adds(points, |q|, head, cap, lates)
  {
    assert Watched(0, q, moved);
  }

  /** What is typed at a point before the loop joins the queue. */
  lemma JoinsNext(points: nat, q: string, head: nat, cap: nat, lates: Lates, moved: string)
    requires |q| <= cap && head < cap && Joins(points, Accept(q, cap, Typed(lates)), head, cap, Rest(lates), moved)
    ensures Joins(points + 1, q, head, cap, lates, moved)
  {
    var a := Accepted(|q|, cap, Typed(lates));
    JoinsMeans(points, q + a, head, cap, Rest(lates), moved);
    AppendAssociates(q, a, Adds(points, |q| + |a|, head, cap, Rest(lates)));
    JoinsMeans(points + 1, q, head, cap, lates, moved);
  }

  /** A piece more has gone. */
  lemma PieceMoved(base: string, consumed: string, drv: string, moved: string, piece: string, consumed': string,
                   drv': string, all: string, rest: string)
    requires consumed + drv == base + moved && consumed' + drv' == consumed + (drv + piece)
    requires all == moved + (piece + rest)
    ensures consumed' + drv' == base + (moved + piece) && all == (moved + piece) + rest
  {
    AppendAssociates(consumed, drv, piece);
    AppendAssociates(base, moved, piece);
    AppendAssociates(moved, piece, rest);
  }

  /**
   The loop of serial_transfer_all. It gets through exactly as the function says; then the driver's stream grew by what
   was queued and what the client added.
   */
  method MoveAll(size: nat, drv0: string, q0: string, head0: nat, cap: nat, lates0: Lates, ghost consumed0: string)
    returns (ok: bool, drv: string, head: nat, ghost consumed: string, ghost moved: string)
    requires |q0| <= cap && head0 < cap && |drv0| <= size
    ensures |drv| <= size && head < cap
    ensures LoopEnds(size, size - |drv0|, |q0|, head0, cap, lates0, ok, |moved|, size - |drv|)
    ensures ok ==> consumed + drv == consumed0 + drv0 + moved && Joins(0, q0, head0, cap, lates0, moved)
  {
    var q, lates := q0, lates0;
    ok, drv, head, consumed, moved := true, drv0, head0, consumed0, [];
    ghost var end := Loop(size, size - |drv0|, |q0|, head0, cap, lates0);
    ghost var all := Goes(q0, head0, cap, lates0);
    assert [] + all == all && consumed0 + drv0 + [] == consumed0 + drv0;
    while q != []
      invariant ok && |q| <= cap && |drv| <= size && head < cap
      invariant all == moved + Goes(q, head, cap, lates)
      invariant consumed + drv == (consumed0 + drv0) + moved
      invariant end == Prepend(|moved|, Loop(size, size - |drv|, |q|, head, cap, lates))
      decreases lates, |q|
    {
      var n := Contiguous(|q|, head, cap);
      if n > size - |drv| {
        return false, drv, head, consumed, moved;
      }
      ghost var piece, drv1, consumed1 := q[..n], drv, consumed;
      drv, q, head, lates, consumed := MovePiece(size, drv, q, head, cap, lates, consumed);
      PieceMoved(consumed0 + drv0, consumed1, drv1, moved, piece, consumed, drv, all, Goes(q, head, cap, lates));
      moved := moved + piece;
    }
    assert moved + [] == moved;
    JoinsMeans(0, q0, head0, cap, lates0, moved);
  }

  lemma Surrounded(consumed: string, drv: string, base: string, begin: string, moved: string, end: string)
    requires consumed + drv == base + begin + moved
    ensures consumed + (drv + end) == base + (begin + moved + end)
  {
    AppendAssociates(consumed, drv, end);
    AppendAssociates(base, begin, moved);
    AppendAssociates(base, begin + moved, end);
  }

  /** Characters go to the driver's queue, of which the driver then takes so many. */
  method Put(drv0: string, s: string, taken: nat, ghost consumed0: string) returns (drv: string, ghost consumed: string)
    ensures |drv| == |drv0| + |s| - Min(taken, |drv0| + |s|)
    ensures consumed + drv == consumed0 + drv0 + s
  {
    var all := drv0 + s;
    var d := Min(taken, |all|);
    drv, consumed := all[d..], consumed0 + all[..d];
    Resplit(consumed0, all, d);
    AppendAssociates(consumed0, drv0, s);
  }

  /** serial_transfer_all: an assertion, and the loop. */
  method TransferAll(size: nat, drv0: string, q: string, head0: nat, cap: nat, lates: Lates, ghost consumed0: string)
    returns (ok: bool, drv: string, head: nat, ghost consumed: string, ghost moved: string)
    requires |q| <= cap && head0 < cap && |drv0| <= size
    ensures |drv| <= size && head < cap
    ensures WayEnds(false, size, size - |drv0|, |q|, head0, cap, lates, ok, |moved|, size - |drv|)
    ensures ok ==> consumed + drv == consumed0 + drv0 + moved && Joins(1, q, head0, cap, lates, moved)
  {
    if |q| > size - |drv0| {
      PlainStops(size, size - |drv0|, |q|, head0, cap, lates, 0, size - |drv0|);
      return false, drv0, head0, consumed0, [];
    }
    var q' := Accept(q, cap, Typed(lates));
    var drv1;
    ghost var consumed1;
    drv1, consumed1 := Put(drv0, [], Taken(lates), consumed0);
    assert consumed0 + drv0 + [] == consumed0 + drv0;
    ok, drv, head, consumed, moved := MoveAll(size, drv1, q', head0, cap, Rest(lates), consumed1);
    PlainEnds(size, size - |drv0|, |q|, head0, cap, lates, size - |drv1|, |q'|, ok, |moved|, size - |drv|);
    if ok {
      JoinsNext(0, q, head0, cap, lates, moved);
    }
  }

  /** serial_transfer_all_colour: the same between colour codes. */
  method TransferAllColour(begin: string, end: string, size: nat, drv0: string, q: string, head0: nat, cap: nat,
                           lates: Lates, ghost consumed0: string)
    returns (ok: bool, drv: string, head: nat, ghost consumed: string, ghost moved: string)
    requires |q| <= cap && head0 < cap && |drv0| <= size && |begin| == COLOUR_BEGIN_LEN && |end| == COLOUR_END_LEN
    ensures |drv| <= size && head < cap
    ensures WayEnds(true, size, size - |drv0|, |q|, head0, cap, lates, ok, |moved|, size - |drv|)
    ensures ok ==> consumed + drv == consumed0 + drv0 + (begin + moved + end)
    ensures ok ==> Joins(2, q, head0, cap, lates, moved)
  {
    ok, drv, head, consumed, moved := |q| + Extra(true) <= size - |drv0|, drv0, head0, consumed0, [];
    if !ok {
      assert EndsIn(TransferColour(size, size - |drv0|, |q|, head0, cap, lates), ok, |moved|, size - |drv|);
      return;
    }
    var q' := Accept(q, cap, Typed(lates));
    var drv1;
    ghost var consumed1;
    drv1, consumed1 := Put(drv0, begin, Taken(lates), consumed0);
    ok, drv, head, consumed, moved := TransferAll(size, drv1, q', head0, cap, Rest(lates), consumed1);
    ColourEnds(size, size - |drv0|, |q|, head0, cap, lates, size - |drv1|, |q'|, ok, |moved|, size - |drv|);
    if ok && COLOUR_END_LEN <= size - |drv| {
      JoinsNext(1, q, head0, cap, lates, moved);
      Surrounded(consumed, drv, consumed0 + drv0, begin, moved, end);
      drv := drv + end;
    } else {
      ok := false;
    }
  }

  /**
   The transfer, with or without colours, from the moment the queue was measured: whether it gets through, and then what
   the driver's stream gained.
   */
  method TransferMeasured(colour: bool, begin: string, end: string, size: nat, drv0: string, q: string, head0: nat,
                          cap: nat, lates: Lates, ghost consumed0: string)
    returns (ok: bool, drv: string, head: nat, ghost consumed: string, ghost moved: string)
    requires |q| <= cap && head0 < cap && |drv0| <= size && |begin| == COLOUR_BEGIN_LEN && |end| == COLOUR_END_LEN
    ensures |drv| <= size && head < cap
    ensures Ends(colour, size, size - |drv0|, |q|, head0, cap, lates, ok, |moved|, size - |drv|)
    ensures ok ==> consumed + drv == consumed0 + drv0 + if colour then begin + moved + end else moved
    ensures ok ==> moved == q + Adds(Points(colour), |q|, head0, cap, lates)
  {
    var q', rest := Accept(q, cap, Typed(lates)), Rest(lates);
    var drv1;
    ghost var consumed1;
    drv1, consumed1 := Put(drv0, [], Taken(lates), consumed0);
    assert consumed0 + drv0 + [] == consumed0 + drv0;
    if colour {
      ok, drv, head, consumed, moved := TransferAllColour(begin, end, size, drv1, q', head0, cap, rest, consumed1);
    } else {
      ok, drv, head, consumed, moved := TransferAll(size, drv1, q', head0, cap, rest, consumed1);
    }
    MeasuredEnds(colour, size, size - |drv0|, |q|, head0, cap, lates, size - |drv1|, |q'|, ok, |moved|, size - |drv|);
    if ok {
      JoinsNext(Points(colour) - 1, q, head0, cap, lates, moved);
      JoinsMeans(Points(colour), q, head0, cap, lates, moved);
    }
  }
}
