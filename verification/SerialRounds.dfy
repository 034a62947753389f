/**
 What processing one client, and then a row of clients, does to the room in the driver's queue (process_tx_queue and
 tx_return of serial/components/virt_tx.c), as arithmetic on lengths; and exactly when no assertion can fail.
 */
module SerialRounds {
  import opened Sequences
  import opened SerialTransfer

  /**
   What others do while a client is processed: the driver takes characters before and after the signal is requested, and
   then, until the transfer is over, the client types and the driver takes more.
   */
  datatype Meanwhile = Meanwhile(before: nat, after: nat, late: Lates)

  /** Nobody does anything. */
  const STILL := Meanwhile(0, 0, Quiet)

  /** The room in the driver's queue when it is looked at for the second time. */
  function RoomSeen(size: nat, used: nat, m: Meanwhile): (r: nat)
    requires used <= size
    ensures size - used <= r <= size
  {
    Min(size, size - used + m.before + m.after)
  }

  /** A client's queue: how much is in it, where in its ring that starts, and how much it holds. */
  datatype Queue = Queue(len: nat, head: nat, cap: nat)
  {
    predicate Sound()
    {
      len <= cap && head < cap
    }
  }

  /** What a client adds to its queue until the transfer is over. */
  function Added(colour: bool, w: Queue, lates: Lates): string
    requires w.Sound()
  {
    Adds(Points(colour), w.len, w.head, w.cap, lates)
  }

  /** That is some of what it types, in order; all of it up to the end of the transfer, if its queue has room for it. */
  lemma AddedIsTyped(colour: bool, w: Queue, lates: Lates)
    requires w.Sound()
    ensures IsSubsequence(Added(colour, w, lates), Text(lates))
    ensures w.len + Total(lates) <= w.cap ==> Added(colour, w, lates) <= Text(lates)
  {
    AddsTyped(Points(colour), w.len, w.head, w.cap, lates);
  }

  /** An assertion failed, or this much of the driver's queue is in use. */
  datatype Served = Failed | Served(used: nat)

  /** process_tx_queue: nothing queued, or no room for it, or the transfer. */
  function Serve(colour: bool, size: nat, used: nat, w: Queue, m: Meanwhile): (r: Served)
    requires w.Sound() && used <= size
    ensures r.Served? ==> r.used <= size
  {
    var room := RoomSeen(size, used, m);
    if w.len == 0 then Served(used)
    else if w.len + Extra(colour) > room then Served(size - room)
    else match Transfer(colour, size, room, w.len, w.head, w.cap, m.late)
      case Stopped => Failed
      case Through(left, _) => Served(size - left)
  }

  /** Names the places where a proof looks into what processing a client does. */
  predicate Tried(k: int, w: Queue, m: Meanwhile)
  {
    true
  }

  /** Processing a client ends like this. */
  ghost predicate Serves(colour: bool, size: nat, used: nat, w: Queue, m: Meanwhile, ok: bool, used': nat)
    requires w.Sound() && used <= size
  {
    forall k: int {:trigger Tried(k, w, m)} :: Tried(k, w, m) ==>
      IsResult(Serve(colour, size, used, w, m), ok, used')
  }

  predicate IsResult(r: Served, ok: bool, used: nat)
  {
    r == if ok then Served(used) else Failed
  }

  lemma ServesMeans(colour: bool, size: nat, used: nat, w: Queue, m: Meanwhile, ok: bool, used': nat)
    requires w.Sound() && used <= size
    ensures Serves(colour, size, used, w, m, ok, used') <==> IsResult(Serve(colour, size, used, w, m), ok, used')
  {
    assert Tried(0, w, m);
  }

  lemma NothingQueued(colour: bool, size: nat, used: nat, w: Queue, m: Meanwhile)
    requires w.Sound() && used <= size && w.len == 0
    ensures Serves(colour, size, used, w, m, true, used)
  {
    ServesMeans(colour, size, used, w, m, true, used);
  }

  lemma NoRoomSeen(colour: bool, size: nat, used: nat, w: Queue, m: Meanwhile, used': nat)
    requires w.Sound() && used <= size && 0 < w.len && RoomSeen(size, used, m) < w.len + Extra(colour)
    requires used' == size - RoomSeen(size, used, m)
    ensures Serves(colour, size, used, w, m, true, used')
  {
    ServesMeans(colour, size, used, w, m, true, used');
  }

  /** The transfer of a queue ends like this, with so much room left. */
  ghost predicate Transfers(colour: bool, size: nat, room: nat, w: Queue, lates: Lates, ok: bool, left: nat)
    requires w.Sound() && room <= size
  {
    exists moved: nat {:trigger Moves(moved)} ::
      Moves(moved) && Ends(colour, size, room, w.len, w.head, w.cap, lates, ok, moved, left)
  }

  predicate Moves(n: nat)
  {
    true
  }

  lemma TransferDecides(colour: bool, size: nat, used: nat, w: Queue, m: Meanwhile, ok: bool, used': nat)
    requires w.Sound() && used <= size && 0 < w.len && w.len + Extra(colour) <= RoomSeen(size, used, m)
    requires used' <= size && Transfers(colour, size, RoomSeen(size, used, m), w, m.late, ok, size - used')
    ensures Serves(colour, size, used, w, m, ok, used')
  {
    var room := RoomSeen(size, used, m);
    var moved: nat :| Moves(moved) && Ends(colour, size, room, w.len, w.head, w.cap, m.late, ok, moved, size - used');
    EndsMeans(colour, size, room, w.len, w.head, w.cap, m.late, ok, moved, size - used');
    ServesMeans(colour, size, used, w, m, ok, used');
  }

  /** A queue that is worth looking at: it holds something that fits an empty driver's queue. */
  predicate CanGo(colour: bool, size: nat, w: Queue)
  {
    0 < w.len && w.len + Extra(colour) <= size
  }

  /** No assertion fails if the client is quiet, or what it types fits as well; then at most that much is taken up. */
  lemma ServeSafe(colour: bool, size: nat, used: nat, w: Queue, m: Meanwhile)
    requires w.Sound() && used <= size
    ensures !CanGo(colour, size, w) || Total(m.late) == 0 || used + w.len + Total(m.late) + Extra(colour) <= size ==>
              Serve(colour, size, used, w, m).Served?
    ensures !CanGo(colour, size, w) ==> Serve(colour, size, used, w, m).used <= used
    ensures used + w.len + Total(m.late) + Extra(colour) <= size ==>
              Serve(colour, size, used, w, m).used <= used + w.len + Total(m.late) + Extra(colour)
  {
    var room := RoomSeen(size, used, m);
    if w.len + Total(m.late) + Extra(colour) <= room {
      TransferSafe(colour, size, room, w.len, w.head, w.cap, m.late);
    }
  }

  /** A client that types m characters once the loop has begun, while the driver first takes so many. */
  function Typing(colour: bool, taken: nat, m: nat): (r: Meanwhile)
    ensures Total(r.late) == m
  {
    Meanwhile(taken, 0, Held(colour, m))
  }

  /** All of that goes along, or an assertion fails. */
  lemma ServeTyping(colour: bool, size: nat, used: nat, w: Queue, taken: nat, m: nat)
    requires w.Sound() && used <= size && 0 < w.len && taken <= used
    requires used - taken + w.len + Extra(colour) <= size
    ensures Serve(colour, size, used, w, Typing(colour, taken, m))
              == if used - taken + w.len + m + Extra(colour) <= size
                 then Served(used - taken + w.len + m + Extra(colour)) else Failed
  {
    HeldFills(colour, size, size - (used - taken), w.len, w.head, w.cap, m);
  }

  // ---- A row of clients -------------------------------------------------------------------------

  function First(env: seq<Meanwhile>): Meanwhile
  {
    if env == [] then STILL else env[0]
  }

  function Later<T>(env: seq<T>): seq<T>
  {
    if env == [] then [] else env[1..]
  }

  predicate AllSound(ws: seq<Queue>)
  {
    forall i :: 0 <= i < |ws| ==> ws[i].Sound()
  }

  /** tx_return: these queues, one after the other, with what others do during each. */
  function ServeAll(colour: bool, size: nat, used: nat, ws: seq<Queue>, env: seq<Meanwhile>): Served
    requires AllSound(ws) && used <= size
    decreases |ws|
  {
    if ws == [] then Served(used)
    else match Serve(colour, size, used, ws[0], First(env))
      case Failed => Failed
      case Served(used') => ServeAll(colour, size, used', ws[1..], Later(env))
  }

  /** What those of them take up that can go, if each client types m characters. */
  function Need(colour: bool, size: nat, ws: seq<Queue>, m: nat): nat
  {
    if ws == [] then 0
    else (if CanGo(colour, size, ws[0]) then ws[0].len + m + Extra(colour) else 0) + Need(colour, size, ws[1..], m)
  }

  /** Each client types at most m characters while it is processed. */
  predicate Modest(env: seq<Meanwhile>, m: nat)
  {
    forall k :: 0 <= k < |env| ==> Total(env[k].late) <= m
  }

  lemma {:induction false} RowSafe(colour: bool, size: nat, used: nat, ws: seq<Queue>, env: seq<Meanwhile>, m: nat)
    requires AllSound(ws) && used <= size && Modest(env, m) && (m == 0 || used + Need(colour, size, ws, m) <= size)
    ensures ServeAll(colour, size, used, ws, env).Served?
    decreases |ws|
  {
    if ws != [] {
      ServeSafe(colour, size, used, ws[0], First(env));
      RowSafe(colour, size, Serve(colour, size, used, ws[0], First(env)).used, ws[1..], Later(env), m);
    }
  }

  lemma FirstFails(colour: bool, size: nat, used: nat, ws: seq<Queue>, m: nat) returns (env: seq<Meanwhile>)
    requires ws != [] && AllSound(ws) && used <= size && m > 0 && CanGo(colour, size, ws[0])
    requires used + ws[0].len + m + Extra(colour) > size
    ensures |env| == 1 && Modest(env, m) && ServeAll(colour, size, used, ws, env) == Failed
  {
    var room := size - ws[0].len - Extra(colour);
    var taken := if used <= room then 0 else used - room;
    ServeTyping(colour, size, used, ws[0], taken, m);
    env := [Typing(colour, taken, m)];
  }

  /** After the first is served, it fails among the others. */
  lemma FailsLater(colour: bool, size: nat, used: nat, ws: seq<Queue>, now: Meanwhile, used': nat, env: seq<Meanwhile>,
                   m: nat)
    requires ws != [] && AllSound(ws) && used <= size && used' <= size && Total(now.late) <= m
    requires Serve(colour, size, used, ws[0], now) == Served(used')
    requires Modest(env, m) && ServeAll(colour, size, used', ws[1..], env) == Failed
    ensures Modest([now] + env, m) && ServeAll(colour, size, used, ws, [now] + env) == Failed
  {
    assert ([now] + env)[1..] == env;
  }

  lemma CannotGo(colour: bool, size: nat, used: nat, w: Queue)
    requires w.Sound() && used <= size && !CanGo(colour, size, w)
    ensures Serve(colour, size, used, w, STILL) == Served(used)
  {
  }

  /** Without room for all that may be typed, there is a way to type for which an assertion fails. */
  lemma {:induction false} RowFails(colour: bool, size: nat, used: nat, ws: seq<Queue>, m: nat)
    returns (env: seq<Meanwhile>)
    requires AllSound(ws) && used <= size && m > 0 && used + Need(colour, size, ws, m) > size
    ensures Modest(env, m) && ServeAll(colour, size, used, ws, env) == Failed
    decreases |ws|
  {
    var w := ws[0];
    var now, used' := STILL, used;
    if CanGo(colour, size, w) {
      if used + w.len + m + Extra(colour) > size {
        env := FirstFails(colour, size, used, ws, m);
        return;
      }
      now, used' := Typing(colour, 0, m), used + w.len + m + Extra(colour);
      ServeTyping(colour, size, used, w, 0, m);
    } else {
      CannotGo(colour, size, used, w);
    }
    env := RowFails(colour, size, used', ws[1..], m);
    FailsLater(colour, size, used, ws, now, used', env, m);
    env := [now] + env;
  }

  /** No assertion fails whenever each client types at most m characters while it is processed. */
  ghost predicate RowIsSafe(colour: bool, size: nat, used: nat, ws: seq<Queue>, m: nat)
    requires AllSound(ws) && used <= size
  {
    forall env :: Modest(env, m) ==> ServeAll(colour, size, used, ws, env).Served?
  }

  /**
   That is so exactly if they do not type at all, or if all the queues that can go fit in the driver's queue as it is,
   with m characters more each.
   */
  lemma RowSafeExactly(colour: bool, size: nat, used: nat, ws: seq<Queue>, m: nat)
    requires AllSound(ws) && used <= size
    ensures RowIsSafe(colour, size, used, ws, m) <==> m == 0 || used + Need(colour, size, ws, m) <= size
  {
    if m == 0 || used + Need(colour, size, ws, m) <= size {
      forall env | Modest(env, m)
        ensures ServeAll(colour, size, used, ws, env).Served?
      {
        RowSafe(colour, size, used, ws, env, m);
      }
    } else {
      var env := RowFails(colour, size, used, ws, m);
    }
  }

  // ---- The clients' queues when their turn comes --------------------------------------------------

  /** What client c types, of what all type. */
  function TextFor(texts: seq<string>, c: nat): string
  {
    if c < |texts| then texts[c] else []
  }

  /** The clients' queues after each has typed. */
  function AcceptAll(cli: seq<string>, caps: seq<nat>, texts: seq<string>): (r: seq<string>)
    requires Within(cli, caps)
    ensures |r| == |cli| && Within(r, caps)
    ensures forall c :: 0 <= c < |cli| ==> r[c] == Accept(cli[c], caps[c], TextFor(texts, c))
  {
    seq(|cli|, c requires 0 <= c < |cli| => Accept(cli[c], caps[c], TextFor(texts, c)))
  }

  predicate Within(cli: seq<string>, caps: seq<nat>)
  {
    |cli| == |caps| && forall c :: 0 <= c < |cli| ==> |cli[c]| <= caps[c]
  }

  /** The queues are in their rings, and the clients in the row exist. */
  predicate Kept(cli: seq<string>, heads: seq<nat>, caps: seq<nat>, row: seq<nat>)
  {
    && Within(cli, caps) && |heads| == |caps| && Below(row, |cli|)
    && forall c :: 0 <= c < |cli| ==> heads[c] < caps[c]
  }

  function FirstText(typing: seq<seq<string>>): seq<string>
  {
    if typing == [] then [] else typing[0]
  }

  /** The queues of the clients in a row, each when its turn comes, all clients typing before each turn. */
  function Turns(row: seq<nat>, cli: seq<string>, heads: seq<nat>, caps: seq<nat>, typing: seq<seq<string>>)
    : (ws: seq<Queue>)
    requires Kept(cli, heads, caps, row)
    ensures |ws| == |row| && AllSound(ws)
    decreases |row|
  {
    if row == [] then []
    else
      var cli' := AcceptAll(cli, caps, FirstText(typing));
      [Queue(|cli'[row[0]]|, heads[row[0]], caps[row[0]])] + Turns(row[1..], cli', heads, caps, Later(typing))
  }

  /** A client that is not in the row does not matter. */
  lemma {:induction false} TurnsWithout(row: seq<nat>, cli: seq<string>, heads: seq<nat>, caps: seq<nat>,
                                        typing: seq<seq<string>>, c: nat, q: string, head: nat)
    requires Kept(cli, heads, caps, row) && c < |cli| && c !in row && |q| <= caps[c] && head < caps[c]
    ensures Turns(row, cli[c := q], heads[c := head], caps, typing) == Turns(row, cli, heads, caps, typing)
    decreases |row|
  {
    if row != [] {
      var texts := FirstText(typing);
      var cli' := AcceptAll(cli, caps, texts);
      TurnsWithout(row[1..], cli', heads, caps, Later(typing), c, Accept(q, caps[c], TextFor(texts, c)), head);
      assert AcceptAll(cli[c := q], caps, texts) == cli'[c := Accept(q, caps[c], TextFor(texts, c))];
    }
  }

  /** Names the places where a proof looks into what is left of a row. */
  predicate Ahead(k: int, row: seq<nat>, used: nat)
  {
    true
  }

  /** Serving these clients in a row, each when its turn comes, ends like this. */
  ghost predicate Leads(colour: bool, size: nat, used: nat, row: seq<nat>, cli: seq<string>, heads: seq<nat>,
                        caps: seq<nat>, env: seq<Meanwhile>, typing: seq<seq<string>>, r: Served)
  {
    && Kept(cli, heads, caps, row) && used <= size
    && forall k: int {:trigger Ahead(k, row, used)} :: Ahead(k, row, used) ==>
         LeadsTo(colour, size, used, row, cli, heads, caps, env, typing, r)
  }

  predicate LeadsTo(colour: bool, size: nat, used: nat, row: seq<nat>, cli: seq<string>, heads: seq<nat>,
                    caps: seq<nat>, env: seq<Meanwhile>, typing: seq<seq<string>>, r: Served)
    requires Kept(cli, heads, caps, row) && used <= size
  {
    ServeAll(colour, size, used, Turns(row, cli, heads, caps, typing), env) == r
  }

  lemma LeadsMeans(colour: bool, size: nat, used: nat, row: seq<nat>, cli: seq<string>, heads: seq<nat>,
                   caps: seq<nat>, env: seq<Meanwhile>, typing: seq<seq<string>>, r: Served)
    requires Kept(cli, heads, caps, row) && used <= size
    ensures Leads(colour, size, used, row, cli, heads, caps, env, typing, r)
            <==> LeadsTo(colour, size, used, row, cli, heads, caps, env, typing, r)
  {
    assert Ahead(0, row, used);
  }

  /** The first in the row is served, and the others are as they were. */
  lemma LeadsOn(colour: bool, size: nat, used: nat, row: seq<nat>, cli: seq<string>, heads: seq<nat>, caps: seq<nat>,
                env: seq<Meanwhile>, typing: seq<seq<string>>, r: Served, ok: bool, used': nat, q: string, head: nat)
    requires Leads(colour, size, used, row, cli, heads, caps, env, typing, r) && row != [] && row[0] !in row[1..]
    requires |q| <= caps[row[0]] && head < caps[row[0]] && used' <= size
    requires var cli' := AcceptAll(cli, caps, FirstText(typing));
             Serves(colour, size, used, Queue(|cli'[row[0]]|, heads[row[0]], caps[row[0]]), First(env), ok, used')
    ensures !ok ==> r == Failed
    ensures ok ==> Leads(colour, size, used', row[1..], AcceptAll(cli, caps, FirstText(typing))[row[0] := q],
                         heads[row[0] := head], caps, Later(env), Later(typing), r)
  {
    var c, cli' := row[0], AcceptAll(cli, caps, FirstText(typing));
    var w := Queue(|cli'[c]|, heads[c], caps[c]);
    LeadsMeans(colour, size, used, row, cli, heads, caps, env, typing, r);
    ServesMeans(colour, size, used, w, First(env), ok, used');
    var ws := Turns(row, cli, heads, caps, typing);
    assert ws[0] == w && ws[1..] == Turns(row[1..], cli', heads, caps, Later(typing));
    if ok {
      TurnsWithout(row[1..], cli', heads, caps, Later(typing), c, q, head);
      LeadsMeans(colour, size, used', row[1..], cli'[c := q], heads[c := head], caps, Later(env), Later(typing), r);
    }
  }

  lemma LeadsHere(colour: bool, size: nat, used: nat, cli: seq<string>, heads: seq<nat>, caps: seq<nat>,
                  env: seq<Meanwhile>, typing: seq<seq<string>>, r: Served)
    requires Leads(colour, size, used, [], cli, heads, caps, env, typing, r)
    ensures r == Served(used)
  {
    LeadsMeans(colour, size, used, [], cli, heads, caps, env, typing, r);
  }

  // ---- What the clients typed -----------------------------------------------------------------------

  /** This much was queued at first, and then some of this text, in order. */
  predicate TypedFrom(before: string, after: string, text: string)
  {
    before <= after && IsSubsequence(after[|before|..], text)
  }

  lemma GrownBy(before: string, after: string, more: string)
    requires before <= after
    ensures before <= after + more && (after + more)[|before|..] == after[|before|..] + more
  {
  }

  lemma TypedMore(before: string, after: string, text: string, more: string, moreText: string)
    requires TypedFrom(before, after, text) && IsSubsequence(more, moreText)
    ensures TypedFrom(before, after + more, text + moreText)
  {
    GrownBy(before, after, more);
    SubsequenceJoin(after[|before|..], text, more, moreText);
  }

  function At(env: seq<Meanwhile>, k: nat): Meanwhile
  {
    if k < |env| then env[k] else STILL
  }

  function TextsAt(typing: seq<seq<string>>, k: nat): seq<string>
  {
    if k < |typing| then typing[k] else []
  }

  /** What is left after k rounds. */
  function Skip<T>(s: seq<T>, k: nat): seq<T>
  {
    if k <= |s| then s[k..] else []
  }

  lemma SkipNext(env: seq<Meanwhile>, typing: seq<seq<string>>, k: nat)
    ensures Skip(env, 0) == env && First(Skip(env, k)) == At(env, k) && Later(Skip(env, k)) == Skip(env, k + 1)
    ensures Skip(typing, 0) == typing && FirstText(Skip(typing, k)) == TextsAt(typing, k)
    ensures Later(Skip(typing, k)) == Skip(typing, k + 1)
  {
  }

  /** Nobody types between the turns. */
  predicate Silent(typing: seq<seq<string>>)
  {
    forall k :: 0 <= k < |typing| ==> NoText(typing[k])
  }

  predicate NoText(texts: seq<string>)
  {
    forall c :: 0 <= c < |texts| ==> texts[c] == []
  }

  lemma NothingTyped(cli: seq<string>, caps: seq<nat>, texts: seq<string>)
    requires Within(cli, caps) && NoText(texts)
    ensures AcceptAll(cli, caps, texts) == cli
  {
    forall c | 0 <= c < |cli|
      ensures AcceptAll(cli, caps, texts)[c] == cli[c]
    {
      assert TextFor(texts, c) == [];
    }
  }

  /** What client c types until k clients in the row have been processed. */
  function TextOf(row: seq<nat>, env: seq<Meanwhile>, typing: seq<seq<string>>, c: nat, k: nat): string
    requires k <= |row|
  {
    if k == 0 then []
    else TextOf(row, env, typing, c, k - 1)
         + (TextFor(TextsAt(typing, k - 1), c) + if row[k - 1] == c then Text(At(env, k - 1).late) else [])
  }

  /** Each client queued only what it typed, in order. */
  ghost predicate AllFrom(before: seq<string>, after: seq<string>, row: seq<nat>, env: seq<Meanwhile>,
                          typing: seq<seq<string>>, k: nat)
    requires k <= |row|
  {
    && |after| == |before|
    && forall c :: 0 <= c < |after| ==> TypedFrom(before[c], after[c], TextOf(row, env, typing, c, k))
  }

  lemma AllFromFirst(typed: seq<string>, row: seq<nat>, env: seq<Meanwhile>, typing: seq<seq<string>>)
    ensures AllFrom(typed, typed, row, env, typing, 0)
  {
  }

  lemma Regrouped(now: string, typed: string, more: string)
    requires now <= typed
    ensures typed + more == now + (typed[|now|..] + more)
  {
    assert typed == now + typed[|now|..];
    AppendAssociates(now, typed[|now|..], more);
  }

  /** A client types, and types again while it is processed. */
  lemma TypedTurn(before: string, now: string, typed: string, text0: string, text: string, more: string, during: string)
    requires TypedFrom(before, now, text0) && now <= typed && typed[|now|..] <= text && IsSubsequence(more, during)
    ensures TypedFrom(before, typed + more, text0 + (text + during))
  {
    var a := typed[|now|..];
    assert IsSubsequence(a + more, text + during) by {
      PrefixIsSubsequence(a, text);
      SubsequenceJoin(a, text, more, during);
    }
    Regrouped(now, typed, more);
    TypedMore(before, now, text0, a + more, text + during);
  }

  /** All clients type, and then the next in the row types while it is processed. */
  lemma AllFromNext(before: seq<string>, now: seq<string>, typed: seq<string>, row: seq<nat>, env: seq<Meanwhile>,
                    typing: seq<seq<string>>, k: nat, added: string)
    requires k < |row| && AllFrom(before, now, row, env, typing, k) && |typed| == |now| && row[k] < |now|
    requires forall c :: 0 <= c < |now| ==>
               now[c] <= typed[c] && typed[c][|now[c]|..] <= TextFor(TextsAt(typing, k), c)
    requires IsSubsequence(added, Text(At(env, k).late))
    ensures AllFrom(before, typed[row[k] := typed[row[k]] + added], row, env, typing, k + 1)
  {
    forall c | 0 <= c < |typed|
      ensures TypedFrom(before[c], typed[row[k] := typed[row[k]] + added][c], TextOf(row, env, typing, c, k + 1))
    {
      var text0, text := TextOf(row, env, typing, c, k), TextFor(TextsAt(typing, k), c);
      if c == row[k] {
        TypedTurn(before[c], now[c], typed[c], text0, text, added, Text(At(env, k).late));
      } else {
        TypedTurn(before[c], now[c], typed[c], text0, text, [], []);
        assert typed[c] + [] == typed[c];
      }
    }
  }
}
