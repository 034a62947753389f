/**
 The serial transmit virtualiser (serial/components/virt_tx.c): whatever a client has queued goes to the driver's queue
 in one piece, or, if it does not fit, the client waits its turn in a ring of pending clients.
 */
module SerialTx {
  import opened Sequences
  import opened SerialRounds
  import opened SerialTransfer

  const MAX_CLIENTS: nat := 64
  const PENDING_MAX: nat := MAX_CLIENTS + 1
  const COLOUR_END: string := "\U{1b}[0m"

  const COLOURS: seq<string> := ["\U{1b}[31m", "\U{1b}[32m", "\U{1b}[33m", "\U{1b}[34m", "\U{1b}[35m", "\U{1b}[36m"]

  // ---- The ring of pending clients ----------------------------------------------------------------

  function Slot(head: nat, i: nat): nat
  {
    if head + i < PENDING_MAX then head + i else head + i - PENDING_MAX
  }

  /** The ring slice is q, oldest first. */
  ghost predicate Placed(ring: seq<nat>, head: nat, tail: nat, q: seq<nat>)
  {
    && |ring| == PENDING_MAX && head < PENDING_MAX && |q| < PENDING_MAX && tail == Slot(head, |q|)
    && forall i :: 0 <= i < |q| ==> ring[Slot(head, i)] == q[i]
  }

  /** The clients in q are distinct, and the flags say exactly which they are. */
  ghost predicate Flagged(flags: seq<bool>, n: nat, q: seq<nat>)
  {
    && |flags| == MAX_CLIENTS && n <= MAX_CLIENTS && NoRepeats(q) && Below(q, n)
    && forall c :: 0 <= c < MAX_CLIENTS ==> (flags[c] <==> c in q)
  }

  function PendingLength(head: nat, tail: nat): nat
  {
    (PENDING_MAX + tail - head) % PENDING_MAX
  }

  lemma LengthIs(ring: seq<nat>, head: nat, tail: nat, q: seq<nat>)
    requires Placed(ring, head, tail, q)
    ensures tail < PENDING_MAX && PendingLength(head, tail) == |q|
  {
  }

  /** A client that is not pending finds room: the assertion of the push holds. */
  lemma RoomToPush(flags: seq<bool>, n: nat, q: seq<nat>, client: nat)
    requires Flagged(flags, n, q) && client < n && !flags[client]
    ensures |q| < n
  {
    assert forall i :: 0 <= i < |q| ==> q[i] in q;
    NoRepeatsShort(q + [client], n);
  }

  lemma PlacedPush(ring: seq<nat>, head: nat, tail: nat, q: seq<nat>, client: nat)
    requires Placed(ring, head, tail, q) && |q| < MAX_CLIENTS
    ensures tail < PENDING_MAX && Placed(ring[tail := client], head, (tail + 1) % PENDING_MAX, q + [client])
  {
    var q', ring' := q + [client], ring[tail := client];
    assert (tail + 1) % PENDING_MAX == if tail + 1 == PENDING_MAX then 0 else tail + 1;
    forall i | 0 <= i < |q'|
      ensures ring'[Slot(head, i)] == q'[i]
    {
      assert i < |q| ==> Slot(head, i) != tail;
    }
  }

  lemma PlacedPop(ring: seq<nat>, head: nat, tail: nat, q: seq<nat>)
    requires Placed(ring, head, tail, q) && q != []
    ensures ring[head] == q[0] && Placed(ring, (head + 1) % PENDING_MAX, tail, q[1..])
  {
    var q', head' := q[1..], (head + 1) % PENDING_MAX;
    assert head' == if head + 1 == PENDING_MAX then 0 else head + 1;
    assert ring[Slot(head, 0)] == q[0];
    forall i | 0 <= i < |q'|
      ensures ring[Slot(head', i)] == q'[i]
    {
      assert Slot(head', i) == Slot(head, i + 1);
    }
  }

  lemma FlaggedPush(flags: seq<bool>, n: nat, q: seq<nat>, client: nat)
    requires Flagged(flags, n, q) && client < n && !flags[client]
    ensures Flagged(flags[client := true], n, q + [client])
  {
    var q' := q + [client];
    assert forall i :: 0 <= i < |q| ==> q[i] in q;
    assert forall c :: c in q' <==> c in q || c == client;
  }

  lemma FlaggedPop(flags: seq<bool>, n: nat, q: seq<nat>)
    requires Flagged(flags, n, q) && q != []
    ensures q[0] < n && Flagged(flags[q[0] := false], n, q[1..])
  {
    var q' := q[1..];
    assert q == [q[0]] + q';
    assert forall i :: 0 <= i < |q'| ==> q'[i] == q[i + 1];
    assert forall c :: c in q <==> c == q[0] || c in q';
  }

  /** tx_pending. */
  class Pending {
    const ring: array<nat>
    const flags: array<bool>      // clients_pending
    const n: nat                  // number of clients
    var head: nat
    var tail: nat
    ghost var q: seq<nat>         // the clients pending, oldest first

    ghost predicate Valid()
      reads this, ring, flags
    {
      Placed(ring[..], head, tail, q) && Flagged(flags[..], n, q)
    }

    constructor (clients: nat)
      requires clients <= MAX_CLIENTS
      ensures Valid() && q == [] && n == clients && fresh(ring) && fresh(flags)
    {
      n, head, tail, q := clients, 0, 0, [];
      ring := new nat[PENDING_MAX](_ => 0);
      flags := new bool[MAX_CLIENTS](_ => false);
    }

    /** tx_pending_length. */
    method Length() returns (len: nat)
      requires Valid()
      ensures len == |q|
    {
      LengthIs(ring[..], head, tail, q);
      len := PendingLength(head, tail);
    }

    method Write(i: nat, client: nat, c: nat, flag: bool)
      requires i < ring.Length && c < flags.Length
      modifies ring, flags
      ensures ring[..] == old(ring[..])[i := client] && flags[..] == old(flags[..])[c := flag]
    {
      ring[i] := client;
      flags[c] := flag;
    }

    /** tx_pending_push: a client already pending stays where it is; otherwise the assertion holds and it goes last. */
    method Push(client: nat)
      requires Valid() && client < n
      modifies this`tail, this`q, ring, flags
      ensures Valid() && q == if client in old(q) then old(q) else old(q) + [client]
    {
      assert flags[..][client] == flags[client];
      if flags[client] {
        return;
      }
      RoomToPush(flags[..], n, q, client);
      PlacedPush(ring[..], head, tail, q, client);
      FlaggedPush(flags[..], n, q, client);
      var len := Length();
      assert len < n;
      Write(tail, client, client, true);
      tail := (tail + 1) % PENDING_MAX;
      q := q + [client];
    }

    /** tx_pending_pop: the client pending longest. */
    method Pop() returns (client: nat)
      requires Valid() && q != []
      modifies this`head, this`q, ring, flags
      ensures Valid() && client == old(q)[0] < n && q == old(q)[1..]
    {
      var len := Length();
      assert len > 0;
      PlacedPop(ring[..], head, tail, q);
      FlaggedPop(flags[..], n, q);
      client := ring[head];
      flags[client] := false;
      assert flags[..] == old(flags[..])[client := false];
      head := (head + 1) % PENDING_MAX;
      q := q[1..];
    }
  }

  // ---- Batches ------------------------------------------------------------------------------------

  /** What one client had queued, transferred in one piece. */
  datatype Batch = Batch(client: nat, data: string)

  /** As the driver sees it: between colour codes, if colours are enabled. */
  function Render(colour: bool, b: Batch): string
  {
    if colour then COLOURS[b.client % |COLOURS|] + b.data + COLOUR_END else b.data
  }

  /** The codes are those of the colours 31 to 36, taken in turn, and of the default. */
  lemma RenderedAs(b: Batch)
    ensures Render(true, b) == "\U{1b}[3" + ["123456"[b.client % 6]] + "m" + b.data + "\U{1b}[0m"
    ensures Render(false, b) == b.data
  {
    var k := b.client % 6;
    assert k == 0 || k == 1 || k == 2 || k == 3 || k == 4 || k == 5;
  }

  function RenderAll(colour: bool, bs: seq<Batch>): string
  {
    if bs == [] then [] else RenderAll(colour, bs[..|bs| - 1]) + Render(colour, bs[|bs| - 1])
  }

  /** What was transferred for a client. */
  function DataOf(bs: seq<Batch>, client: nat): string
  {
    if bs == [] then []
    else DataOf(bs[..|bs| - 1], client) + if bs[|bs| - 1].client == client then bs[|bs| - 1].data else []
  }

  lemma BatchPush(colour: bool, bs: seq<Batch>, b: Batch)
    ensures RenderAll(colour, bs + [b]) == RenderAll(colour, bs) + Render(colour, b)
    ensures forall c: nat :: DataOf(bs + [b], c) == DataOf(bs, c) + if b.client == c then b.data else []
  {
    assert (bs + [b])[..|bs|] == bs;
  }

  /** Names the places where a proof looks at what was typed. */
  predicate Recorded(k: int, cli: seq<string>, batches: seq<Batch>)
  {
    true
  }

  ghost predicate AllTyped(cli: seq<string>, batches: seq<Batch>, typed: seq<string>)
  {
    |cli| == |typed| && forall c :: 0 <= c < |cli| ==> DataOf(batches, c) + cli[c] == typed[c]
  }

  /** Each client's characters are transferred or still queued, in order, and the queue fits its ring. */
  ghost predicate Accounted(caps: seq<nat>, cli: seq<string>, heads: seq<nat>, batches: seq<Batch>, typed: seq<string>)
  {
    && |cli| == |typed| == |caps| == |heads|
    && (forall c :: 0 <= c < |cli| ==> |cli[c]| <= caps[c] && heads[c] < caps[c])
    && forall k: int {:trigger Recorded(k, cli, batches)} :: Recorded(k, cli, batches) ==> AllTyped(cli, batches, typed)
  }

  /** A client's whole queue, and what it added, becomes a batch. */
  lemma AccountedBatch(colour: bool, caps: seq<nat>, cli: seq<string>, heads: seq<nat>, batches: seq<Batch>,
                       typed: seq<string>, client: nat, added: string, head: nat)
    requires Accounted(caps, cli, heads, batches, typed) && client < |cli| && head < caps[client]
    ensures Accounted(caps, cli[client := []], heads[client := head], batches + [Batch(client, cli[client] + added)],
                      typed[client := typed[client] + added])
  {
    assert Recorded(0, cli, batches);
    var b := Batch(client, cli[client] + added);
    BatchPush(colour, batches, b);
    AppendAssociates(DataOf(batches, client), cli[client], added);
    var cli', typed' := cli[client := []], typed[client := typed[client] + added];
    forall c | 0 <= c < |cli'|
      ensures DataOf(batches + [b], c) + cli'[c] == typed'[c]
    {
      assert c != client ==> DataOf(batches, c) + [] == DataOf(batches, c);
      assert c == client ==> DataOf(batches + [b], c) + [] == DataOf(batches + [b], c);
    }
    assert AllTyped(cli', batches + [b], typed');
  }

  /** The transfer of a client's queue as one batch of the driver's stream, if it gets through. */
  method TransferBatch(colour: bool, size: nat, client: nat, w: Queue, drv0: string, q: string, lates: Lates,
                       ghost consumed0: string, ghost batches: seq<Batch>)
    returns (ok: bool, drv: string, head: nat, ghost consumed: string, ghost added: string)
    requires w.Sound() && |q| == w.len && |drv0| <= size && consumed0 + drv0 == RenderAll(colour, batches)
    ensures |drv| <= size && head < w.cap && added == Added(colour, w, lates)
    ensures Transfers(colour, size, size - |drv0|, w, lates, ok, size - |drv|)
    ensures ok ==> consumed + drv == RenderAll(colour, batches + [Batch(client, q + added)])
  {
    ghost var moved;
    added := Added(colour, w, lates);
    ok, drv, head, consumed, moved :=
      TransferMeasured(colour, COLOURS[client % |COLOURS|], COLOUR_END, size, drv0, q, w.head, w.cap, lates, consumed0);
    assert Moves(|moved|);
    BatchPush(colour, batches, Batch(client, q + added));
  }

  lemma AccountedTyping(caps: seq<nat>, cli: seq<string>, heads: seq<nat>, batches: seq<Batch>, typed: seq<string>,
                        client: nat, more: string)
    requires Accounted(caps, cli, heads, batches, typed) && client < |cli| && |cli[client]| + |more| <= caps[client]
    ensures Accounted(caps, cli[client := cli[client] + more], heads, batches, typed[client := typed[client] + more])
  {
    assert Recorded(0, cli, batches);
    AppendAssociates(DataOf(batches, client), cli[client], more);
    assert AllTyped(cli[client := cli[client] + more], batches, typed[client := typed[client] + more]);
  }

  // ---- A row of clients -----------------------------------------------------------------------------

  /** What a row of clients changes: the driver's queue, the clients' queues and streams, and the batches. */
  datatype Now = Now(used: nat, cli: seq<string>, heads: seq<nat>, typed: seq<string>, batches: seq<Batch>)

  /** A row of clients to be served, with all that happens meanwhile, from this state on. */
  datatype Row = Row(colour: bool, size: nat, caps: seq<nat>, clients: seq<nat>, env: seq<Meanwhile>,
                     typing: seq<seq<string>>, start: Now)
  {
    predicate Sound()
    {
      && Kept(start.cli, start.heads, caps, clients) && start.used <= size && NoRepeats(clients)
      && |start.typed| == |start.cli|
    }

    /** How it ends, as arithmetic on lengths. */
    function End(): Served
      requires Sound()
    {
      ServeAll(colour, size, start.used, Turns(clients, start.cli, start.heads, caps, typing), env)
    }
  }

  /** All clients typed, and then one was served: its queue went as a batch, or stayed. */
  predicate RoundDone(now: Now, now': Now, caps: seq<nat>, client: nat, m: Meanwhile, texts: seq<string>,
                      transferred: bool, before: seq<string>, added: string)
    requires Within(now.cli, caps) && client < |now.cli|
  {
    var cli := AcceptAll(now.cli, caps, texts);
    && Kept(now'.cli, now'.heads, caps, []) && |now.heads| == |caps| && |now.typed| == |before| == |now.cli|
    && now'.cli == (if transferred then cli[client := []] else cli)
    && now'.heads == now.heads[client := now'.heads[client]]
    && (forall c :: 0 <= c < |before| ==> now.typed[c] <= before[c] && before[c][|now.typed[c]|..] <= TextFor(texts, c))
    && now'.typed == before[client := before[client] + added] && IsSubsequence(added, Text(m.late))
    && (transferred ==> cli[client] != [])
    && now'.batches == now.batches + if transferred then [Batch(client, cli[client] + added)] else []
  }

  /** Names the places where a proof looks into a row underway. */
  predicate Visited(k: int, row: Row, now: Now, req: nat)
  {
    true
  }

  /** So many clients of the row have been served. */
  ghost predicate Underway(row: Row, now: Now, req: nat, waiting: seq<nat>, sent: seq<nat>)
  {
    && row.Sound() && req <= |row.clients|
    && forall k: int {:trigger Visited(k, row, now, req)} :: Visited(k, row, now, req) ==>
         UnderwaySo(row, now, req, waiting, sent)
  }

  ghost predicate UnderwaySo(row: Row, now: Now, req: nat, waiting: seq<nat>, sent: seq<nat>)
    requires row.Sound() && req <= |row.clients|
  {
    && Leads(row.colour, row.size, now.used, row.clients[req..], now.cli, now.heads, row.caps, Skip(row.env, req),
             Skip(row.typing, req), row.End())
    && AllFrom(row.start.typed, now.typed, row.clients, row.env, row.typing, req)
    && Outcome(row.clients[..req], row.start.cli, now.cli, waiting, sent, Silent(row.typing))
    && row.start.batches <= now.batches && ClientsOf(now.batches[|row.start.batches|..]) == sent
  }

  lemma UnderwayMeans(row: Row, now: Now, req: nat, waiting: seq<nat>, sent: seq<nat>)
    requires row.Sound() && req <= |row.clients|
    ensures Underway(row, now, req, waiting, sent) <==> UnderwaySo(row, now, req, waiting, sent)
  {
    assert Visited(0, row, now, req);
  }

  lemma UnderwayLeads(row: Row, now: Now, req: nat, waiting: seq<nat>, sent: seq<nat>)
    requires Underway(row, now, req, waiting, sent)
    ensures Leads(row.colour, row.size, now.used, row.clients[req..], now.cli, now.heads, row.caps, Skip(row.env, req),
                  Skip(row.typing, req), row.End())
  {
    UnderwayMeans(row, now, req, waiting, sent);
  }

  lemma UnderwayOutcome(row: Row, now: Now, req: nat, waiting: seq<nat>, sent: seq<nat>)
    requires Underway(row, now, req, waiting, sent)
    ensures Outcome(row.clients[..req], row.start.cli, now.cli, waiting, sent, Silent(row.typing))
  {
    UnderwayMeans(row, now, req, waiting, sent);
  }

  lemma UnderwayFirst(row: Row)
    requires row.Sound()
    ensures Underway(row, row.start, 0, [], [])
  {
    assert row.clients[0..] == row.clients;
    SkipNext(row.env, row.typing, 0);
    LeadsMeans(row.colour, row.size, row.start.used, row.clients, row.start.cli, row.start.heads, row.caps, row.env,
               row.typing, row.End());
    AllFromFirst(row.start.typed, row.clients, row.env, row.typing);
    assert ClientsOf(row.start.batches[|row.start.batches|..]) == [];
    UnderwayMeans(row, row.start, 0, [], []);
  }

  /** The queues are in their rings, and the next client is one of theirs. */
  predicate Ready(row: Row, now: Now, req: nat)
  {
    && req < |row.clients| && row.clients[req] < |now.cli| && Kept(now.cli, now.heads, row.caps, [])
    && now.used <= row.size
  }

  /** The next client's queue when its turn comes. */
  function NextQueue(row: Row, now: Now, req: nat): (w: Queue)
    requires Ready(row, now, req)
    ensures w.Sound()
  {
    var c := row.clients[req];
    Queue(|AcceptAll(now.cli, row.caps, TextsAt(row.typing, req))[c]|, now.heads[c], row.caps[c])
  }

  /** The next client is served, and that goes well. */
  ghost predicate Goes(row: Row, now: Now, now': Now, req: nat, transferred: bool, before: seq<string>, added: string)
    requires Ready(row, now, req)
  {
    && now'.used <= row.size
    && Serves(row.colour, row.size, now.used, NextQueue(row, now, req), At(row.env, req), true, now'.used)
    && RoundDone(now, now', row.caps, row.clients[req], At(row.env, req), TextsAt(row.typing, req), transferred, before,
                 added)
  }

  lemma UnderwayFails(row: Row, now: Now, req: nat, waiting: seq<nat>, sent: seq<nat>, used: nat)
    requires Underway(row, now, req, waiting, sent) && Ready(row, now, req) && used <= row.size
    requires Serves(row.colour, row.size, now.used, NextQueue(row, now, req), At(row.env, req), false, used)
    ensures row.End() == Failed
  {
    UnderwayMeans(row, now, req, waiting, sent);
    SkipNext(row.env, row.typing, req);
    FrontOf(row.clients, req, []);
    LeadsOn(row.colour, row.size, now.used, row.clients[req..], now.cli, now.heads, row.caps, Skip(row.env, req),
            Skip(row.typing, req), row.End(), false, used, [], now.heads[row.clients[req]]);
  }

  function Waits(row: Row, now: Now, req: nat, waiting: seq<nat>, transferred: bool): seq<nat>
    requires Ready(row, now, req)
  {
    waiting + if transferred || now.cli[row.clients[req]] == [] then [] else [row.clients[req]]
  }

  /** The next client is served. */
  lemma UnderwayNext(row: Row, now: Now, now': Now, req: nat, waiting: seq<nat>, sent: seq<nat>, transferred: bool,
                     before: seq<string>, added: string)
    requires Underway(row, now, req, waiting, sent) && Ready(row, now, req)
    requires Goes(row, now, now', req, transferred, before, added)
    ensures Ready(row, now', req)
    ensures Underway(row, now', req + 1, Waits(row, now', req, waiting, transferred),
                     sent + if transferred then [row.clients[req]] else [])
  {
    NextLeads(row, now, now', req, waiting, sent, transferred, before, added);
    NextFrom(row, now, now', req, waiting, sent, transferred, before, added);
    NextOutcome(row, now, now', req, waiting, sent, transferred, before, added);
    NextBatches(row, now, now', req, waiting, sent, transferred, before, added);
    UnderwayMeans(row, now', req + 1, Waits(row, now', req, waiting, transferred),
                  sent + if transferred then [row.clients[req]] else []);
  }

  lemma NextLeads(row: Row, now: Now, now': Now, req: nat, waiting: seq<nat>, sent: seq<nat>, transferred: bool,
                  before: seq<string>, added: string)
    requires Underway(row, now, req, waiting, sent) && Ready(row, now, req)
    requires Goes(row, now, now', req, transferred, before, added)
    ensures Leads(row.colour, row.size, now'.used, row.clients[req + 1..], now'.cli, now'.heads, row.caps,
                  Skip(row.env, req + 1), Skip(row.typing, req + 1), row.End())
  {
    UnderwayLeads(row, now, req, waiting, sent);
    var c, cli := row.clients[req], AcceptAll(now.cli, row.caps, TextsAt(row.typing, req));
    assert now'.cli == cli[c := now'.cli[c]];
    LeadsNext(row, now, req, now'.used, now'.cli[c], now'.heads[c]);
  }

  lemma LeadsNext(row: Row, now: Now, req: nat, used: nat, q: string, head: nat)
    requires row.Sound() && Ready(row, now, req) && used <= row.size
    requires Leads(row.colour, row.size, now.used, row.clients[req..], now.cli, now.heads, row.caps, Skip(row.env, req),
                   Skip(row.typing, req), row.End())
    requires |q| <= row.caps[row.clients[req]] && head < row.caps[row.clients[req]]
    requires Serves(row.colour, row.size, now.used, NextQueue(row, now, req), At(row.env, req), true, used)
    ensures var c, cli := row.clients[req], AcceptAll(now.cli, row.caps, TextsAt(row.typing, req));
            Leads(row.colour, row.size, used, row.clients[req + 1..], cli[c := q], now.heads[c := head], row.caps,
                  Skip(row.env, req + 1), Skip(row.typing, req + 1), row.End())
  {
    SkipNext(row.env, row.typing, req);
    FrontOf(row.clients, req, []);
    var rest := row.clients[req..];
    assert rest[1..] == row.clients[req + 1..];
    LeadsOn(row.colour, row.size, now.used, rest, now.cli, now.heads, row.caps, Skip(row.env, req),
            Skip(row.typing, req), row.End(), true, used, q, head);
  }

  lemma NextFrom(row: Row, now: Now, now': Now, req: nat, waiting: seq<nat>, sent: seq<nat>, transferred: bool,
                 before: seq<string>, added: string)
    requires Underway(row, now, req, waiting, sent) && Ready(row, now, req)
    requires Goes(row, now, now', req, transferred, before, added)
    ensures AllFrom(row.start.typed, now'.typed, row.clients, row.env, row.typing, req + 1)
  {
    UnderwayMeans(row, now, req, waiting, sent);
    AllFromNext(row.start.typed, now.typed, before, row.clients, row.env, row.typing, req, added);
  }

  lemma NextOutcome(row: Row, now: Now, now': Now, req: nat, waiting: seq<nat>, sent: seq<nat>, transferred: bool,
                    before: seq<string>, added: string)
    requires Underway(row, now, req, waiting, sent) && Ready(row, now, req)
    requires Goes(row, now, now', req, transferred, before, added)
    ensures Ready(row, now', req)
    ensures Outcome(row.clients[..req + 1], row.start.cli, now'.cli, Waits(row, now', req, waiting, transferred),
                    sent + if transferred then [row.clients[req]] else [], Silent(row.typing))
  {
    var c, cli := row.clients[req], AcceptAll(now.cli, row.caps, TextsAt(row.typing, req));
    UnderwayOutcome(row, now, req, waiting, sent);
    if Silent(row.typing) {
      NothingTyped(now.cli, row.caps, TextsAt(row.typing, req));
    }
    if transferred {
      OutcomeSent(row.clients, req, row.start.cli, now.cli, cli, waiting, sent, c, Silent(row.typing));
      assert waiting + [] == waiting;
    } else {
      OutcomeKept(row.clients, req, row.start.cli, now.cli, cli, waiting, sent, c, Silent(row.typing));
      assert sent + [] == sent;
    }
  }

  lemma NextBatches(row: Row, now: Now, now': Now, req: nat, waiting: seq<nat>, sent: seq<nat>, transferred: bool,
                    before: seq<string>, added: string)
    requires Underway(row, now, req, waiting, sent) && Ready(row, now, req)
    requires Goes(row, now, now', req, transferred, before, added)
    ensures row.start.batches <= now'.batches
    ensures ClientsOf(now'.batches[|row.start.batches|..])
              == sent + if transferred then [row.clients[req]] else []
  {
    UnderwayMeans(row, now, req, waiting, sent);
    if transferred {
      ClientsPush(now.batches, row.start.batches, now'.batches[|now.batches|]);
    } else {
      assert now.batches + [] == now.batches;
    }
  }

  lemma UnderwayLast(row: Row, now: Now, waiting: seq<nat>, sent: seq<nat>)
    requires Underway(row, now, |row.clients|, waiting, sent)
    ensures row.End() == Served(now.used)
    ensures Outcome(row.clients, row.start.cli, now.cli, waiting, sent, Silent(row.typing))
    ensures AllFrom(row.start.typed, now.typed, row.clients, row.env, row.typing, |row.clients|)
    ensures row.start.batches <= now.batches && ClientsOf(now.batches[|row.start.batches|..]) == sent
  {
    var num := |row.clients|;
    UnderwayMeans(row, now, num, waiting, sent);
    assert row.clients[num..] == [] && row.clients[..num] == row.clients;
    LeadsHere(row.colour, row.size, now.used, now.cli, now.heads, row.caps, Skip(row.env, num), Skip(row.typing, num),
              row.End());
  }

  class VirtTx {
    const colour: bool
    const n: nat
    const capacity: nat             // of the driver's queue
    const caps: seq<nat>            // of the clients' queues
    const pending: Pending
    var drv: string                 // the driver's queue
    var cli: seq<string>            // the clients' queues
    var heads: seq<nat>             // where each starts in its ring
    var signalWanted: bool          // from the driver
    var waits: seq<bool>            // which clients want a signal when their queue is emptied
    ghost var consumed: string      // what the driver has taken
    ghost var batches: seq<Batch>   // what has been transferred, in order
    ghost var typed: seq<string>    // what each client ever queued

    /** The driver's stream is whole batches, and each client's characters are transferred or still queued, in order. */
    ghost predicate Streams()
      reads this
    {
      && |cli| == n && |drv| <= capacity
      && consumed + drv == RenderAll(colour, batches)
      && Accounted(caps, cli, heads, batches, typed)
    }

    ghost predicate Valid()
      reads this, pending, pending.ring, pending.flags
    {
      pending.Valid() && pending.n == n && |waits| == n && Streams()
    }

    constructor (colours: bool, cap: nat, clientCaps: seq<nat>)
      requires |clientCaps| <= MAX_CLIENTS && forall c :: 0 <= c < |clientCaps| ==> clientCaps[c] > 0
      ensures Valid() && n == |clientCaps| && colour == colours && capacity == cap && caps == clientCaps
      ensures pending.q == [] && drv == [] && batches == []
      ensures fresh(pending) && fresh(pending.ring) && fresh(pending.flags)
      ensures forall c :: 0 <= c < n ==> cli[c] == []
    {
      pending := new Pending(|clientCaps|);
      colour, n, capacity, caps, drv, signalWanted, consumed, batches :=
        colours, |clientCaps|, cap, clientCaps, [], false, [], [];
      cli, typed, heads, waits := Fill(|clientCaps|, []), Fill(|clientCaps|, []), Fill(|clientCaps|, 0),
        Fill(|clientCaps|, false);
      new;
      assert AllTyped(cli, batches, typed);
    }

    /** The driver takes up to k characters. */
    method Drain(k: nat)
      requires Streams()
      modifies this`drv, this`consumed
      ensures Streams() && |drv| == if k <= |old(drv)| then |old(drv)| - k else 0
    {
      var m := if k <= |drv| then k else |drv|;
      AppendAssociates(consumed, drv[..m], drv[m..]);
      assert drv[..m] + drv[m..] == drv;
      consumed := consumed + drv[..m];
      drv := drv[m..];
    }

    /** A client queues characters, as many as fit. */
    method Type(client: nat, s: string)
      requires Streams() && client < n
      modifies this`cli, this`typed
      ensures Streams() && cli == old(cli)[client := Accept(old(cli)[client], caps[client], s)]
      ensures typed == old(typed)[client := old(typed)[client] + Accepted(|old(cli)[client]|, caps[client], s)]
    {
      var more := Accepted(|cli[client]|, caps[client], s);
      AccountedTyping(caps, cli, heads, batches, typed, client, more);
      cli := cli[client := cli[client] + more];
      typed := typed[client := typed[client] + more];
    }

    /** All clients type. */
    method TypeAll(texts: seq<string>)
      requires Streams()
      modifies this`cli, this`typed
      ensures Streams() && Within(old(cli), caps) && cli == AcceptAll(old(cli), caps, texts)
      ensures |typed| == |old(typed)| == n
      ensures forall c :: 0 <= c < n ==>
                old(typed)[c] <= typed[c] && typed[c][|old(typed)[c]|..] <= TextFor(texts, c)
    {
      for c := 0 to n
        invariant Streams() && |typed| == |old(typed)| == n == |old(cli)|
        invariant forall k :: 0 <= k < c ==> cli[k] == Accept(old(cli)[k], caps[k], TextFor(texts, k))
        invariant forall k :: 0 <= k < c ==>
                    old(typed)[k] <= typed[k] && typed[k][|old(typed)[k]|..] <= TextFor(texts, k)
        invariant forall k :: c <= k < n ==> cli[k] == old(cli)[k] && typed[k] == old(typed)[k]
      {
        Type(c, TextFor(texts, c));
      }
    }

    /**
     The two looks at the free space, with the request for a signal in between. Characters the driver takes after the
     first look count for the second.
     */
    method CheckSpace(length: nat, m: Meanwhile) returns (fits: bool)
      requires Streams()
      modifies this`drv, this`consumed, this`signalWanted
      ensures Streams() && capacity - |drv| == RoomSeen(capacity, |old(drv)|, m)
      ensures (fits <==> length <= capacity - |drv|) && (!fits ==> signalWanted)
    {
      Drain(m.before);
      if length > capacity - |drv| {
        signalWanted := true;
      }
      Drain(m.after);
      fits := length <= capacity - |drv|;
    }

    /** A client's queue, as far as the arithmetic on lengths goes. */
    function QueueOf(client: nat): (w: Queue)
      requires client < |cli| && client < |heads| && client < |caps|
      reads this`cli, this`heads
    {
      Queue(|cli[client]|, heads[client], caps[client])
    }

    /** The transfer of one client's queue as one batch, if it gets through, with what the client adds meanwhile. */
    method TransferQueue(client: nat, lates: Lates) returns (ok: bool, ghost added: string)
      requires Streams() && client < n
      modifies this`drv, this`cli, this`heads, this`batches, this`consumed, this`typed
      ensures |drv| <= capacity && added == Added(colour, old(QueueOf(client)), lates)
      ensures Transfers(colour, capacity, capacity - |old(drv)|, old(QueueOf(client)), lates, ok, capacity - |drv|)
      ensures ok ==> Streams() && cli == old(cli)[client := []] && heads == old(heads)[client := heads[client]]
      ensures ok ==> typed == old(typed)[client := old(typed)[client] + added]
      ensures ok ==> batches == old(batches) + [Batch(client, old(cli)[client] + added)]
    {
      var head;
      ok, drv, head, consumed, added :=
        TransferBatch(colour, capacity, client, QueueOf(client), drv, cli[client], lates, consumed, batches);
      if ok {
        AccountedBatch(colour, caps, cli, heads, batches, typed, client, added, head);
        batches := batches + [Batch(client, cli[client] + added)];
        cli, heads, typed := cli[client := []], heads[client := head], typed[client := typed[client] + added];
      }
    }

    /**
     process_tx_queue. True exactly when the client's queue was transferred; otherwise it was empty, or did not fit and
     the client is pending. Characters a client adds between measurement and transfer go along, behind those queued, or
     make an assertion fail: `ok` says which.
     */
    method ProcessTxQueue(client: nat, m: Meanwhile) returns (ok: bool, transferred: bool, ghost added: string)
      requires Valid() && client < n
      modifies this`drv, this`cli, this`heads, this`batches, this`consumed, this`typed, this`signalWanted
      modifies pending, pending.ring, pending.flags
      ensures |drv| <= capacity && Serves(colour, capacity, |old(drv)|, old(QueueOf(client)), m, ok, |drv|)
      ensures ok ==> Valid() && heads == old(heads)[client := heads[client]]
      ensures ok && transferred ==> old(cli)[client] != [] && cli == old(cli)[client := []]
      ensures ok && transferred ==> pending.q == old(pending.q) && added == Added(colour, old(QueueOf(client)), m.late)
      ensures ok && transferred ==> batches == old(batches) + [Batch(client, old(cli)[client] + added)]
      ensures ok && transferred ==> typed == old(typed)[client := old(typed)[client] + added]
      ensures !transferred && ok ==> batches == old(batches) && cli == old(cli) && typed == old(typed)
      ensures !transferred && ok ==>
                pending.q == if old(cli)[client] == [] || client in old(pending.q) then old(pending.q)
                    else old(pending.q) + [client]
      ensures !transferred && ok && old(cli)[client] != [] ==> signalWanted
    {
      added := [];
      ghost var used, w := |drv|, QueueOf(client);
      if cli[client] == [] {
        NothingQueued(colour, capacity, used, w, m);
        return true, false, added;
      }
      var fits := CheckSpace(|cli[client]| + Extra(colour), m);
      if !fits {
        NoRoomSeen(colour, capacity, used, w, m, |drv|);
        pending.Push(client);
        return true, false, added;
      }
      ok, added := TransferQueue(client, m.late);
      TransferDecides(colour, capacity, used, w, m, ok, |drv|);
      transferred := ok;
    }

    /** The client pending longest: its queue is transferred, or it goes last again unless its queue is empty. */
    method ServeNext(m: Meanwhile) returns (ok: bool, client: nat, transferred: bool, ghost added: string)
      requires Valid() && pending.q != []
      modifies this`drv, this`cli, this`heads, this`batches, this`consumed, this`typed, this`signalWanted
      modifies pending, pending.ring, pending.flags
      ensures client == old(pending.q)[0] < n
      ensures |drv| <= capacity && Serves(colour, capacity, |old(drv)|, old(QueueOf(pending.q[0])), m, ok, |drv|)
      ensures ok ==> Valid() && heads == old(heads)[client := heads[client]] && IsSubsequence(added, Text(m.late))
      ensures ok ==> typed == old(typed)[client := old(typed)[client] + added]
      ensures ok && transferred ==> old(cli)[client] != [] && cli == old(cli)[client := []]
      ensures ok && transferred ==> pending.q == old(pending.q)[1..]
      ensures ok && transferred ==> batches == old(batches) + [Batch(client, old(cli)[client] + added)]
      ensures ok && !transferred ==> cli == old(cli) && batches == old(batches)
      ensures ok && !transferred ==> pending.q == old(pending.q)[1..] + if cli[client] == [] then [] else [client]
    {
      client := pending.Pop();
      AddedIsTyped(colour, QueueOf(client), m.late);
      ok, transferred, added := ProcessTxQueue(client, m);
      if !transferred {
        added := [];
        assert ok ==> old(typed)[client] + [] == old(typed)[client];
      }
    }

    /** The clients transferred that asked for a signal get one. */
    method NotifyClients(sent: set<nat>) returns (notified: set<nat>)
      requires |waits| == n
      modifies this`waits
      ensures |waits| == n
      ensures forall c: nat :: c in notified <==> c < n && c in sent && old(waits)[c]
      ensures forall c :: 0 <= c < n ==> waits[c] == (old(waits)[c] && c !in notified)
    {
      notified := {};
      for c := 0 to n
        invariant |waits| == n
        invariant forall k: nat :: k in notified <==> k < c && k in sent && old(waits)[k]
        invariant forall k :: 0 <= k < n ==> waits[k] == (old(waits)[k] && k !in notified)
      {
        if c in sent && waits[c] {
          waits := waits[c := false];
          notified := notified + {c};
        }
      }
    }

    /** One round of tx_return's loop: all clients type, and then the one pending longest is served. */
    method ServeRound(m: Meanwhile, texts: seq<string>)
      returns (ok: bool, client: nat, transferred: bool, ghost before: seq<string>, ghost added: string)
      requires Valid() && pending.q != []
      modifies this`drv, this`cli, this`heads, this`batches, this`consumed, this`typed, this`signalWanted
      modifies pending, pending.ring, pending.flags
      ensures client == old(pending.q)[0] < n && |drv| <= capacity && Within(old(cli), caps)
      ensures Serves(colour, capacity, |old(drv)|,
                     Queue(|AcceptAll(old(cli), caps, texts)[client]|, old(heads)[client], caps[client]), m, ok, |drv|)
      ensures ok ==> Valid() && RoundDone(old(Here()), Here(), caps, client, m, texts, transferred, before, added)
      ensures ok ==> pending.q == old(pending.q)[1..] + if transferred || cli[client] == [] then [] else [client]
    {
      TypeAll(texts);
      before := typed;
      ok, client, transferred, added := ServeNext(m);
    }

    /** The virtualiser's state, as far as a row of clients changes it. */
    ghost function Here(): Now
      reads this
    {
      Now(|drv|, cli, heads, typed, batches)
    }

    /** No client types while it is processed; or what these clients hold, and m characters more each, fits. */
    ghost predicate RowFits(now: Now, clients: seq<nat>, typing: seq<seq<string>>, m: nat)
      requires Kept(now.cli, now.heads, caps, clients)
    {
      m == 0 || now.used + Need(colour, capacity, Turns(clients, now.cli, now.heads, caps, typing), m) <= capacity
    }

    /** The next client of the row. */
    method ServeOfRow(ghost row: Row, req: nat, env: seq<Meanwhile>, typing: seq<seq<string>>, ghost waiting: seq<nat>,
                      ghost sent: seq<nat>)
      returns (ok: bool, client: nat, transferred: bool, ghost waiting': seq<nat>)
      requires Valid() && row.colour == colour && row.size == capacity && row.caps == caps && row.env == env
      requires row.typing == typing && req < |row.clients| && pending.q == row.clients[req..] + waiting
      requires Underway(row, Here(), req, waiting, sent)
      modifies this`drv, this`cli, this`heads, this`batches, this`consumed, this`typed, this`signalWanted
      modifies pending, pending.ring, pending.flags
      ensures client == row.clients[req] && |drv| <= capacity
      ensures !ok ==> row.End() == Failed
      ensures ok ==> Valid() && pending.q == row.clients[req + 1..] + waiting'
      ensures ok ==> Underway(row, Here(), req + 1, waiting', sent + if transferred then [client] else [])
    {
      FrontOf(row.clients, req, waiting);
      ghost var now := Here();
      ghost var before, added;
      assert Ready(row, now, req);
      ok, client, transferred, before, added := ServeRound(At(env, req), TextsAt(typing, req));
      waiting' := [];
      if ok {
        UnderwayNext(row, now, Here(), req, waiting, sent, transferred, before, added);
        waiting' := Waits(row, Here(), req, waiting, transferred);
        AppendAssociates(row.clients[req + 1..], waiting, if transferred || cli[client] == [] then [] else [client]);
      } else {
        UnderwayFails(row, now, req, waiting, sent, |drv|);
      }
    }

    /** The loop of tx_return: the clients pending at entry, once each. */
    method ServePending(env: seq<Meanwhile>, typing: seq<seq<string>>)
      returns (ok: bool, done: set<nat>, ghost sent: seq<nat>)
      requires Valid()
      modifies this`drv, this`cli, this`heads, this`batches, this`consumed, this`typed, this`signalWanted
      modifies pending, pending.ring, pending.flags
      ensures |drv| <= capacity && Kept(old(cli), old(heads), caps, old(pending.q))
      ensures IsResult(ServeAll(colour, capacity, |old(drv)|, Turns(old(pending.q), old(cli), old(heads), caps, typing),
                                env), ok, |drv|)
      ensures ok ==> Valid() && Outcome(old(pending.q), old(cli), cli, pending.q, sent, Silent(typing))
      ensures ok ==> AllFrom(old(typed), typed, old(pending.q), env, typing, |old(pending.q)|)
      ensures ok ==> old(batches) <= batches && ClientsOf(batches[|old(batches)|..]) == sent
      ensures ok ==> forall c :: c in done <==> c in sent
    {
      ghost var row := Row(colour, capacity, caps, pending.q, env, typing, Here());
      ghost var waiting: seq<nat> := [];
      UnderwayFirst(row);
      assert row.clients[0..] + [] == row.clients;
      var num := pending.Length();
      ok, done, sent := true, {}, [];
      for req := 0 to num
        invariant ok && Valid() && pending.q == row.clients[req..] + waiting
        invariant Underway(row, Here(), req, waiting, sent)
        invariant forall c :: c in done <==> c in sent
      {
        var client, transferred;
        ok, client, transferred, waiting := ServeOfRow(row, req, env, typing, waiting, sent);
        if !ok {
          return;
        }
        sent := sent + if transferred then [client] else [];
        done := done + if transferred then {client} else {};
      }
      assert row.clients[num..] + waiting == waiting;
      UnderwayLast(row, Here(), waiting, sent);
    }

    /**
     tx_return: every client pending at entry is processed once, in the order they became pending, while all clients go
     on typing. Those whose queue was transferred are notified if they asked for it; those whose queue still does not
     fit are pending again, in the same order; of no other client's queue anything is taken. Whether an assertion fails
     is what the arithmetic on lengths says; none does if no client types while it is processed, or if there is room for
     all that is queued and may be typed.
     */
    method TxReturn(env: seq<Meanwhile>, typing: seq<seq<string>>)
      returns (ok: bool, notifyDriver: bool, notified: set<nat>, ghost sent: seq<nat>)
      requires Valid()
      modifies this`drv, this`cli, this`heads, this`batches, this`consumed, this`typed, this`signalWanted, this`waits
      modifies pending, pending.ring, pending.flags
      ensures Kept(old(cli), old(heads), caps, old(pending.q))
      ensures ok <==> ServeAll(colour, capacity, |old(drv)|,
                               Turns(old(pending.q), old(cli), old(heads), caps, typing), env).Served?
      ensures forall m: nat :: Modest(env, m) && RowFits(old(Here()), old(pending.q), typing, m) ==> ok
      ensures ok ==> Valid() && Outcome(old(pending.q), old(cli), cli, pending.q, sent, Silent(typing))
      ensures ok ==> AllFrom(old(typed), typed, old(pending.q), env, typing, |old(pending.q)|)
      ensures ok ==> old(batches) <= batches && ClientsOf(batches[|old(batches)|..]) == sent
      ensures ok ==> (notifyDriver <==> sent != [])
      ensures ok ==> forall c: nat :: c in notified <==> c in sent && c < n && old(waits)[c]
    {
      ghost var used := |drv|;
      var done;
      ok, done, sent := ServePending(env, typing);
      ghost var ws := Turns(old(pending.q), old(cli), old(heads), caps, typing);
      forall m: nat | Modest(env, m) && RowFits(old(Here()), old(pending.q), typing, m)
        ensures ok
      {
        RowSafe(colour, capacity, used, ws, env, m);
      }
      notifyDriver, notified := done != {}, {};
      if ok {
        assert sent != [] ==> sent[0] in done;
        notified := NotifyClients(done);
      }
    }

    /** tx_provide for a known client: as above, for the one that notified. */
    method TxProvide(client: nat, m: Meanwhile)
      returns (ok: bool, transferred: bool, notified: bool, ghost added: string)
      requires Valid() && client < n
      modifies this`drv, this`cli, this`heads, this`batches, this`consumed, this`typed, this`signalWanted, this`waits
      modifies pending, pending.ring, pending.flags
      ensures |drv| <= capacity && Serves(colour, capacity, |old(drv)|, old(QueueOf(client)), m, ok, |drv|)
      ensures ok ==> Valid() && (notified <==> transferred && old(waits)[client])
      ensures ok ==> waits == if notified then old(waits)[client := false] else old(waits)
      ensures ok && transferred ==> old(cli)[client] != [] && cli == old(cli)[client := []]
      ensures ok && transferred ==> pending.q == old(pending.q) && added == Added(colour, old(QueueOf(client)), m.late)
      ensures ok && transferred ==> batches == old(batches) + [Batch(client, old(cli)[client] + added)]
      ensures ok && transferred ==> typed == old(typed)[client := old(typed)[client] + added]
      ensures ok && !transferred ==> cli == old(cli) && batches == old(batches) && typed == old(typed)
      ensures ok && !transferred && cli[client] != [] ==> client in pending.q && signalWanted
    {
      ok, transferred, added := ProcessTxQueue(client, m);
      notified := ok && transferred && waits[client];
      if notified {
        waits := waits[client := false];
      }
    }
  }

  function ClientsOf(bs: seq<Batch>): (r: seq<nat>)
    ensures |r| == |bs| && forall i :: 0 <= i < |bs| ==> r[i] == bs[i].client
  {
    seq(|bs|, i requires 0 <= i < |bs| => bs[i].client)
  }

  lemma ClientsPush(bs: seq<Batch>, bs0: seq<Batch>, b: Batch)
    requires |bs0| <= |bs|
    ensures ClientsOf((bs + [b])[|bs0|..]) == ClientsOf(bs[|bs0|..]) + [b.client]
  {
    assert (bs + [b])[|bs0|..] == bs[|bs0|..] + [b];
  }

  /** The first of the remaining ones, and what is left after it. */
  lemma FrontOf(q0: seq<nat>, req: nat, waiting: seq<nat>)
    requires req < |q0|
    ensures (q0[req..] + waiting)[0] == q0[req] && (q0[req..] + waiting)[1..] == q0[req + 1..] + waiting
    ensures q0[..req] + [q0[req]] == q0[..req + 1]
  {
  }

  /**
   What processing the clients of `served` in order amounts to: some were sent whole, some wait because their queue did
   not fit, the queues of the rest were empty; and of the others' queues nothing was taken. With nobody typing between
   the turns, the queues of those sent are empty, and all others are as they were.
   */
  ghost predicate Outcome(served: seq<nat>, cli0: seq<string>, cli: seq<string>, waiting: seq<nat>, sent: seq<nat>,
                          silent: bool)
  {
    && |cli| == |cli0|
    && IsSubsequence(waiting, served) && IsSubsequence(sent, served)
    && (forall c :: 0 <= c < |cli| ==> Fate(served, cli0[c], cli[c], waiting, sent, silent, c))
  }

  predicate Fate(served: seq<nat>, q0: string, q: string, waiting: seq<nat>, sent: seq<nat>, silent: bool, c: nat)
  {
    && (c in sent ==> c in served && c !in waiting && (silent ==> q0 != [] && q == []))
    && (c in waiting ==> c in served && q != [])
    && (c !in sent ==> q0 <= q && (silent ==> q == q0))
    && (c in served && q0 != [] ==> c in sent || c in waiting)
  }

  lemma OutcomeSent(row: seq<nat>, req: nat, cli0: seq<string>, cli: seq<string>, cli': seq<string>, waiting: seq<nat>,
                    sent: seq<nat>, client: nat, silent: bool)
    requires req < |row| && client == row[req] && client !in row[..req] && client < |cli| == |cli'|
    requires Outcome(row[..req], cli0, cli, waiting, sent, silent) && cli'[client] != []
    requires forall c :: 0 <= c < |cli| ==> cli[c] <= cli'[c] && (silent ==> cli'[c] == cli[c])
    ensures Outcome(row[..req + 1], cli0, cli'[client := []], waiting, sent + [client], silent)
  {
    var served := row[..req];
    assert row[..req + 1] == served + [client];
    SubsequenceSkip(waiting, served, client);
    SubsequenceKeep(sent, served, client);
    assert Fate(served, cli0[client], cli[client], waiting, sent, silent, client);
    forall c | 0 <= c < |cli|
      ensures Fate(served + [client], cli0[c], cli'[client := []][c], waiting, sent + [client], silent, c)
    {
      assert Fate(served, cli0[c], cli[c], waiting, sent, silent, c);
    }
  }

  lemma OutcomeKept(row: seq<nat>, req: nat, cli0: seq<string>, cli: seq<string>, cli': seq<string>, waiting: seq<nat>,
                    sent: seq<nat>, client: nat, silent: bool)
    requires req < |row| && client == row[req] && client !in row[..req] && client < |cli| == |cli'|
    requires Outcome(row[..req], cli0, cli, waiting, sent, silent)
    requires forall c :: 0 <= c < |cli| ==> cli[c] <= cli'[c] && (silent ==> cli'[c] == cli[c])
    ensures Outcome(row[..req + 1], cli0, cli', waiting + if cli'[client] == [] then [] else [client], sent, silent)
  {
    var served := row[..req];
    var waiting' := waiting + if cli'[client] == [] then [] else [client];
    assert row[..req + 1] == served + [client];
    SubsequenceSkip(sent, served, client);
    SubsequenceSkip(waiting, served, client);
    SubsequenceKeep(waiting, served, client);
    assert waiting + [] == waiting;
    assert Fate(served, cli0[client], cli[client], waiting, sent, silent, client);
    forall c | 0 <= c < |cli|
      ensures Fate(served + [client], cli0[c], cli'[c], waiting', sent, silent, c)
    {
      assert Fate(served, cli0[c], cli[c], waiting, sent, silent, c);
    }
  }
}
