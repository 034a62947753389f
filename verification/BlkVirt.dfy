/**
 The block virtualiser (blk/components/virt.c): requests of all clients go to one driver under ids of the virtualiser's
 own; the driver carries them out and answers in any order, and each answer must reach the client that asked, under the
 client's own id. Requests carry what they ask for, and answers what came of it, so that the two ends can be compared.
 */
module BlkVirt {
  import opened Partition
  import opened Sequences

  const IDS: nat := 1024             // DRIVER_MAX_NUM_BUFFERS

  datatype Code = ReadReq | WriteReq | FlushReq | BarrierReq | BadCode

  /** data is what the client's buffer holds, for a write. */
  datatype Request = Request(id: nat, code: Code, offset: nat, block: nat, count: nat, data: seq<Block>)

  /**
   What came of a request: nothing yet; refused by the virtualiser; or done by the device, with the blocks read, if any,
   or an error, as operation number `at` of all it did.
   */
  datatype Reply = NotYet | Refused | Done(result: Option<seq<Block>>, at: nat)

  /** A request in the driver's hands, under the virtualiser's id, with whose it is. */
  datatype Entry = Entry(id: nat, client: nat, req: Request, reply: Reply)

  /** A response in a client's queue: the id it is filed under, and the request it answers. */
  datatype Resp = Resp(id: nat, req: Request, reply: Reply)

  /** What is bookkept for an id. */
  datatype Bk = Bk(client: nat, reqId: nat)

  /** limits: how many requests each client lets be on their way at a time, its responses not taken among them. */
  datatype Config = Config(parts: seq<Range>, regionSizes: seq<nat>, bases: seq<nat>, respCaps: seq<nat>, drvCap: nat,
                           limits: seq<nat>)

  predicate Fits(cfg: Config)
  {
    |cfg.parts| == |cfg.regionSizes| == |cfg.bases| == |cfg.respCaps| == |cfg.limits|
  }

  /** The request's numbers have the widths of the queue's fields, and a write comes with its data. */
  predicate WellTyped(r: Request)
  {
    r.block < MODULUS && r.count < 0x1_0000 && (r.code == WriteReq ==> |r.data| == r.count)
  }

  /** handle_client's checks of a request. */
  predicate Accepts(cfg: Config, client: nat, r: Request)
    requires Fits(cfg) && client < |cfg.parts|
  {
    match r.code
    case FlushReq => true
    case BarrierReq => true
    case BadCode => false
    case _ =>
      && DriverBlock(cfg.parts[client], r.block, r.count).Some?
      && DataFits(r.offset, r.count, cfg.regionSizes[client])
      && r.count != 0
      && (cfg.bases[client] + r.offset) % MODULUS % TRANSFER_SIZE == 0
  }

  predicate MovesData(r: Request)
  {
    r.code == ReadReq || r.code == WriteReq
  }

  /** The operation a request asks for. */
  function OpOf(r: Request): Op
    requires MovesData(r)
  {
    if r.code == ReadReq then Read(r.block, r.count) else Write(r.block, r.data)
  }

  /**
   cliReq, cliResp: the clients' queues. drvReq, busy, drvResp: requests queued for the driver, being worked on, and
   answered. idle: free ids, in the order they will be used. outstanding: the requests each client waits for. disk: the
   device's blocks, and performed: the operations that made them what they are.
   */
  datatype State = State(cliReq: seq<seq<Request>>, cliResp: seq<seq<Resp>>,
                         drvReq: seq<Entry>, busy: seq<Entry>, drvResp: seq<Entry>,
                         idle: seq<nat>, bk: seq<Bk>, outstanding: seq<multiset<Request>>,
                         disk: seq<Block>, performed: seq<Access>)

  datatype Step =
    | Issue(client: nat, r: Request)     // a client makes a request
    | Collect(client: nat)               // and takes a response
    | Forward(client: nat)               // one round of handle_client's loop
    | Start                              // the driver takes a request
    | Answer(k: nat)                     // carries out one it has taken, in any order, and answers it
    | Deliver                            // one round of handle_driver's loop

  predicate IsVirtStep(step: Step)
  {
    step.Forward? || step.Deliver?
  }

  predicate Shaped(cfg: Config, s: State)
  {
    && Fits(cfg) && |s.cliReq| == |s.cliResp| == |s.outstanding| == |cfg.parts| && |s.bk| == IDS
  }

  predicate Enabled(cfg: Config, s: State, step: Step)
    requires Shaped(cfg, s)
  {
    match step
    case Issue(c, r) => c < |cfg.parts| && |s.outstanding[c]| < cfg.limits[c] && WellTyped(r)
    case Collect(c) => c < |cfg.parts| && s.cliResp[c] != []
    case Forward(c) => c < |cfg.parts| && s.cliReq[c] != [] && |s.drvReq| < cfg.drvCap && s.idle != []
    case Start => s.drvReq != []
    case Answer(k) => k < |s.busy| && s.busy[k].client < |cfg.parts|
    case Deliver => s.drvResp != []
  }

  /** One round of handle_client: accepted requests go on under a new id, others are answered at once. */
  function ForwardOne(cfg: Config, s: State, c: nat): State
    requires Shaped(cfg, s) && Enabled(cfg, s, Forward(c))
  {
    var r := s.cliReq[c][0];
    var ok := Accepts(cfg, c, r);
    s.(cliReq := s.cliReq[c := s.cliReq[c][1..]],
       cliResp := if ok then s.cliResp else s.cliResp[c := s.cliResp[c] + [Resp(r.id, r, Refused)]],
       idle := if ok then s.idle[1..] else s.idle,
       bk := if ok && s.idle[0] < |s.bk| then s.bk[s.idle[0] := Bk(c, r.id)] else s.bk,
       drvReq := if ok then s.drvReq + [Entry(s.idle[0], c, r, NotYet)] else s.drvReq)
  }

  /** One round of handle_driver: what is bookkept for the id says where the answer goes, and under which id. */
  function DeliverOne(cfg: Config, s: State): State
    requires Shaped(cfg, s) && s.drvResp != []
  {
    var e := s.drvResp[0];
    var b := if e.id < |s.bk| then s.bk[e.id] else Bk(|s.cliResp|, 0);
    s.(drvResp := s.drvResp[1..],
       idle := s.idle + [e.id],
       cliResp := if b.client < |s.cliResp|
                  then s.cliResp[b.client := s.cliResp[b.client] + [Resp(b.reqId, e.req, e.reply)]]
                  else s.cliResp)
  }

  function StartOne(s: State): State
    requires s.drvReq != []
  {
    s.(drvReq := s.drvReq[1..], busy := s.busy + [s.drvReq[0]])
  }

  /** What the device makes of a request: reads and writes go to the blocks the virtualiser computed for them. */
  function Replied(cfg: Config, s: State, e: Entry): Entry
    requires Fits(cfg) && e.client < |cfg.parts|
  {
    e.(reply := Done(if MovesData(e.req) then Shared(s.disk, cfg.parts[e.client], OpOf(e.req)).result else Some([]),
                     |s.performed|))
  }

  function AnswerOne(cfg: Config, s: State, k: nat): State
    requires Fits(cfg) && k < |s.busy| && s.busy[k].client < |cfg.parts|
  {
    var e := s.busy[k];
    s.(busy := Drop(s.busy, k), drvResp := s.drvResp + [Replied(cfg, s, e)],
       disk := if MovesData(e.req) then Shared(s.disk, cfg.parts[e.client], OpOf(e.req)).disk else s.disk,
       performed := if MovesData(e.req) then s.performed + [Access(e.client, OpOf(e.req))] else s.performed)
  }

  function IssueOne(s: State, c: nat, r: Request): State
    requires c < |s.cliReq| == |s.outstanding|
  {
    s.(cliReq := s.cliReq[c := s.cliReq[c] + [r]], outstanding := s.outstanding[c := s.outstanding[c] + multiset{r}])
  }

  function CollectOne(s: State, c: nat): State
    requires c < |s.cliResp| == |s.outstanding| && s.cliResp[c] != []
  {
    s.(cliResp := s.cliResp[c := s.cliResp[c][1..]],
       outstanding := s.outstanding[c := s.outstanding[c] - multiset{s.cliResp[c][0].req}])
  }

  function Apply(cfg: Config, s: State, step: Step): State
    requires Shaped(cfg, s) && Enabled(cfg, s, step)
  {
    match step
    case Issue(c, r) => IssueOne(s, c, r)
    case Collect(c) => CollectOne(s, c)
    case Forward(c) => ForwardOne(cfg, s, c)
    case Start => StartOne(s)
    case Answer(k) => AnswerOne(cfg, s, k)
    case Deliver => DeliverOne(cfg, s)
  }

  /** A step, if it can be taken. */
  function Next(cfg: Config, s: State, step: Step): State
  {
    if Shaped(cfg, s) && Enabled(cfg, s, step) then Apply(cfg, s, step) else s
  }

  function Run(cfg: Config, s: State, steps: seq<Step>): State
  {
    if steps == [] then s else Next(cfg, Run(cfg, s, steps[..|steps| - 1]), steps[|steps| - 1])
  }

  lemma {:induction false} RunAppend(cfg: Config, s: State, a: seq<Step>, b: seq<Step>)
    ensures Run(cfg, s, a + b) == Run(cfg, Run(cfg, s, a), b)
  {
    if b == [] {
      assert a + b == a;
    } else {
      RunAppend(cfg, s, a, b[..|b| - 1]);
      assert (a + b)[..|a + b| - 1] == a + b[..|b| - 1];
    }
  }

  /** The assertions of the two handlers at this step. */
  predicate AssertsHold(cfg: Config, s: State, step: Step)
    requires Shaped(cfg, s) && Enabled(cfg, s, step)
  {
    match step
    case Forward(c) =>
      s.idle[0] < IDS && (!Accepts(cfg, c, s.cliReq[c][0]) ==> |s.cliResp[c]| < cfg.respCaps[c])
    case Deliver =>
      var id := s.drvResp[0].id;
      && id < IDS && id !in s.idle
      && s.bk[id].client < |cfg.parts| && |s.cliResp[s.bk[id].client]| < cfg.respCaps[s.bk[id].client]
    case _ => true
  }

  // ---- What is conserved ---------------------------------------------------------------------------------

  function Ids(q: seq<Entry>): (r: seq<nat>)
    ensures |r| == |q| && forall i :: 0 <= i < |q| ==> r[i] == q[i].id
  {
    seq(|q|, i requires 0 <= i < |q| => q[i].id)
  }

  /** The requests these responses answer. */
  function Answered(q: seq<Resp>): (r: seq<Request>)
    ensures |r| == |q| && forall i :: 0 <= i < |q| ==> r[i] == q[i].req
  {
    seq(|q|, i requires 0 <= i < |q| => q[i].req)
  }

  /** A client's requests among these. */
  function Of(q: seq<Entry>, c: nat): multiset<Request>
  {
    if q == [] then multiset{} else Of(q[..|q| - 1], c) + Mine(q[|q| - 1], c)
  }

  function Mine(e: Entry, c: nat): multiset<Request>
  {
    if e.client == c then multiset{e.req} else multiset{}
  }

  /** How often an id is idle or names a request with the driver. */
  function Uses(s: State, id: nat): nat
  {
    Tally(s.idle, id) + Tally(Ids(s.drvReq), id) + Tally(Ids(s.busy), id) + Tally(Ids(s.drvResp), id)
  }

  /** A client's requests, wherever they are with the driver. */
  function WithDriver(s: State, c: nat): multiset<Request>
  {
    Of(s.drvReq, c) + Of(s.busy, c) + Of(s.drvResp, c)
  }

  /** What is bookkept for the id of every request with the driver is that request. */
  predicate Recorded(bk: seq<Bk>, n: nat, q: seq<Entry>)
  {
    forall i :: 0 <= i < |q| ==> q[i].id < |bk| && q[i].client < n && bk[q[i].id] == Bk(q[i].client, q[i].req.id)
  }

  ghost predicate IdsOnce(s: State)
  {
    forall id: nat :: Uses(s, id) == if id < IDS then 1 else 0
  }

  /** Each client's requests are on their way exactly as often as the client waits for them. */
  predicate Balanced(s: State, c: nat)
    requires c < |s.cliReq| == |s.cliResp| == |s.outstanding|
  {
    multiset(s.cliReq[c]) + multiset(Answered(s.cliResp[c])) + WithDriver(s, c) == s.outstanding[c]
  }

  ghost predicate Inv(cfg: Config, s: State)
  {
    && Shaped(cfg, s) && IdsOnce(s)
    && Recorded(s.bk, |cfg.parts|, s.drvReq) && Recorded(s.bk, |cfg.parts|, s.busy)
         && Recorded(s.bk, |cfg.parts|, s.drvResp)
    && (forall c :: 0 <= c < |cfg.parts| ==> |s.outstanding[c]| <= cfg.limits[c])
    && forall c: nat :: c < |cfg.parts| ==> Balanced(s, c)
  }

  lemma SumAssociates<T>(a: multiset<T>, b: multiset<T>, c: multiset<T>)
    ensures (a + b) + c == a + (b + c)
  {
  }

  // ---- Lists of entries -----------------------------------------------------------------------------------

  lemma OfPush(q: seq<Entry>, e: Entry, c: nat)
    ensures Of(q + [e], c) == Of(q, c) + Mine(e, c) && Ids(q + [e]) == Ids(q) + [e.id]
  {
    assert (q + [e])[..|q|] == q;
  }

  lemma {:induction false} OfAppend(a: seq<Entry>, b: seq<Entry>, c: nat)
    ensures Of(a + b, c) == Of(a, c) + Of(b, c)
  {
    if b == [] {
      assert a + b == a;
    } else {
      var init, e := b[..|b| - 1], b[|b| - 1];
      OfAppend(a, init, c);
      assert Of(a + b, c) == Of(a + init, c) + Mine(e, c) by {
        assert b == init + [e];
        AppendAssociates(a, init, [e]);
        OfPush(a + init, e, c);
      }
      assert Of(b, c) == Of(init, c) + Mine(e, c);
      SumAssociates(Of(a, c), Of(init, c), Mine(e, c));
    }
  }

  /** One entry less, wherever in the list. */
  lemma OfDrop(q: seq<Entry>, k: nat, c: nat)
    requires k < |q|
    ensures Of(q, c) == Of(Drop(q, k), c) + Mine(q[k], c)
  {
    assert q == (q[..k] + [q[k]]) + q[k + 1..];
    OfAppend(q[..k] + [q[k]], q[k + 1..], c);
    OfPush(q[..k], q[k], c);
    OfAppend(q[..k], q[k + 1..], c);
  }

  lemma IdsDrop(q: seq<Entry>, k: nat)
    requires k < |q|
    ensures forall id: nat :: Tally(Ids(q), id) == Tally(Ids(Drop(q, k)), id) + if q[k].id == id then 1 else 0
  {
    TallyDrop(Ids(q), k);
    assert Ids(Drop(q, k)) == Drop(Ids(q), k);
  }

  lemma AnsweredPush(q: seq<Resp>, r: Resp)
    ensures multiset(Answered(q + [r])) == multiset(Answered(q)) + multiset{r.req}
  {
    assert Answered(q + [r]) == Answered(q) + [r.req];
  }

  lemma AnsweredPop(q: seq<Resp>)
    requires q != []
    ensures multiset(Answered(q)) == multiset(Answered(q[1..])) + multiset{q[0].req}
  {
    assert Answered(q) == [q[0].req] + Answered(q[1..]);
  }

  lemma QueuePop(q: seq<Request>)
    requires q != []
    ensures multiset(q) == multiset(q[1..]) + multiset{q[0]}
  {
    assert q == [q[0]] + q[1..];
  }

  // ---- Steps ------------------------------------------------------------------------------------------------

  lemma SameIds(s: State, s': State)
    requires IdsOnce(s) && forall id: nat :: Uses(s', id) == Uses(s, id)
    ensures IdsOnce(s')
  {
    forall id: nat
      ensures Uses(s', id) == if id < IDS then 1 else 0
    {
      assert Uses(s, id) == if id < IDS then 1 else 0;
    }
  }

  /** An entry moves from one list to another; what is noted on it may change. */
  lemma MoveEntry(a: seq<Entry>, k: nat, b: seq<Entry>, e: Entry)
    requires k < |a| && e.id == a[k].id && e.client == a[k].client && e.req == a[k].req
    ensures forall id: nat :: Tally(Ids(Drop(a, k)), id) + Tally(Ids(b + [e]), id)
              == Tally(Ids(a), id) + Tally(Ids(b), id)
    ensures forall c: nat :: Of(Drop(a, k), c) + Of(b + [e], c) == Of(a, c) + Of(b, c)
  {
    IdsDrop(a, k);
    OfPush(b, e, 0);
    TallyPush(Ids(b), e.id);
    forall c: nat
      ensures Of(Drop(a, k), c) + Of(b + [e], c) == Of(a, c) + Of(b, c)
    {
      OfDrop(a, k, c);
      OfPush(b, e, c);
      assert Mine(e, c) == Mine(a[k], c);
    }
  }

  lemma StartKeeps(cfg: Config, s: State)
    requires Inv(cfg, s) && s.drvReq != []
    ensures Inv(cfg, StartOne(s))
  {
    var s' := StartOne(s);
    DropFirst(s.drvReq);
    MoveEntry(s.drvReq, 0, s.busy, s.drvReq[0]);
    SameIds(s, s');
    forall c: nat | c < |cfg.parts|
      ensures Balanced(s', c)
    {
      assert Balanced(s, c) && WithDriver(s', c) == WithDriver(s, c);
    }
  }

  lemma AnswerMoves(cfg: Config, s: State, k: nat, c: nat)
    requires Fits(cfg) && k < |s.busy| && s.busy[k].client < |cfg.parts|
    ensures WithDriver(AnswerOne(cfg, s, k), c) == WithDriver(s, c)
  {
    var e := Replied(cfg, s, s.busy[k]);
    MoveEntry(s.busy, k, s.drvResp, e);
    SumAssociates(Of(s.drvReq, c), Of(Drop(s.busy, k), c), Of(s.drvResp + [e], c));
    SumAssociates(Of(s.drvReq, c), Of(s.busy, c), Of(s.drvResp, c));
  }

  lemma AnswerKeeps(cfg: Config, s: State, k: nat)
    requires Inv(cfg, s) && Enabled(cfg, s, Answer(k))
    ensures Inv(cfg, AnswerOne(cfg, s, k))
  {
    var s' := AnswerOne(cfg, s, k);
    MoveEntry(s.busy, k, s.drvResp, Replied(cfg, s, s.busy[k]));
    SameIds(s, s');
    forall c: nat | c < |cfg.parts|
      ensures Balanced(s', c)
    {
      assert Balanced(s, c);
      AnswerMoves(cfg, s, k, c);
    }
  }

  lemma IssueBalanced(s: State, i: nat, r: Request, c: nat)
    requires |s.cliReq| == |s.cliResp| == |s.outstanding| && i < |s.cliReq| && c < |s.cliReq| && Balanced(s, c)
    ensures Balanced(IssueOne(s, i, r), c)
  {
    assert WithDriver(IssueOne(s, i, r), c) == WithDriver(s, c);
    if c == i {
      OneMore(multiset(s.cliReq[c]), multiset(Answered(s.cliResp[c])), WithDriver(s, c), r);
      assert multiset(s.cliReq[c] + [r]) == multiset(s.cliReq[c]) + multiset{r};
    }
  }

  lemma OneMore<T>(a: multiset<T>, b: multiset<T>, c: multiset<T>, x: T)
    ensures (a + multiset{x}) + b + c == (a + b + c) + multiset{x}
  {
  }

  lemma IssueKeeps(cfg: Config, s: State, i: nat, r: Request)
    requires Inv(cfg, s) && Enabled(cfg, s, Issue(i, r))
    ensures Inv(cfg, IssueOne(s, i, r))
  {
    var s' := IssueOne(s, i, r);
    SameIds(s, s');
    forall c: nat | c < |cfg.parts|
      ensures Balanced(s', c)
    {
      IssueBalanced(s, i, r, c);
    }
  }

  lemma OneLess<T>(a: multiset<T>, b: multiset<T>, x: T, c: multiset<T>)
    ensures (a + (b + multiset{x}) + c) - multiset{x} == a + b + c
  {
  }

  lemma CollectBalanced(s: State, i: nat, c: nat)
    requires |s.cliReq| == |s.cliResp| == |s.outstanding| && i < |s.cliResp| && c < |s.cliReq|
    requires s.cliResp[i] != [] && Balanced(s, c)
    ensures Balanced(CollectOne(s, i), c)
  {
    var s' := CollectOne(s, i);
    assert WithDriver(s', c) == WithDriver(s, c);
    if c == i {
      AnsweredPop(s.cliResp[i]);
      OneLess(multiset(s.cliReq[c]), multiset(Answered(s.cliResp[i][1..])), s.cliResp[i][0].req, WithDriver(s, c));
    }
  }

  lemma CollectKeeps(cfg: Config, s: State, i: nat)
    requires Inv(cfg, s) && Enabled(cfg, s, Collect(i))
    ensures Inv(cfg, CollectOne(s, i))
  {
    var s' := CollectOne(s, i);
    SameIds(s, s');
    forall c: nat | c < |cfg.parts|
      ensures Balanced(s', c)
    {
      CollectBalanced(s, i, c);
    }
  }

  lemma IdleInRange(s: State, k: nat)
    requires IdsOnce(s) && k < |s.idle|
    ensures s.idle[k] < IDS
  {
    assert s.idle[k] in multiset(s.idle);
    assert Uses(s, s.idle[k]) > 0;
  }

  lemma InIds(q: seq<Entry>, i: nat)
    requires i < |q|
    ensures Tally(Ids(q), q[i].id) > 0
  {
    assert Ids(q)[i] in multiset(Ids(q));
  }

  /** Bookkeeping under an idle id leaves what is recorded for the others. */
  lemma StillRecorded(s: State, bk: seq<Bk>, n: nat, q: seq<Entry>)
    requires IdsOnce(s) && s.idle != [] && Recorded(s.bk, n, q) && (q == s.drvReq || q == s.busy || q == s.drvResp)
    requires |bk| == |s.bk| && forall id: nat :: id < |bk| && id != s.idle[0] ==> bk[id] == s.bk[id]
    ensures Recorded(bk, n, q)
  {
    forall i | 0 <= i < |q|
      ensures q[i].id != s.idle[0]
    {
      InIds(q, i);
      assert s.idle[0] in multiset(s.idle);
      assert Uses(s, s.idle[0]) <= 1;
    }
  }

  lemma ForwardIds(cfg: Config, s: State, i: nat)
    requires Shaped(cfg, s) && IdsOnce(s) && Enabled(cfg, s, Forward(i))
    ensures IdsOnce(ForwardOne(cfg, s, i))
  {
    var s', r := ForwardOne(cfg, s, i), s.cliReq[i][0];
    TallyPop(s.idle);
    OfPush(s.drvReq, Entry(s.idle[0], i, r, NotYet), 0);
    TallyPush(Ids(s.drvReq), s.idle[0]);
    assert forall id: nat :: Uses(s', id) == Uses(s, id);
    SameIds(s, s');
  }

  lemma Moved<T>(a: multiset<T>, b: multiset<T>, c: multiset<T>, x: multiset<T>)
    ensures (a + x) + b + c == a + b + (c + x) && (a + x) + b + c == a + (b + x) + c
  {
  }

  lemma ForwardAccepted(cfg: Config, s: State, i: nat, c: nat)
    requires Shaped(cfg, s) && Enabled(cfg, s, Forward(i)) && c < |cfg.parts| && Balanced(s, c)
    requires Accepts(cfg, i, s.cliReq[i][0])
    ensures Balanced(ForwardOne(cfg, s, i), c)
  {
    var s', r := ForwardOne(cfg, s, i), s.cliReq[i][0];
    var e := Entry(s.idle[0], i, r, NotYet);
    OfPush(s.drvReq, e, c);
    assert WithDriver(s', c) == WithDriver(s, c) + Mine(e, c);
    if c == i {
      QueuePop(s.cliReq[i]);
      Moved(multiset(s'.cliReq[c]), multiset(Answered(s.cliResp[c])), WithDriver(s, c), multiset{r});
    }
  }

  lemma ForwardRefused(cfg: Config, s: State, i: nat, c: nat)
    requires Shaped(cfg, s) && Enabled(cfg, s, Forward(i)) && c < |cfg.parts| && Balanced(s, c)
    requires !Accepts(cfg, i, s.cliReq[i][0])
    ensures Balanced(ForwardOne(cfg, s, i), c)
  {
    var s', r := ForwardOne(cfg, s, i), s.cliReq[i][0];
    assert WithDriver(s', c) == WithDriver(s, c);
    if c == i {
      QueuePop(s.cliReq[i]);
      AnsweredPush(s.cliResp[i], Resp(r.id, r, Refused));
      Moved(multiset(s'.cliReq[c]), multiset(Answered(s.cliResp[c])), WithDriver(s, c), multiset{r});
    }
  }

  lemma ForwardKeeps(cfg: Config, s: State, i: nat)
    requires Inv(cfg, s) && Enabled(cfg, s, Forward(i))
    ensures s.idle[0] < IDS && Inv(cfg, ForwardOne(cfg, s, i))
  {
    IdleInRange(s, 0);
    var s' := ForwardOne(cfg, s, i);
    ForwardIds(cfg, s, i);
    StillRecorded(s, s'.bk, |cfg.parts|, s.drvReq);
    StillRecorded(s, s'.bk, |cfg.parts|, s.busy);
    StillRecorded(s, s'.bk, |cfg.parts|, s.drvResp);
    forall c: nat | c < |cfg.parts|
      ensures Balanced(s', c)
    {
      if Accepts(cfg, i, s.cliReq[i][0]) {
        ForwardAccepted(cfg, s, i, c);
      } else {
        ForwardRefused(cfg, s, i, c);
      }
    }
  }

  lemma DeliverIds(cfg: Config, s: State)
    requires Shaped(cfg, s) && IdsOnce(s) && s.drvResp != []
    ensures IdsOnce(DeliverOne(cfg, s))
  {
    var s' := DeliverOne(cfg, s);
    DropFirst(s.drvResp);
    IdsDrop(s.drvResp, 0);
    TallyPush(s.idle, s.drvResp[0].id);
    assert forall id: nat :: Uses(s', id) == Uses(s, id);
    SameIds(s, s');
  }

  lemma DeliverBalanced(cfg: Config, s: State, c: nat)
    requires Shaped(cfg, s) && s.drvResp != [] && Recorded(s.bk, |cfg.parts|, s.drvResp) && c < |cfg.parts|
             && Balanced(s, c)
    ensures Balanced(DeliverOne(cfg, s), c)
  {
    var s', e := DeliverOne(cfg, s), s.drvResp[0];
    DropFirst(s.drvResp);
    OfDrop(s.drvResp, 0, c);
    AnsweredPush(s.cliResp[e.client], Resp(e.req.id, e.req, e.reply));
    assert WithDriver(s, c) == WithDriver(s', c) + Mine(e, c);
  }

  lemma DeliverKeeps(cfg: Config, s: State)
    requires Inv(cfg, s) && s.drvResp != []
    ensures Inv(cfg, DeliverOne(cfg, s))
    ensures s.drvResp[0].id < IDS && s.bk[s.drvResp[0].id] == Bk(s.drvResp[0].client, s.drvResp[0].req.id)
  {
    DeliverIds(cfg, s);
    forall c: nat | c < |cfg.parts|
      ensures Balanced(DeliverOne(cfg, s), c)
    {
      DeliverBalanced(cfg, s, c);
    }
  }

  lemma StepKeeps(cfg: Config, s: State, step: Step)
    requires Inv(cfg, s)
    ensures Inv(cfg, Next(cfg, s, step))
  {
    if Enabled(cfg, s, step) {
      match step {
        case Issue(c, r) => IssueKeeps(cfg, s, c, r);
        case Collect(c) => CollectKeeps(cfg, s, c);
        case Forward(c) => ForwardKeeps(cfg, s, c);
        case Start => StartKeeps(cfg, s);
        case Answer(k) => AnswerKeeps(cfg, s, k);
        case Deliver => DeliverKeeps(cfg, s);
      }
    }
  }

  lemma {:induction false} RunKeeps(cfg: Config, s: State, steps: seq<Step>)
    requires Inv(cfg, s)
    ensures Inv(cfg, Run(cfg, s, steps))
  {
    if steps != [] {
      RunKeeps(cfg, s, steps[..|steps| - 1]);
      StepKeeps(cfg, Run(cfg, s, steps[..|steps| - 1]), steps[|steps| - 1]);
    }
  }

  /** The client has no more requests on their way than its response queue holds. */
  predicate Modest(cfg: Config, c: nat)
    requires Fits(cfg)
  {
    c < |cfg.parts| && cfg.limits[c] <= cfg.respCaps[c]
  }

  lemma ForwardSafe(cfg: Config, s: State, c: nat)
    requires Inv(cfg, s) && Enabled(cfg, s, Forward(c))
    ensures s.idle[0] < IDS && (Modest(cfg, c) ==> AssertsHold(cfg, s, Forward(c)))
  {
    IdleInRange(s, 0);
    assert Balanced(s, c);
  }

  lemma DeliverSafe(cfg: Config, s: State)
    requires Inv(cfg, s) && s.drvResp != []
    ensures s.drvResp[0].id < IDS && s.drvResp[0].id !in s.idle && s.drvResp[0].client < |cfg.parts|
    ensures s.bk[s.drvResp[0].id] == Bk(s.drvResp[0].client, s.drvResp[0].req.id)
    ensures Modest(cfg, s.drvResp[0].client) ==> AssertsHold(cfg, s, Deliver)
  {
    var e := s.drvResp[0];
    DeliverKeeps(cfg, s);
    assert Balanced(s, e.client);
    OfDrop(s.drvResp, 0, e.client);
    assert |Mine(e, e.client)| == 1;
    forall k | 0 <= k < |s.idle|
      ensures s.idle[k] != e.id
    {
      InIds(s.drvResp, 0);
      assert s.idle[k] in multiset(s.idle);
      assert Uses(s, e.id) <= 1;
    }
  }

  /** The client to whom a response goes at this step, if one does, is modest. */
  predicate ToModest(cfg: Config, s: State, step: Step)
    requires Shaped(cfg, s) && Enabled(cfg, s, step)
  {
    match step
    case Forward(c) => Modest(cfg, c)
    case Deliver => Modest(cfg, s.drvResp[0].client)
    case _ => true
  }

  /** No assertion of the handlers can fail, except for a client that has more requests on their way than fit. */
  lemma InvIsSafe(cfg: Config, s: State, step: Step)
    requires Inv(cfg, s) && Enabled(cfg, s, step) && ToModest(cfg, s, step)
    ensures AssertsHold(cfg, s, step)
  {
    match step {
      case Forward(c) => ForwardSafe(cfg, s, c);
      case Deliver => DeliverSafe(cfg, s);
      case _ =>
    }
  }

  function Init(cfg: Config, disk: seq<Block>): State
    requires Fits(cfg)
  {
    var n := |cfg.parts|;
    State(Fill(n, []), Fill(n, []), [], [], [], seq(IDS, i => i), Fill(IDS, Bk(0, 0)), Fill(n, multiset{}), disk, [])
  }

  lemma InitInv(cfg: Config, disk: seq<Block>)
    requires Fits(cfg)
    ensures Inv(cfg, Init(cfg, disk))
  {
    forall id: nat
      ensures Uses(Init(cfg, disk), id) == if id < IDS then 1 else 0
    {
      TallyIdentity(IDS, id);
    }
  }

  /**
   However clients, virtualiser and driver interleave, in whatever order the driver answers: no assertion fails for a
   client that keeps to what its response queue holds; and once nothing of a client's is queued or with the driver, its
   response queue answers exactly the requests it waits for, each as often as it made it.
   */
  lemma EveryRequestAnswered(cfg: Config, disk: seq<Block>, steps: seq<Step>, step: Step, c: nat)
    requires Fits(cfg) && c < |cfg.parts|
    ensures var s := Run(cfg, Init(cfg, disk), steps);
            && Inv(cfg, s) && (Enabled(cfg, s, step) && ToModest(cfg, s, step) ==> AssertsHold(cfg, s, step))
            && (s.cliReq[c] == [] && WithDriver(s, c) == multiset{} ==>
                 multiset(Answered(s.cliResp[c])) == s.outstanding[c])
  {
    InitInv(cfg, disk);
    RunKeeps(cfg, Init(cfg, disk), steps);
    var s := Run(cfg, Init(cfg, disk), steps);
    if Enabled(cfg, s, step) && ToModest(cfg, s, step) {
      InvIsSafe(cfg, s, step);
    }
    assert Balanced(s, c);
  }

  // ---- The handlers ---------------------------------------------------------------------------------------------

  /** Names the places where a proof looks into a state of the handlers. */
  predicate Probed(k: int, s: State)
  {
    true
  }

  /** The invariant, out of sight of proofs that do not need it. */
  ghost predicate Sound(cfg: Config, s: State)
  {
    && Shaped(cfg, s)
    && forall k: int {:trigger Probed(k, s)} :: Probed(k, s) ==> Inv(cfg, s)
  }

  lemma SoundMeans(cfg: Config, s: State)
    ensures Sound(cfg, s) <==> Inv(cfg, s)
  {
    assert Probed(0, s);
  }

  /** Names the places where a proof looks into a handler's run. */
  predicate Inspected(k: int, s: State, trace: seq<Step>)
  {
    true
  }

  /** The request of client c that handle_client takes at this step, if any. */
  function HandledBy(cfg: Config, s: State, step: Step, c: nat): seq<Request>
  {
    if step == Forward(c) && Shaped(cfg, s) && Enabled(cfg, s, step) then [s.cliReq[c][0]] else []
  }

  /** The requests of client c that handle_client takes in a run, in order. */
  function HandledIn(cfg: Config, s: State, steps: seq<Step>, c: nat): seq<Request>
  {
    if steps == [] then []
    else
      var init, last := steps[..|steps| - 1], steps[|steps| - 1];
      HandledIn(cfg, s, init, c) + HandledBy(cfg, Run(cfg, s, init), last, c)
  }

  /** The answer that handle_driver delivers at this step, if any. */
  function DeliveredBy(cfg: Config, s: State, step: Step): seq<Entry>
  {
    if step == Deliver && Shaped(cfg, s) && Enabled(cfg, s, step) then [s.drvResp[0]] else []
  }

  /** The answers that handle_driver delivers in a run, in order. */
  function DeliveredIn(cfg: Config, s: State, steps: seq<Step>): seq<Entry>
  {
    if steps == [] then []
    else
      var init, last := steps[..|steps| - 1], steps[|steps| - 1];
      DeliveredIn(cfg, s, init) + DeliveredBy(cfg, Run(cfg, s, init), last)
  }

  lemma CountOne(cfg: Config, s: State, a: seq<Step>, step: Step, c: nat)
    ensures Run(cfg, s, a + [step]) == Next(cfg, Run(cfg, s, a), step)
    ensures HandledIn(cfg, s, a + [step], c) == HandledIn(cfg, s, a, c) + HandledBy(cfg, Run(cfg, s, a), step, c)
    ensures DeliveredIn(cfg, s, a + [step]) == DeliveredIn(cfg, s, a) + DeliveredBy(cfg, Run(cfg, s, a), step)
  {
    assert (a + [step])[..|a|] == a;
  }

  lemma {:induction false} OthersCountNothing(cfg: Config, s: State, a: seq<Step>, b: seq<Step>, c: nat)
    requires ByOthers(b)
    ensures HandledIn(cfg, s, a + b, c) == HandledIn(cfg, s, a, c)
    ensures DeliveredIn(cfg, s, a + b) == DeliveredIn(cfg, s, a)
  {
    if b == [] {
      assert a + b == a;
    } else {
      var init, last := b[..|b| - 1], b[|b| - 1];
      OthersCountNothing(cfg, s, a, init, c);
      AppendAssociates(a, init, [last]);
      assert b == init + [last];
      CountOne(cfg, s, a + init, last, c);
    }
  }

  /** The requests client c makes in a run, in order. */
  function IssuedBy(cfg: Config, s: State, step: Step, c: nat): seq<Request>
  {
    if step.Issue? && step.client == c && Shaped(cfg, s) && Enabled(cfg, s, step) then [step.r] else []
  }

  function IssuedIn(cfg: Config, s: State, steps: seq<Step>, c: nat): seq<Request>
  {
    if steps == [] then []
    else
      var init, last := steps[..|steps| - 1], steps[|steps| - 1];
      IssuedIn(cfg, s, init, c) + IssuedBy(cfg, Run(cfg, s, init), last, c)
  }

  /** The answers the driver gives in a run, in order. */
  function RepliedBy(cfg: Config, s: State, step: Step): seq<Entry>
  {
    if step.Answer? && Shaped(cfg, s) && Enabled(cfg, s, step) then [Replied(cfg, s, s.busy[step.k])] else []
  }

  function RepliedIn(cfg: Config, s: State, steps: seq<Step>): seq<Entry>
  {
    if steps == [] then []
    else
      var init, last := steps[..|steps| - 1], steps[|steps| - 1];
      RepliedIn(cfg, s, init) + RepliedBy(cfg, Run(cfg, s, init), last)
  }

  lemma StepInOrder(cfg: Config, s: State, step: Step, c: nat)
    requires Shaped(cfg, s) && c < |cfg.parts|
    ensures var s' := Next(cfg, s, step);
            && Shaped(cfg, s')
            && s.cliReq[c] + IssuedBy(cfg, s, step, c) == HandledBy(cfg, s, step, c) + s'.cliReq[c]
            && s.drvResp + RepliedBy(cfg, s, step) == DeliveredBy(cfg, s, step) + s'.drvResp
  {
  }

  /**
   In every run, requests are taken in the order they were made, and answers delivered in the order they were given:
   what was there and what came is what was taken and what is left.
   */
  lemma {:induction false} TakenAsTheyCame(cfg: Config, s: State, steps: seq<Step>, c: nat)
    requires Shaped(cfg, s) && c < |cfg.parts|
    ensures var s' := Run(cfg, s, steps);
            && Shaped(cfg, s')
            && s.cliReq[c] + IssuedIn(cfg, s, steps, c) == HandledIn(cfg, s, steps, c) + s'.cliReq[c]
            && s.drvResp + RepliedIn(cfg, s, steps) == DeliveredIn(cfg, s, steps) + s'.drvResp
  {
    if steps != [] {
      var init, last := steps[..|steps| - 1], steps[|steps| - 1];
      TakenAsTheyCame(cfg, s, init, c);
      var now := Run(cfg, s, init);
      StepInOrder(cfg, now, last, c);
      var next := Next(cfg, now, last);
      OneMoreInOrder(s.cliReq[c], IssuedIn(cfg, s, init, c), HandledIn(cfg, s, init, c), now.cliReq[c],
                     IssuedBy(cfg, now, last, c), HandledBy(cfg, now, last, c), next.cliReq[c]);
      OneMoreInOrder(s.drvResp, RepliedIn(cfg, s, init), DeliveredIn(cfg, s, init), now.drvResp,
                     RepliedBy(cfg, now, last), DeliveredBy(cfg, now, last), next.drvResp);
    }
  }

  /** This run led from one state to the other, taking these requests of client c and delivering these answers. */
  ghost predicate Led(cfg: Config, s0: State, trace: seq<Step>, s: State, c: nat, handled: seq<Request>,
                      answers: seq<Entry>)
  {
    forall k: int {:trigger Inspected(k, s, trace)} :: Inspected(k, s, trace) ==>
        LedSo(cfg, s0, trace, s, c, handled, answers)
  }

  predicate LedSo(cfg: Config, s0: State, trace: seq<Step>, s: State, c: nat, handled: seq<Request>,
                  answers: seq<Entry>)
  {
    && s == Run(cfg, s0, trace)
    && handled == HandledIn(cfg, s0, trace, c) && answers == DeliveredIn(cfg, s0, trace)
  }

  lemma LedMeans(cfg: Config, s0: State, trace: seq<Step>, s: State, c: nat, handled: seq<Request>, answers: seq<Entry>)
    ensures Led(cfg, s0, trace, s, c, handled, answers) <==> LedSo(cfg, s0, trace, s, c, handled, answers)
  {
    assert Inspected(0, s, trace);
  }

  lemma LedFirst(cfg: Config, s: State, c: nat)
    ensures Led(cfg, s, [], s, c, [], [])
  {
    LedMeans(cfg, s, [], s, c, [], []);
  }

  predicate ByOthers(steps: seq<Step>)
  {
    forall i :: 0 <= i < |steps| ==> !IsVirtStep(steps[i])
  }

  /** All the virtualiser does is this. */
  predicate Only(steps: seq<Step>, step: Step)
  {
    forall i :: 0 <= i < |steps| && IsVirtStep(steps[i]) ==> steps[i] == step
  }

  lemma LedOwn(cfg: Config, s0: State, trace: seq<Step>, s: State, c: nat, handled: seq<Request>, answers: seq<Entry>,
               step: Step)
    requires Led(cfg, s0, trace, s, c, handled, answers) && IsVirtStep(step) && Only(trace, step)
    ensures Led(cfg, s0, trace + [step], Next(cfg, s, step), c,
              handled + HandledBy(cfg, s, step, c), answers + DeliveredBy(cfg, s, step))
    ensures Only(trace + [step], step)
  {
    LedMeans(cfg, s0, trace, s, c, handled, answers);
    CountOne(cfg, s0, trace, step, c);
    LedMeans(cfg, s0, trace + [step], Next(cfg, s, step), c,
             handled + HandledBy(cfg, s, step, c), answers + DeliveredBy(cfg, s, step));
  }

  lemma LedOthers(cfg: Config, s0: State, trace: seq<Step>, s: State, c: nat, handled: seq<Request>,
                  answers: seq<Entry>, steps: seq<Step>, step: Step)
    requires Led(cfg, s0, trace, s, c, handled, answers) && ByOthers(steps) && Only(trace, step)
    ensures Led(cfg, s0, trace + steps, Run(cfg, s, steps), c, handled, answers) && Only(trace + steps, step)
  {
    LedMeans(cfg, s0, trace, s, c, handled, answers);
    RunAppend(cfg, s0, trace, steps);
    OthersCountNothing(cfg, s0, trace, steps, c);
    LedMeans(cfg, s0, trace + steps, Run(cfg, s, steps), c, handled, answers);
  }

  /** What the handlers can rely on while others act: the queues they take from only grow at the end. */
  predicate Grew(cfg: Config, s: State, s': State)
    requires Shaped(cfg, s) && Shaped(cfg, s')
  {
    s.drvResp <= s'.drvResp && forall c: nat :: c < |cfg.parts| ==> s.cliReq[c] <= s'.cliReq[c]
  }

  lemma OtherGrows(cfg: Config, s: State, step: Step)
    requires Shaped(cfg, s) && !IsVirtStep(step)
    ensures Shaped(cfg, Next(cfg, s, step)) && Grew(cfg, s, Next(cfg, s, step))
  {
  }

  lemma {:induction false} OthersGrow(cfg: Config, s: State, steps: seq<Step>)
    requires Shaped(cfg, s) && ByOthers(steps)
    ensures Shaped(cfg, Run(cfg, s, steps)) && Grew(cfg, s, Run(cfg, s, steps))
  {
    if steps != [] {
      OthersGrow(cfg, s, steps[..|steps| - 1]);
      OtherGrows(cfg, Run(cfg, s, steps[..|steps| - 1]), steps[|steps| - 1]);
    }
  }

  /** The oldest request of client c goes on, or is refused, if its response queue has room. */
  method ForwardRequest(cfg: Config, s: State, c: nat) returns (ok: bool, s': State, toDriver: bool)
    requires Sound(cfg, s) && Enabled(cfg, s, Forward(c))
    ensures (ok <==> AssertsHold(cfg, s, Forward(c))) && (Modest(cfg, c) ==> ok)
    ensures toDriver <==> Accepts(cfg, c, s.cliReq[c][0])
    ensures ok ==> Sound(cfg, s') && s' == Next(cfg, s, Forward(c)) && s'.cliReq[c] == s.cliReq[c][1..]
    ensures !ok ==> s' == s
  {
    SoundMeans(cfg, s);
    ForwardSafe(cfg, s, c);
    ForwardKeeps(cfg, s, c);
    var r := s.cliReq[c][0];
    toDriver := Accepts(cfg, c, r);
    ok, s' := toDriver || |s.cliResp[c]| < cfg.respCaps[c], s;
    if !ok {
      return;
    }
    s' := s.(cliReq := s.cliReq[c := s.cliReq[c][1..]]);
    if toDriver {
      var id := s'.idle[0];
      s' := s'.(idle := s'.idle[1..]);
      s' := s'.(bk := s'.bk[id := Bk(c, r.id)]);
      assert |s'.drvReq| < cfg.drvCap;
      s' := s'.(drvReq := s'.drvReq + [Entry(id, c, r, NotYet)]);
    } else {
      s' := s'.(cliResp := s'.cliResp[c := s'.cliResp[c] + [Resp(r.id, r, Refused)]]);
    }
    assert s' == ForwardOne(cfg, s, c);
    SoundMeans(cfg, s');
  }

  /** The driver's oldest answer goes to the client it belongs to, under the client's id, if its queue has room. */
  method DeliverResponse(cfg: Config, s: State) returns (ok: bool, s': State, client: nat)
    requires Sound(cfg, s) && s.drvResp != []
    ensures client == s.drvResp[0].client < |cfg.parts|
    ensures (ok <==> AssertsHold(cfg, s, Deliver)) && (Modest(cfg, client) ==> ok)
    ensures ok ==> Sound(cfg, s') && s' == Next(cfg, s, Deliver) && s'.drvResp == s.drvResp[1..]
    ensures ok ==> var e := s.drvResp[0];
                   s'.cliResp == s.cliResp[client := s.cliResp[client] + [Resp(e.req.id, e.req, e.reply)]]
    ensures !ok ==> s' == s
  {
    SoundMeans(cfg, s);
    DeliverSafe(cfg, s);
    DeliverKeeps(cfg, s);
    var e := s.drvResp[0];
    var b := s.bk[e.id];
    client := b.client;
    ok, s' := |s.cliResp[client]| < cfg.respCaps[client], s;
    if !ok {
      return;
    }
    s' := s.(drvResp := s.drvResp[1..]);
    assert e.id !in s'.idle;
    s' := s'.(idle := s'.idle + [e.id]);
    s' := s'.(cliResp := s'.cliResp[client := s'.cliResp[client] + [Resp(b.reqId, e.req, e.reply)]]);
    assert s' == DeliverOne(cfg, s);
    SoundMeans(cfg, s');
  }

  method LetOthersAct(cfg: Config, s: State, steps: seq<Step>) returns (s': State)
    requires Sound(cfg, s) && ByOthers(steps)
    ensures Sound(cfg, s') && s' == Run(cfg, s, steps) && Grew(cfg, s, s')
  {
    SoundMeans(cfg, s);
    RunKeeps(cfg, s, steps);
    OthersGrow(cfg, s, steps);
    s' := Run(cfg, s, steps);
    SoundMeans(cfg, s');
  }

  /** Some of these requests of client c pass the checks; some fail them. */
  predicate AnyAccepted(cfg: Config, c: nat, rs: seq<Request>)
    requires Fits(cfg) && c < |cfg.parts|
  {
    exists i :: 0 <= i < |rs| && Accepts(cfg, c, rs[i])
  }

  predicate AnyRefused(cfg: Config, c: nat, rs: seq<Request>)
    requires Fits(cfg) && c < |cfg.parts|
  {
    exists i :: 0 <= i < |rs| && !Accepts(cfg, c, rs[i])
  }

  lemma AnyPush(cfg: Config, c: nat, rs: seq<Request>, r: Request)
    requires Fits(cfg) && c < |cfg.parts|
    ensures AnyAccepted(cfg, c, rs + [r]) <==> AnyAccepted(cfg, c, rs) || Accepts(cfg, c, r)
    ensures AnyRefused(cfg, c, rs + [r]) <==> AnyRefused(cfg, c, rs) || !Accepts(cfg, c, r)
  {
    var all := rs + [r];
    assert all[|rs|] == r;
    assert forall i :: 0 <= i < |rs| ==> all[i] == rs[i];
  }

  function ClientsOf(q: seq<Entry>): (r: set<nat>)
    ensures forall c :: c in r <==> exists k :: 0 <= k < |q| && q[k].client == c
  {
    set k | 0 <= k < |q| :: q[k].client
  }

  class Virt {
    const cfg: Config
    var s: State

    ghost predicate Valid()
      reads this
    {
      Sound(cfg, s)
    }

    constructor (config: Config, disk: seq<Block>)
      requires Fits(config)
      ensures Valid() && cfg == config && s == Init(config, disk)
    {
      cfg, s := config, Init(config, disk);
      new;
      InitInv(cfg, disk);
      SoundMeans(cfg, s);
    }

    /** One round of handle_client's loop, then others act. */
    method ForwardNext(c: nat, steps: seq<Step>, ghost s0: State, ghost trace: seq<Step>, ghost handled: seq<Request>)
      returns (ok: bool, toDriver: bool, ghost trace': seq<Step>)
      requires Valid() && Enabled(cfg, s, Forward(c)) && ByOthers(steps)
      requires Led(cfg, s0, trace, s, c, handled, []) && Only(trace, Forward(c))
      modifies this`s
      ensures Valid() && (Modest(cfg, c) ==> ok) && Only(trace', Forward(c))
      ensures !ok ==> s == old(s) && trace' == trace && !AssertsHold(cfg, s, Forward(c))
      ensures ok ==> Led(cfg, s0, trace', s, c, handled + [old(s).cliReq[c][0]], [])
      ensures ok ==> old(s).cliReq[c][1..] <= s.cliReq[c]
      ensures ok && steps == [] ==> trace' == trace + [Forward(c)] && s.cliReq[c] == old(s).cliReq[c][1..]
      ensures toDriver <==> Accepts(cfg, c, old(s).cliReq[c][0])
    {
      LedOwn(cfg, s0, trace, s, c, handled, [], Forward(c));
      ghost var r := s.cliReq[c][0];
      trace' := trace;
      ok, s, toDriver := ForwardRequest(cfg, s, c);
      if ok {
        trace' := trace + [Forward(c)];
        if steps != [] {
          LedOthers(cfg, s0, trace', s, c, handled + [r], [], steps, Forward(c));
          trace' := trace' + steps;
          s := LetOthersAct(cfg, s, steps);
        }
      }
    }

    /**
     handle_client, while others act: the client's requests, oldest first, go on or are refused, as far as ids and the
     driver's queue go. The driver is to be notified exactly if some of those taken in this run went on, the client
     exactly if some were refused. Left alone, this is a run of Forward steps and nothing else. The assertion on the
     client's response queue holds if the client is modest; otherwise `ok` says whether it did.
     */
    method HandleClient(c: nat, rounds: seq<seq<Step>>)
      returns (ok: bool, driverNotify: bool, clientNotify: bool, ghost handled: seq<Request>, ghost trace: seq<Step>)
      requires Valid() && c < |cfg.parts| && forall i :: 0 <= i < |rounds| ==> ByOthers(rounds[i])
      modifies this`s
      ensures Valid() && (Modest(cfg, c) ==> ok)
      ensures !ok ==> Enabled(cfg, s, Forward(c)) && !AssertsHold(cfg, s, Forward(c))
      ensures ok ==> s.cliReq[c] == [] || |s.drvReq| >= cfg.drvCap || s.idle == []
      ensures s == Run(cfg, old(s), trace) && Only(trace, Forward(c)) && handled == HandledIn(cfg, old(s), trace, c)
      ensures old(s).cliReq[c] <= handled + s.cliReq[c]
      ensures (driverNotify <==> AnyAccepted(cfg, c, handled)) && (clientNotify <==> AnyRefused(cfg, c, handled))
      ensures rounds == [] ==> trace == Fill(|handled|, Forward(c)) && old(s).cliReq[c] == handled + s.cliReq[c]
    {
      var round := 0;
      ok, driverNotify, clientNotify, handled, trace := true, false, false, [], [];
      LedFirst(cfg, s, c);
      while ok && s.cliReq[c] != [] && |s.drvReq| < cfg.drvCap && s.idle != []
        invariant Valid() && round <= |rounds| && (Modest(cfg, c) ==> ok)
        invariant !ok ==> Enabled(cfg, s, Forward(c)) && !AssertsHold(cfg, s, Forward(c))
        invariant Led(cfg, old(s), trace, s, c, handled, []) && Only(trace, Forward(c))
        invariant old(s).cliReq[c] <= handled + s.cliReq[c]
        invariant (driverNotify <==> AnyAccepted(cfg, c, handled)) && (clientNotify <==> AnyRefused(cfg, c, handled))
        invariant rounds == [] ==> trace == Fill(|handled|, Forward(c)) && old(s).cliReq[c] == handled + s.cliReq[c]
        decreases ok, |rounds| - round, |s.cliReq[c]|
      {
        ghost var q := s.cliReq[c];
        var toDriver;
        ok, toDriver, trace := ForwardNext(c, if round < |rounds| then rounds[round] else [], old(s), trace, handled);
        if ok {
          AnyPush(cfg, c, handled, q[0]);
          TakenInOrder(old(s).cliReq[c], handled, q, s.cliReq[c]);
          handled := handled + [q[0]];
          driverNotify, clientNotify := driverNotify || toDriver, clientNotify || !toDriver;
          round := if round < |rounds| then round + 1 else round;
        }
      }
      LedMeans(cfg, old(s), trace, s, c, handled, []);
    }

    /** One round of handle_driver's loop, then others act. */
    method DeliverNext(steps: seq<Step>, ghost s0: State, ghost trace: seq<Step>, ghost answers: seq<Entry>)
      returns (ok: bool, client: nat, ghost trace': seq<Step>)
      requires Valid() && s.drvResp != [] && ByOthers(steps)
      requires Led(cfg, s0, trace, s, 0, [], answers) && Only(trace, Deliver)
      modifies this`s
      ensures Valid() && client == old(s).drvResp[0].client < |cfg.parts| && (Modest(cfg, client) ==> ok)
      ensures Only(trace', Deliver)
      ensures !ok ==> s == old(s) && trace' == trace && !AssertsHold(cfg, s, Deliver)
      ensures ok ==> Led(cfg, s0, trace', s, 0, [], answers + [old(s).drvResp[0]])
      ensures ok ==> old(s).drvResp[1..] <= s.drvResp
      ensures ok && steps == [] ==> trace' == trace + [Deliver] && s.drvResp == old(s).drvResp[1..]
    {
      LedOwn(cfg, s0, trace, s, 0, [], answers, Deliver);
      ghost var e := s.drvResp[0];
      trace' := trace;
      ok, s, client := DeliverResponse(cfg, s);
      if ok {
        trace' := trace + [Deliver];
        if steps != [] {
          LedOthers(cfg, s0, trace', s, 0, [], answers + [e], steps, Deliver);
          trace' := trace' + steps;
          s := LetOthersAct(cfg, s, steps);
        }
      }
    }

    /**
     handle_driver, while others act: all answers are delivered, in order, until none is left, and exactly the clients
     to whom answers were delivered in this run are notified. Left alone, this is a run of as many Deliver steps as
     there were answers. The assertion on the clients' response queues holds if all clients are modest.
     */
    method HandleDriver(rounds: seq<seq<Step>>)
      returns (ok: bool, notify: set<nat>, ghost answers: seq<Entry>, ghost trace: seq<Step>)
      requires Valid() && forall i :: 0 <= i < |rounds| ==> ByOthers(rounds[i])
      modifies this`s
      ensures Valid() && ((forall c: nat :: c < |cfg.parts| ==> Modest(cfg, c)) ==> ok)
      ensures !ok ==> s.drvResp != [] && !AssertsHold(cfg, s, Deliver)
      ensures s == Run(cfg, old(s), trace) && Only(trace, Deliver) && answers == DeliveredIn(cfg, old(s), trace)
      ensures notify == ClientsOf(answers) && old(s).drvResp <= answers + s.drvResp && (ok ==> s.drvResp == [])
      ensures ok && rounds == [] ==> trace == Fill(|answers|, Deliver) && answers == old(s).drvResp
    {
      var round := 0;
      ok, notify, answers, trace := true, {}, [], [];
      LedFirst(cfg, s, 0);
      while ok && s.drvResp != []
        invariant Valid() && round <= |rounds| && notify == ClientsOf(answers)
        invariant (forall c: nat :: c < |cfg.parts| ==> Modest(cfg, c)) ==> ok
        invariant !ok ==> s.drvResp != [] && !AssertsHold(cfg, s, Deliver)
        invariant Led(cfg, old(s), trace, s, 0, [], answers) && Only(trace, Deliver)
        invariant old(s).drvResp <= answers + s.drvResp
        invariant rounds == [] ==> trace == Fill(|answers|, Deliver) && old(s).drvResp == answers + s.drvResp
        decreases ok, |rounds| - round, |s.drvResp|
      {
        ghost var q := s.drvResp;
        var client;
        ok, client, trace := DeliverNext(if round < |rounds| then rounds[round] else [], old(s), trace, answers);
        if ok {
          TakenInOrder(old(s).drvResp, answers, q, s.drvResp);
          ClientsPush(answers, q[0]);
          answers, notify := answers + [q[0]], notify + {client};
          round := if round < |rounds| then round + 1 else round;
        }
      }
      assert answers + [] == answers;
      LedMeans(cfg, old(s), trace, s, 0, [], answers);
    }
  }

  /** The first of a queue is taken, and the queue may have grown at its end. */
  lemma TakenInOrder<T>(before: seq<T>, done: seq<T>, q: seq<T>, q': seq<T>)
    requires before <= done + q && q != [] && q[1..] <= q'
    ensures before <= (done + [q[0]]) + q'
    ensures before == done + q && q' == q[1..] ==> before == (done + [q[0]]) + q'
  {
    AppendMove(done, q);
    assert (done + [q[0]]) + q[1..] <= (done + [q[0]]) + q';
  }

  lemma ClientsPush(q: seq<Entry>, e: Entry)
    ensures ClientsOf(q + [e]) == ClientsOf(q) + {e.client}
  {
    var all := q + [e];
    assert all[|q|] == e;
    assert forall i :: 0 <= i < |q| ==> all[i] == q[i];
  }
}
