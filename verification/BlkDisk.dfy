/**
 What the block virtualiser's clients get to see, end to end: each response answers, under the client's own id, a
 request of that client with what the request would have yielded on a disk of the client's own.
 */
module BlkDisk {
  import opened BlkVirt
  import opened Partition
  import opened Sequences

  /** What the disk was when the device did operation number `at`. */
  function DiskAt(cfg: Config, disk: seq<Block>, performed: seq<Access>, at: nat): seq<Block>
    requires AllowedAll(cfg.parts, performed)
  {
    if at <= |performed| then Perform(disk, cfg.parts, performed[..at]) else disk
  }

  /** The reply is right for this client's request: refused if it must be, else what the device made of it. */
  ghost predicate Justified(cfg: Config, disk: seq<Block>, performed: seq<Access>, c: nat, req: Request, reply: Reply)
    requires Fits(cfg) && AllowedAll(cfg.parts, performed)
  {
    && c < |cfg.parts|
    && match reply
       case NotYet => false
       case Refused => !Accepts(cfg, c, req)
       case Done(result, at) =>
         && Accepts(cfg, c, req) && WellTyped(req)
         && if MovesData(req) then
              && at < |performed| && performed[at] == Access(c, OpOf(req))
              && result == Shared(DiskAt(cfg, disk, performed, at), cfg.parts[c], OpOf(req)).result
            else result == Some([])
  }

  /** A request on its way to the device has passed the checks. */
  predicate Admitted(cfg: Config, e: Entry)
    requires Fits(cfg)
  {
    e.client < |cfg.parts| && WellTyped(e.req) && Accepts(cfg, e.client, e.req)
  }

  predicate AllAdmitted(cfg: Config, q: seq<Entry>)
    requires Fits(cfg)
  {
    forall i :: 0 <= i < |q| ==> Admitted(cfg, q[i])
  }

  predicate AllTyped(q: seq<Request>)
  {
    forall i :: 0 <= i < |q| ==> WellTyped(q[i])
  }

  ghost predicate EntriesRight(cfg: Config, disk: seq<Block>, performed: seq<Access>, q: seq<Entry>)
    requires Fits(cfg) && AllowedAll(cfg.parts, performed)
  {
    forall i :: 0 <= i < |q| ==> Justified(cfg, disk, performed, q[i].client, q[i].req, q[i].reply)
  }

  ghost predicate ResponsesRight(cfg: Config, disk: seq<Block>, performed: seq<Access>, c: nat, q: seq<Resp>)
    requires Fits(cfg) && AllowedAll(cfg.parts, performed)
  {
    forall i :: 0 <= i < |q| ==> q[i].id == q[i].req.id && Justified(cfg, disk, performed, c, q[i].req, q[i].reply)
  }

  /** The disk is what the operations made of it, and all replies on their way are right. */
  ghost predicate Truthful(cfg: Config, disk: seq<Block>, s: State)
  {
    && Shaped(cfg, s) && AllowedAll(cfg.parts, s.performed) && s.disk == Perform(disk, cfg.parts, s.performed)
    && AllAdmitted(cfg, s.drvReq) && AllAdmitted(cfg, s.busy) && EntriesRight(cfg, disk, s.performed, s.drvResp)
    && forall c: nat :: c < |cfg.parts| ==>
         AllTyped(s.cliReq[c])
         && ResponsesRight(cfg, disk, s.performed, c, s.cliResp[c])
  }

  /** Whatever the device does later, a reply stays right. */
  lemma StillJustified(cfg: Config, disk: seq<Block>, performed: seq<Access>, more: seq<Access>, c: nat, req: Request,
                       reply: Reply)
    requires Fits(cfg) && AllowedAll(cfg.parts, performed + more)
    requires AllowedAll(cfg.parts, performed) && Justified(cfg, disk, performed, c, req, reply)
    ensures Justified(cfg, disk, performed + more, c, req, reply)
  {
    if reply.Done? && MovesData(req) {
      assert (performed + more)[..reply.at] == performed[..reply.at];
    }
  }

  lemma AllowedPush(rs: seq<Range>, accesses: seq<Access>, a: Access)
    requires AllowedAll(rs, accesses) && a.client < |rs| && Sized(a.op)
    ensures AllowedAll(rs, accesses + [a])
  {
  }

  lemma AllowedFirst(rs: seq<Range>, accesses: seq<Access>, more: seq<Access>)
    requires AllowedAll(rs, accesses + more)
    ensures AllowedAll(rs, accesses)
  {
    assert forall k :: 0 <= k < |accesses| ==> accesses[k] == (accesses + more)[k];
  }

  lemma OpSized(r: Request)
    requires WellTyped(r) && MovesData(r)
    ensures Sized(OpOf(r))
  {
  }

  lemma PerformPush(disk: seq<Block>, rs: seq<Range>, accesses: seq<Access>, a: Access)
    requires AllowedAll(rs, accesses) && AllowedAll(rs, accesses + [a])
    ensures a.client < |rs| && Perform(disk, rs, accesses + [a])
              == Shared(Perform(disk, rs, accesses), rs[a.client], a.op).disk
  {
    assert (accesses + [a])[|accesses|] == a;
    assert (accesses + [a])[..|accesses|] == accesses;
  }

  // ---- Steps ------------------------------------------------------------------------------------

  /** Replies stay right while the device does more. */
  lemma MorePerformed(cfg: Config, disk: seq<Block>, s: State, more: seq<Access>)
    requires Truthful(cfg, disk, s) && AllowedAll(cfg.parts, s.performed + more)
    ensures EntriesRight(cfg, disk, s.performed + more, s.drvResp)
    ensures forall c: nat :: c < |cfg.parts| ==> ResponsesRight(cfg, disk, s.performed + more, c, s.cliResp[c])
  {
    forall i | 0 <= i < |s.drvResp|
      ensures Justified(cfg, disk, s.performed + more, s.drvResp[i].client, s.drvResp[i].req, s.drvResp[i].reply)
    {
      StillJustified(cfg, disk, s.performed, more, s.drvResp[i].client, s.drvResp[i].req, s.drvResp[i].reply);
    }
    forall c: nat | c < |cfg.parts|
      ensures ResponsesRight(cfg, disk, s.performed + more, c, s.cliResp[c])
    {
      ResponsesStay(cfg, disk, s.performed, more, c, s.cliResp[c]);
    }
  }

  lemma ResponsesStay(cfg: Config, disk: seq<Block>, performed: seq<Access>, more: seq<Access>, c: nat, q: seq<Resp>)
    requires Fits(cfg) && AllowedAll(cfg.parts, performed) && AllowedAll(cfg.parts, performed + more)
    requires ResponsesRight(cfg, disk, performed, c, q)
    ensures ResponsesRight(cfg, disk, performed + more, c, q)
  {
    forall i | 0 <= i < |q|
      ensures Justified(cfg, disk, performed + more, c, q[i].req, q[i].reply)
    {
      StillJustified(cfg, disk, performed, more, c, q[i].req, q[i].reply);
    }
  }

  /** The device's answer is right at the moment it is given. */
  lemma ReplyJustified(cfg: Config, disk: seq<Block>, s: State, e: Entry)
    requires Truthful(cfg, disk, s) && Admitted(cfg, e)
    ensures var more := if MovesData(e.req) then [Access(e.client, OpOf(e.req))] else [];
            && AllowedAll(cfg.parts, s.performed + more)
            && Justified(cfg, disk, s.performed + more, e.client, e.req, Replied(cfg, s, e).reply)
  {
    if MovesData(e.req) {
      var a := Access(e.client, OpOf(e.req));
      OpSized(e.req);
      AllowedPush(cfg.parts, s.performed, a);
      assert (s.performed + [a])[..|s.performed|] == s.performed;
      assert (s.performed + [a])[|s.performed|] == a;
    } else {
      assert s.performed + [] == s.performed;
    }
  }

  lemma AnswerTruthful(cfg: Config, disk: seq<Block>, s: State, k: nat)
    requires Truthful(cfg, disk, s) && Enabled(cfg, s, Answer(k))
    ensures Truthful(cfg, disk, AnswerOne(cfg, s, k))
  {
    var e, s' := s.busy[k], AnswerOne(cfg, s, k);
    assert Admitted(cfg, e);
    var more := if MovesData(e.req) then [Access(e.client, OpOf(e.req))] else [];
    ReplyJustified(cfg, disk, s, e);
    MorePerformed(cfg, disk, s, more);
    assert s'.performed == s.performed + more;
    if MovesData(e.req) {
      PerformPush(disk, cfg.parts, s.performed, Access(e.client, OpOf(e.req)));
    }
    assert AllAdmitted(cfg, s'.busy);
    assert EntriesRight(cfg, disk, s'.performed, s'.drvResp);
    forall c: nat | c < |cfg.parts|
      ensures AllTyped(s'.cliReq[c]) && ResponsesRight(cfg, disk, s'.performed, c, s'.cliResp[c])
    {
      assert AllTyped(s.cliReq[c]);
    }
  }

  lemma ForwardTruthful(cfg: Config, disk: seq<Block>, s: State, i: nat)
    requires Truthful(cfg, disk, s) && Enabled(cfg, s, Forward(i))
    ensures Truthful(cfg, disk, ForwardOne(cfg, s, i))
  {
    var s', r := ForwardOne(cfg, s, i), s.cliReq[i][0];
    assert AllTyped(s.cliReq[i]) && WellTyped(r);
    forall c: nat | c < |cfg.parts|
      ensures AllTyped(s'.cliReq[c]) && ResponsesRight(cfg, disk, s'.performed, c, s'.cliResp[c])
    {
      assert AllTyped(s.cliReq[c]) && ResponsesRight(cfg, disk, s.performed, c, s.cliResp[c]);
    }
  }

  lemma DeliverTruthful(cfg: Config, disk: seq<Block>, s: State)
    requires Inv(cfg, s) && Truthful(cfg, disk, s) && s.drvResp != []
    ensures Truthful(cfg, disk, DeliverOne(cfg, s))
  {
    var s', e := DeliverOne(cfg, s), s.drvResp[0];
    DeliverKeeps(cfg, s);
    assert Justified(cfg, disk, s.performed, e.client, e.req, e.reply);
    forall c: nat | c < |cfg.parts|
      ensures AllTyped(s'.cliReq[c]) && ResponsesRight(cfg, disk, s'.performed, c, s'.cliResp[c])
    {
      assert AllTyped(s.cliReq[c]) && ResponsesRight(cfg, disk, s.performed, c, s.cliResp[c]);
    }
  }

  lemma ClientTruthful(cfg: Config, disk: seq<Block>, s: State, step: Step)
    requires Truthful(cfg, disk, s) && Enabled(cfg, s, step) && (step.Issue? || step.Collect?)
    ensures Truthful(cfg, disk, Apply(cfg, s, step))
  {
    var s' := Apply(cfg, s, step);
    forall c: nat | c < |cfg.parts|
      ensures AllTyped(s'.cliReq[c]) && ResponsesRight(cfg, disk, s'.performed, c, s'.cliResp[c])
    {
      assert AllTyped(s.cliReq[c]) && ResponsesRight(cfg, disk, s.performed, c, s.cliResp[c]);
    }
  }

  lemma StepTruthful(cfg: Config, disk: seq<Block>, s: State, step: Step)
    requires Inv(cfg, s) && Truthful(cfg, disk, s)
    ensures Truthful(cfg, disk, Next(cfg, s, step))
  {
    if Enabled(cfg, s, step) {
      match step {
        case Forward(c) => ForwardTruthful(cfg, disk, s, c);
        case Answer(k) => AnswerTruthful(cfg, disk, s, k);
        case Deliver => DeliverTruthful(cfg, disk, s);
        case Start =>
        case _ => ClientTruthful(cfg, disk, s, step);
      }
    }
  }

  lemma {:induction false} RunTruthful(cfg: Config, disk: seq<Block>, steps: seq<Step>)
    requires Fits(cfg)
    ensures Inv(cfg, Run(cfg, Init(cfg, disk), steps)) && Truthful(cfg, disk, Run(cfg, Init(cfg, disk), steps))
  {
    if steps == [] {
      InitInv(cfg, disk);
    } else {
      var init, last := steps[..|steps| - 1], steps[|steps| - 1];
      RunTruthful(cfg, disk, init);
      StepKeeps(cfg, Run(cfg, Init(cfg, disk), init), last);
      StepTruthful(cfg, disk, Run(cfg, Init(cfg, disk), init), last);
    }
  }

  // ---- The main result --------------------------------------------------------------------------

  /**
   What a client's request yields on a disk of its own, after those of its requests that were carried out before it.
   */
  function PrivateResult(cfg: Config, disk: seq<Block>, performed: seq<Access>, c: nat, req: Request,
                         at: nat): Option<seq<Block>>
    requires c < |cfg.parts| && OnDisk(disk, cfg.parts[c]) && MovesData(req) && at <= |performed|
  {
    Private(PerformPrivate(View(disk, cfg.parts[c]), Own(performed[..at], c)), OpOf(req)).result
  }

  lemma JustifiedIsPrivate(cfg: Config, disk: seq<Block>, performed: seq<Access>, c: nat, req: Request, reply: Reply)
    requires Fits(cfg) && Partitioned(disk, cfg.parts) && c < |cfg.parts| && AllowedAll(cfg.parts, performed)
    requires Justified(cfg, disk, performed, c, req, reply) && reply.Done? && MovesData(req)
    ensures reply.at < |performed| && reply.result == PrivateResult(cfg, disk, performed, c, req, reply.at)
  {
    assert performed == performed[..reply.at] + performed[reply.at..];
    AllowedFirst(cfg.parts, performed[..reply.at], performed[reply.at..]);
    OpSized(req);
    PrivateDisks(disk, cfg.parts, performed[..reply.at], c, OpOf(req));
  }

  /**
   In every run, on partitions that do not overlap: each response a client finds is filed under the id of the request it
   answers; it says Refused exactly for the requests that fail the checks; for a read or write that passes them the
   device did what the request's fields say, and the response carries what that yields on a disk of the client's own, at
   its place in the order in which the device did the client's operations. What the client's partition holds is what
   those operations make of that disk.
   */
  lemma ResponsesArePrivate(cfg: Config, disk: seq<Block>, steps: seq<Step>, c: nat, i: nat)
    requires Fits(cfg) && Partitioned(disk, cfg.parts) && c < |cfg.parts|
    ensures var s := Run(cfg, Init(cfg, disk), steps);
            && Shaped(cfg, s) && |s.disk| == |disk|
            && View(s.disk, cfg.parts[c]) == PerformPrivate(View(disk, cfg.parts[c]), Own(s.performed, c))
            && (i < |s.cliResp[c]| ==>
                  var r := s.cliResp[c][i];
                  && r.id == r.req.id && (r.reply == Refused <==> !Accepts(cfg, c, r.req))
                  && (r.reply != Refused ==> r.reply.Done?)
                  && (r.reply != Refused && r.req.code == ReadReq ==>
                        && r.reply.at < |s.performed|
                        && s.performed[r.reply.at] == Access(c, Read(r.req.block, r.req.count)))
                  && (r.reply != Refused && r.req.code == WriteReq ==>
                        && r.reply.at < |s.performed|
                        && s.performed[r.reply.at] == Access(c, Write(r.req.block, r.req.data)))
                  && (r.reply != Refused && MovesData(r.req) ==>
                        r.reply.result == PrivateResult(cfg, disk, s.performed, c, r.req, r.reply.at))
                  && (r.reply != Refused && !MovesData(r.req) ==> r.reply.result == Some([])))
  {
    RunTruthful(cfg, disk, steps);
    var s := Run(cfg, Init(cfg, disk), steps);
    PrivateDisks(disk, cfg.parts, s.performed, c, Read(0, 0));
    if i < |s.cliResp[c]| {
      assert ResponsesRight(cfg, disk, s.performed, c, s.cliResp[c]);
      var r := s.cliResp[c][i];
      if r.reply.Done? && MovesData(r.req) {
        JustifiedIsPrivate(cfg, disk, s.performed, c, r.req, r.reply);
      }
    }
  }
}
