/**
 What a client's requests come to, in the fields of the requests themselves: which of them pass the checks, what the
 device is asked for, and that a read brings back, block by block, what the client last wrote there.
 */
module BlkReadBack {
  import opened BlkVirt
  import opened Partition
  import BlkDisk

  // ---- Which requests pass ----------------------------------------------------------------------

  /** The check of the blocks, on the numbers: in the partition, or wrapping around 2^64 to an end within it. */
  predicate BlocksPass(part: Range, block: nat, count: nat)
  {
    var first, size := part.startSector / 8, part.sectors / 8;
    || block + count <= size
    || first + block < 0x1_0000_0000_0000_0000 <= first + block + count <= 0x1_0000_0000_0000_0000 + first + size
  }

  /**
   Flushes and barriers always pass, and unknown codes never do; reads and writes do exactly if they ask for a positive
   number of blocks of the client's partition, and their pages lie in the data region (by a sum that may wrap around)
   and are aligned.
   */
  lemma AcceptsExactly(cfg: Config, c: nat, r: Request)
    requires Fits(cfg) && c < |cfg.parts| && Fits32(cfg.parts[c]) && WellTyped(r)
    ensures Accepts(cfg, c, r) <==>
      match r.code
      case FlushReq => true
      case BarrierReq => true
      case BadCode => false
      case _ =>
        && BlocksPass(cfg.parts[c], r.block, r.count) && r.count > 0
        && (r.offset + 4096 * r.count) % 0x1_0000_0000_0000_0000 <= cfg.regionSizes[c]
        && (cfg.bases[c] + r.offset) % 4096 == 0
  {
    AcceptedExactly(cfg.parts[c], r.block, r.count);
    PageOf(cfg.bases[c] + r.offset);
  }

  lemma PageOf(x: nat)
    ensures x % 0x1_0000_0000_0000_0000 % 4096 == x % 4096
  {
    var q, y := x / 0x1_0000_0000_0000_0000, x % 0x1_0000_0000_0000_0000;
    var p := y / 4096;
    assert x == 4096 * (0x10_0000_0000_0000 * q + p) + y % 4096;
  }

  // ---- How many are on their way ----------------------------------------------------------------

  /** In every run, of the virtualiser's 1024 ids each is free or on a request with the driver. */
  lemma {:induction false} IdsAddUp(cfg: Config, disk: seq<Block>, steps: seq<Step>)
    requires Fits(cfg)
    ensures var s := Run(cfg, Init(cfg, disk), steps);
            Shaped(cfg, s) && |s.idle| + |s.drvReq| + |s.busy| + |s.drvResp| == 1024
  {
    if steps != [] {
      IdsAddUp(cfg, disk, steps[..|steps| - 1]);
    }
  }

  // ---- What the device was asked for ------------------------------------------------------------

  /** The operation is what the request asks for. */
  predicate Asks(r: Request, op: Op)
  {
    || (r.code == ReadReq && op == Read(r.block, r.count))
    || (r.code == WriteReq && op == Write(r.block, r.data))
  }

  ghost predicate Issued(steps: seq<Step>, c: nat, r: Request)
  {
    exists i: nat :: i < |steps| && steps[i] == Issue(c, r)
  }

  ghost predicate EntriesIssued(steps: seq<Step>, q: seq<Entry>)
  {
    forall i :: 0 <= i < |q| ==> Issued(steps, q[i].client, q[i].req)
  }

  ghost predicate RequestsIssued(steps: seq<Step>, c: nat, q: seq<Request>)
  {
    forall i :: 0 <= i < |q| ==> Issued(steps, c, q[i])
  }

  ghost predicate AccessIssued(steps: seq<Step>, a: Access)
  {
    exists r :: Issued(steps, a.client, r) && Asks(r, a.op)
  }

  ghost predicate FromIssues(cfg: Config, steps: seq<Step>, s: State)
  {
    && Shaped(cfg, s) && EntriesIssued(steps, s.drvReq) && EntriesIssued(steps, s.busy)
    && (forall c: nat :: c < |cfg.parts| ==> RequestsIssued(steps, c, s.cliReq[c]))
    && (forall k :: 0 <= k < |s.performed| ==> AccessIssued(steps, s.performed[k]))
  }

  lemma IssuedStays(steps: seq<Step>, step: Step, c: nat, r: Request)
    requires Issued(steps, c, r)
    ensures Issued(steps + [step], c, r)
  {
    var i: nat :| i < |steps| && steps[i] == Issue(c, r);
    assert (steps + [step])[i] == Issue(c, r);
  }

  /** What has been issued stays so. */
  lemma FromIssuesStays(cfg: Config, steps: seq<Step>, step: Step, s: State)
    requires FromIssues(cfg, steps, s)
    ensures FromIssues(cfg, steps + [step], s)
  {
    forall c: nat, r: Request | Issued(steps, c, r)
      ensures Issued(steps + [step], c, r)
    {
      IssuedStays(steps, step, c, r);
    }
    forall k | 0 <= k < |s.performed|
      ensures AccessIssued(steps + [step], s.performed[k])
    {
      assert AccessIssued(steps, s.performed[k]);
      var r :| Issued(steps, s.performed[k].client, r) && Asks(r, s.performed[k].op);
      assert Issued(steps + [step], s.performed[k].client, r);
    }
  }

  lemma StepFromIssues(cfg: Config, steps: seq<Step>, s: State, step: Step)
    requires FromIssues(cfg, steps, s) && (step.Issue? ==> Issued(steps, step.client, step.r))
    ensures FromIssues(cfg, steps, Next(cfg, s, step))
  {
    var s' := Next(cfg, s, step);
    if Enabled(cfg, s, step) && step.Answer? {
      var e := s.busy[step.k];
      assert Issued(steps, e.client, e.req);
      assert MovesData(e.req) ==> Asks(e.req, OpOf(e.req));
      assert MovesData(e.req) ==> AccessIssued(steps, Access(e.client, OpOf(e.req)));
    }
    forall c: nat | c < |cfg.parts|
      ensures RequestsIssued(steps, c, s'.cliReq[c])
    {
      assert RequestsIssued(steps, c, s.cliReq[c]);
    }
  }

  /** In every run, all the device ever did was asked for: by the client it is put down to, in a request it issued. */
  lemma {:induction false} PerformedWereIssued(cfg: Config, disk: seq<Block>, steps: seq<Step>)
    requires Fits(cfg)
    ensures FromIssues(cfg, steps, Run(cfg, Init(cfg, disk), steps))
    ensures var performed := Run(cfg, Init(cfg, disk), steps).performed;
            forall k :: 0 <= k < |performed| ==> AccessIssued(steps, performed[k])
  {
    if steps != [] {
      var init, last := steps[..|steps| - 1], steps[|steps| - 1];
      PerformedWereIssued(cfg, disk, init);
      assert steps == init + [last];
      FromIssuesStays(cfg, init, last, Run(cfg, Init(cfg, disk), init));
      StepFromIssues(cfg, steps, Run(cfg, Init(cfg, disk), init), last);
    }
  }

  // ---- Reads bring back what was written ----------------------------------------------------------

  /** A write of client c, whose partition has so many blocks, that covers its block b. */
  predicate Covers(a: Access, c: nat, size: nat, b: nat)
  {
    a.client == c && a.op.Write? && a.op.block <= b < a.op.block + |a.op.data| <= size
  }

  /** None of the accesses from number `from` on does. */
  predicate Untouched(accesses: seq<Access>, from: nat, c: nat, size: nat, b: nat)
  {
    forall m :: from <= m < |accesses| ==> !Covers(accesses[m], c, size, b)
  }

  /** A block is what the client's last write to it put there, or else what it was. */
  ghost predicate IsLatest(accesses: seq<Access>, c: nat, size: nat, b: nat, initially: Block, block: Block)
  {
    && (Untouched(accesses, 0, c, size, b) ==> block == initially)
    && forall k: nat :: k < |accesses| && Covers(accesses[k], c, size, b) && Untouched(accesses, k + 1, c, size, b) ==>
                          block == accesses[k].op.data[b - accesses[k].op.block]
  }

  lemma {:induction false} LatestBlock(v: seq<Block>, accesses: seq<Access>, c: nat, b: nat)
    requires b < |v|
    ensures |PerformPrivate(v, Own(accesses, c))| == |v|
    ensures IsLatest(accesses, c, |v|, b, v[b], PerformPrivate(v, Own(accesses, c))[b])
  {
    if accesses != [] {
      var n := |accesses| - 1;
      var init, last := accesses[..n], accesses[n];
      LatestBlock(v, init, c, b);
      OwnPush(v, init, last, c);
      assert accesses == init + [last];
      LatestPush(v, init, last, c, b);
    }
  }

  lemma OwnPush(v: seq<Block>, init: seq<Access>, last: Access, c: nat)
    ensures PerformPrivate(v, Own(init + [last], c)) ==
            if last.client == c then Private(PerformPrivate(v, Own(init, c)), last.op).disk
            else PerformPrivate(v, Own(init, c))
  {
    assert (init + [last])[..|init|] == init;
    if last.client == c {
      var ops := Own(init, c);
      assert (ops + [last.op])[..|ops|] == ops;
    } else {
      assert Own(init, c) + [] == Own(init, c);
    }
  }

  lemma LatestKept(init: seq<Access>, last: Access, c: nat, size: nat, b: nat, initially: Block, block: Block)
    requires IsLatest(init, c, size, b, initially, block) && !Covers(last, c, size, b)
    ensures IsLatest(init + [last], c, size, b, initially, block)
  {
    var accesses := init + [last];
    assert forall m :: 0 <= m < |init| ==> init[m] == accesses[m];
    assert forall from: nat :: Untouched(accesses, from, c, size, b) ==> Untouched(init, from, c, size, b);
  }

  lemma LatestWritten(init: seq<Access>, last: Access, c: nat, size: nat, b: nat, initially: Block)
    requires Covers(last, c, size, b)
    ensures IsLatest(init + [last], c, size, b, initially, last.op.data[b - last.op.block])
  {
    var accesses := init + [last];
    assert accesses[|init|] == last;
    assert forall from: nat :: from <= |init| ==> !Untouched(accesses, from, c, size, b);
  }

  lemma LatestPush(v: seq<Block>, init: seq<Access>, last: Access, c: nat, b: nat)
    requires b < |v| == |PerformPrivate(v, Own(init, c))|
    requires IsLatest(init, c, |v|, b, v[b], PerformPrivate(v, Own(init, c))[b])
    ensures var w := PerformPrivate(v, Own(init + [last], c));
            |w| == |v| && IsLatest(init + [last], c, |v|, b, v[b], w[b])
  {
    OwnPush(v, init, last, c);
    if Covers(last, c, |v|, b) {
      LatestWritten(init, last, c, |v|, b, v[b]);
    } else {
      LatestKept(init, last, c, |v|, b, v[b], PerformPrivate(v, Own(init, c))[b]);
    }
  }

  /**
   What a read of so many blocks yields on a disk that was v before the accesses: an error exactly if it reaches beyond
   the disk's end, and otherwise that many blocks, each the latest.
   */
  ghost predicate ReadsBack(v: seq<Block>, accesses: seq<Access>, c: nat, block: nat, count: nat,
                            result: Option<seq<Block>>)
  {
    && (result.Some? <==> block + count <= |v|)
    && (result.Some? ==> |result.value| == count)
    && (result.Some? ==> forall j: nat :: j < count ==>
                           IsLatest(accesses, c, |v|, block + j, v[block + j], result.value[j]))
  }

  lemma PrivateRead(v: seq<Block>, accesses: seq<Access>, c: nat, block: nat, count: nat)
    requires count > 0
    ensures ReadsBack(v, accesses, c, block, count,
                      Private(PerformPrivate(v, Own(accesses, c)), Read(block, count)).result)
  {
    PrivateSize(v, Own(accesses, c));
    if block + count <= |v| {
      var blocks := PerformPrivate(v, Own(accesses, c))[block..block + count];
      forall j: nat | j < count
        ensures IsLatest(accesses, c, |v|, block + j, v[block + j], blocks[j])
      {
        LatestBlock(v, accesses, c, block + j);
      }
    }
  }

  /**
   In every run, on partitions that do not overlap: a read that was not refused yields an error exactly if it reaches
   beyond the client's partition, and otherwise as many blocks as it asked for; each of them is what the last of the
   client's own writes covering it, before the read, put there, or what the disk held at the start.
   */
  lemma ReadsLatestWrites(cfg: Config, disk: seq<Block>, steps: seq<Step>, c: nat, i: nat)
    requires Fits(cfg) && Partitioned(disk, cfg.parts) && c < |cfg.parts|
    ensures var s, part := Run(cfg, Init(cfg, disk), steps), cfg.parts[c];
            var first, size := part.startSector / 8, part.sectors / 8;
            && Shaped(cfg, s) && first + size <= |disk|
            && (i < |s.cliResp[c]| && s.cliResp[c][i].req.code == ReadReq && s.cliResp[c][i].reply != Refused ==>
                  var req, reply := s.cliResp[c][i].req, s.cliResp[c][i].reply;
                  && reply.Done? && reply.at < |s.performed|
                  && ReadsBack(disk[first..first + size], s.performed[..reply.at], c, req.block, req.count,
                               reply.result))
  {
    BlkDisk.ResponsesArePrivate(cfg, disk, steps, c, i);
    var s, part := Run(cfg, Init(cfg, disk), steps), cfg.parts[c];
    assert OnDisk(disk, part);
    if i < |s.cliResp[c]| && s.cliResp[c][i].req.code == ReadReq && s.cliResp[c][i].reply != Refused {
      var req, reply := s.cliResp[c][i].req, s.cliResp[c][i].reply;
      AcceptsCounts(cfg, c, req);
      PrivateRead(View(disk, part), s.performed[..reply.at], c, req.block, req.count);
    }
  }

  lemma AcceptsCounts(cfg: Config, c: nat, r: Request)
    requires Fits(cfg) && c < |cfg.parts| && Accepts(cfg, c, r) && MovesData(r)
    ensures r.count > 0
  {
  }

  lemma {:induction false} PrivateSize(v: seq<Block>, ops: seq<Op>)
    ensures |PerformPrivate(v, ops)| == |v|
  {
    if ops != [] {
      PrivateSize(v, ops[..|ops| - 1]);
    }
  }
}
