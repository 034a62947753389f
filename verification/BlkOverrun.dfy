/**
 When the assertions on a client's response queue hold (blk/components/virt.c). The ids bound how many requests are with
 the driver, but requests that are refused take none: what bounds the responses is the client.
 */
module BlkOverrun {
  import opened BlkVirt
  import opened Partition

  /** A request that is refused whatever the configuration. */
  const BAD := Request(0, BadCode, 0, 0, 0, [])

  /** Client c has been refused k requests, and has taken none of the responses. */
  predicate Refusals(cfg: Config, s: State, c: nat, k: nat)
  {
    && Shaped(cfg, s) && c < |cfg.parts| && s.cliReq[c] == [] && |s.cliResp[c]| == k && |s.outstanding[c]| == k
    && s.drvReq == [] && s.idle != []
  }

  lemma IssueBad(cfg: Config, s: State, c: nat, k: nat)
    requires Refusals(cfg, s, c, k) && k < cfg.limits[c] && cfg.drvCap > 0
    ensures var s' := Next(cfg, s, Issue(c, BAD));
            && Shaped(cfg, s') && s'.cliReq[c] == [BAD] && |s'.cliResp[c]| == k && |s'.outstanding[c]| == k + 1
            && s'.drvReq == [] && s'.idle != [] && Enabled(cfg, s', Forward(c))
  {
  }

  lemma OneMoreRefusal(cfg: Config, s: State, c: nat, k: nat)
    requires Refusals(cfg, s, c, k) && k < cfg.limits[c] && cfg.drvCap > 0
    ensures Refusals(cfg, Next(cfg, Next(cfg, s, Issue(c, BAD)), Forward(c)), c, k + 1)
  {
    IssueBad(cfg, s, c, k);
  }

  /** A client makes k requests that are refused, and takes no response. */
  lemma {:induction false} Refused(cfg: Config, disk: seq<Block>, c: nat, k: nat) returns (steps: seq<Step>)
    requires Fits(cfg) && c < |cfg.parts| && k <= cfg.limits[c] && cfg.drvCap > 0
    ensures Refusals(cfg, Run(cfg, Init(cfg, disk), steps), c, k)
  {
    if k == 0 {
      steps := [];
    } else {
      var before := Refused(cfg, disk, c, k - 1);
      steps := before + [Issue(c, BAD)] + [Forward(c)];
      assert steps[..|before| + 1] == before + [Issue(c, BAD)] && (before + [Issue(c, BAD)])[..|before|] == before;
      OneMoreRefusal(cfg, Run(cfg, Init(cfg, disk), before), c, k - 1);
    }
  }

  /** One more, although the response queue is full, makes the assertion fail. */
  lemma Overruns(cfg: Config, disk: seq<Block>, c: nat) returns (steps: seq<Step>)
    requires Fits(cfg) && c < |cfg.parts| && cfg.respCaps[c] < cfg.limits[c] && cfg.drvCap > 0
    ensures var s := Run(cfg, Init(cfg, disk), steps);
            Shaped(cfg, s) && Enabled(cfg, s, Forward(c)) && !AssertsHold(cfg, s, Forward(c))
  {
    var before := Refused(cfg, disk, c, cfg.respCaps[c]);
    steps := before + [Issue(c, BAD)];
    assert steps[..|before|] == before;
    IssueBad(cfg, Run(cfg, Init(cfg, disk), before), c, cfg.respCaps[c]);
  }

  /** This step, if it can be taken, gives client c a response, and meets its assertions. */
  predicate SafeFor(cfg: Config, s: State, c: nat)
    requires Shaped(cfg, s)
  {
    && (Enabled(cfg, s, Forward(c)) ==> AssertsHold(cfg, s, Forward(c)))
    && (s.drvResp != [] && s.drvResp[0].client == c ==> AssertsHold(cfg, s, Deliver))
  }

  /** The assertions on client c's response queue hold in every run. */
  ghost predicate NeverOverruns(cfg: Config, disk: seq<Block>, c: nat)
    requires Fits(cfg)
  {
    forall steps: seq<Step> ::
      var s := Run(cfg, Init(cfg, disk), steps); Shaped(cfg, s) && SafeFor(cfg, s, c)
  }

  /** That is so exactly if the client lets no more requests be on their way than its response queue holds. */
  lemma OutstandingExactly(cfg: Config, disk: seq<Block>, c: nat)
    requires Fits(cfg) && c < |cfg.parts| && cfg.drvCap > 0
    ensures NeverOverruns(cfg, disk, c) <==> cfg.limits[c] <= cfg.respCaps[c]
  {
    if cfg.limits[c] <= cfg.respCaps[c] {
      forall steps: seq<Step>
        ensures var s := Run(cfg, Init(cfg, disk), steps); Shaped(cfg, s) && SafeFor(cfg, s, c)
      {
        InitInv(cfg, disk);
        RunKeeps(cfg, Init(cfg, disk), steps);
        var s := Run(cfg, Init(cfg, disk), steps);
        if Enabled(cfg, s, Forward(c)) {
          ForwardSafe(cfg, s, c);
        }
        if s.drvResp != [] {
          DeliverSafe(cfg, s);
        }
      }
    } else {
      var steps := Overruns(cfg, disk, c);
      assert !SafeFor(cfg, Run(cfg, Init(cfg, disk), steps), c);
    }
  }
}
