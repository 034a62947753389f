/**
 The network transmit virtualiser (network/components/virt_tx.c) between its clients and the driver. A client names its
 buffers by offset; the driver is given addresses; buffers that come back are told apart by their address alone.
 */
module NetTx {
  import opened NetOffsets
  import opened Sequences

  const BUFFER_SIZE: nat := 2048

  /** Where each client's buffers lie in the device's address space, and how many there are. */
  datatype Config = Config(io: seq<nat>, caps: seq<nat>, drvCap: nat)

  predicate Fits(cfg: Config)
  {
    |cfg.io| == |cfg.caps|
  }

  /** The address is within a client's region. */
  predicate Within(cfg: Config, client: nat, addr: nat)
    requires Fits(cfg) && client < |cfg.io|
  {
    cfg.io[client] <= addr < cfg.io[client] + cfg.caps[client] * BUFFER_SIZE
  }

  /** An offset that tx_provide accepts: aligned and within the region. */
  predicate ValidOffset(cfg: Config, client: nat, off: nat)
    requires Fits(cfg) && client < |cfg.io|
  {
    off % BUFFER_SIZE == 0 && off < BUFFER_SIZE * cfg.caps[client]
  }

  /** It is the offset of one of the client's buffers. */
  lemma ValidOffsetExactly(cfg: Config, client: nat, off: nat)
    requires Fits(cfg) && client < |cfg.io|
    ensures ValidOffset(cfg, client, off) <==> IsBuffer(cfg.caps[client], off)
  {
    IsBufferExactly(cfg.caps[client], off);
  }

  /** The address of a client's buffer. */
  function AddrOf(cfg: Config, client: nat, off: nat): nat
    requires Fits(cfg) && client < |cfg.io|
  {
    cfg.io[client] + off
  }

  /** The first client whose region contains the address. */
  function Owner(cfg: Config, addr: nat, from: nat): (client: nat)
    requires Fits(cfg) && from <= |cfg.io|
    ensures from <= client <= |cfg.io|
    ensures client < |cfg.io| ==> Within(cfg, client, addr)
    ensures forall j :: from <= j < client ==> !Within(cfg, j, addr)
    decreases |cfg.io| - from
  {
    if from == |cfg.io| || Within(cfg, from, addr) then from else Owner(cfg, addr, from + 1)
  }

  /** extract_offset: the client (or -1) and the offset in its region. */
  method ExtractOffset(cfg: Config, phys: nat) returns (client: int, offset: nat)
    requires Fits(cfg)
    ensures client == -1 || 0 <= client < |cfg.io|
    ensures client == -1 <==> Owner(cfg, phys, 0) == |cfg.io|
    ensures client >= 0 ==> client == Owner(cfg, phys, 0) && offset == phys - cfg.io[client]
    ensures client >= 0 ==> cfg.io[client] <= phys < cfg.io[client] + 2048 * cfg.caps[client]
    ensures forall j :: 0 <= j < (if client < 0 then |cfg.io| else client) ==>
              !(cfg.io[j] <= phys < cfg.io[j] + 2048 * cfg.caps[j])
  {
    for c := 0 to |cfg.io|
      invariant forall j :: 0 <= j < c ==> !Within(cfg, j, phys)
      invariant forall j :: 0 <= j < c ==> !(cfg.io[j] <= phys < cfg.io[j] + 2048 * cfg.caps[j])
    {
      if phys >= cfg.io[c] && phys < cfg.io[c] + cfg.caps[c] * BUFFER_SIZE {
        assert Within(cfg, c, phys);
        return c, phys - cfg.io[c];
      }
    }
    return -1, phys;
  }

  /** No buffer of a client lies in the region of an earlier one. */
  ghost predicate Separable(cfg: Config)
  {
    Fits(cfg) && forall j: nat, i: nat, off: nat ::
      j < i < |cfg.io| && ValidOffset(cfg, i, off) ==> !Within(cfg, j, AddrOf(cfg, i, off))
  }

  /** The address leads back to client and offset, for every valid offset, exactly when the regions are separable. */
  lemma ExtractInverts(cfg: Config)
    requires Fits(cfg)
    ensures (forall i: nat, off: nat :: i < |cfg.io| && ValidOffset(cfg, i, off) ==>
              Owner(cfg, AddrOf(cfg, i, off), 0) == i) <==> Separable(cfg)
  {
    if Separable(cfg) {
      forall i: nat, off: nat | i < |cfg.io| && ValidOffset(cfg, i, off)
        ensures Owner(cfg, AddrOf(cfg, i, off), 0) == i
      {
        OwnerIs(cfg, i, off);
      }
    } else {
      var j: nat, i: nat, off: nat :| j < i < |cfg.io| && ValidOffset(cfg, i, off)
          && Within(cfg, j, AddrOf(cfg, i, off));
      assert Owner(cfg, AddrOf(cfg, i, off), 0) <= j;
    }
  }

  lemma OwnerIs(cfg: Config, i: nat, off: nat)
    requires Fits(cfg) && Separable(cfg) && i < |cfg.io| && ValidOffset(cfg, i, off)
    ensures Owner(cfg, AddrOf(cfg, i, off), 0) == i
  {
    var c := Owner(cfg, AddrOf(cfg, i, off), 0);
    assert Within(cfg, i, AddrOf(cfg, i, off));
    assert c < |cfg.io| ==> Within(cfg, c, AddrOf(cfg, i, off));
  }

  /** Regions that do not overlap are separable. */
  lemma DisjointIsSeparable(cfg: Config)
    requires Fits(cfg)
    requires forall j, i :: 0 <= j < i < |cfg.io| ==>
      cfg.io[i] + cfg.caps[i] * BUFFER_SIZE <= cfg.io[j] || cfg.io[j] + cfg.caps[j] * BUFFER_SIZE <= cfg.io[i]
    ensures Separable(cfg)
  {
  }

  // ---- The system -----------------------------------------------------------------------------------

  /** Offsets held by each client, and in its two queues; addresses in the driver's two queues and its hardware ring. */
  datatype State = State(holds: seq<seq<nat>>, cliActive: seq<seq<nat>>, cliFree: seq<seq<nat>>,
                         drvActive: seq<nat>, ring: seq<nat>, drvFree: seq<nat>)

  datatype Step =
    | ClientSend(client: nat, k: nat)    // the client sends the k-th buffer it holds
    | ClientTake(client: nat)            // it takes back the oldest one returned
    | VirtProvide(client: nat)           // tx_provide takes one buffer from a client
    | DriverTake                         // the driver puts one into its ring
    | DriverReturn(k: nat)               // and returns one, in any order
    | VirtReturn                         // tx_return takes one from the driver

  predicate Shaped(cfg: Config, s: State)
  {
    Fits(cfg) && |s.holds| == |s.cliActive| == |s.cliFree| == |cfg.io|
  }

  predicate Enabled(cfg: Config, s: State, step: Step)
    requires Shaped(cfg, s)
  {
    match step
    case ClientSend(i, k) => i < |cfg.io| && k < |s.holds[i]|
    case ClientTake(i) => i < |cfg.io| && s.cliFree[i] != []
    case VirtProvide(i) => i < |cfg.io| && s.cliActive[i] != []
    case DriverTake => s.drvActive != []
    case DriverReturn(k) => k < |s.ring|
    case VirtReturn => s.drvFree != []
  }

  /** The assertions of tx_provide and tx_return at this step: no queue overflows, and every address has an owner. */
  predicate AssertsHold(cfg: Config, s: State, step: Step)
    requires Shaped(cfg, s) && Enabled(cfg, s, step)
  {
    match step
    case VirtProvide(i) =>
      if ValidOffset(cfg, i, s.cliActive[i][0]) then |s.drvActive| < cfg.drvCap else |s.cliFree[i]| < cfg.caps[i]
    case VirtReturn =>
      var c := Owner(cfg, s.drvFree[0], 0);
      c < |cfg.io| && |s.cliFree[c]| < cfg.caps[c]
    case _ => true
  }

  function Provide(cfg: Config, s: State, i: nat): State
    requires Shaped(cfg, s) && Enabled(cfg, s, VirtProvide(i))
  {
    var off := s.cliActive[i][0];
    var ok := ValidOffset(cfg, i, off);
    s.(cliActive := s.cliActive[i := s.cliActive[i][1..]],
       cliFree := if ok then s.cliFree else s.cliFree[i := s.cliFree[i] + [off]],
       drvActive := if ok then s.drvActive + [AddrOf(cfg, i, off)] else s.drvActive)
  }

  function Return(cfg: Config, s: State): State
    requires Shaped(cfg, s) && Enabled(cfg, s, VirtReturn)
  {
    var c := Owner(cfg, s.drvFree[0], 0);
    s.(drvFree := s.drvFree[1..],
       cliFree := if c < |cfg.io| then s.cliFree[c := s.cliFree[c] + [s.drvFree[0] - cfg.io[c]]] else s.cliFree)
  }

  function Apply(cfg: Config, s: State, step: Step): (s': State)
    requires Shaped(cfg, s)
    ensures Shaped(cfg, s')
  {
    if !Enabled(cfg, s, step) then s else
    match step
    case ClientSend(i, k) =>
      s.(holds := s.holds[i := Drop(s.holds[i], k)], cliActive := s.cliActive[i := s.cliActive[i] + [s.holds[i][k]]])
    case ClientTake(i) =>
      s.(holds := s.holds[i := s.holds[i] + [s.cliFree[i][0]]], cliFree := s.cliFree[i := s.cliFree[i][1..]])
    case VirtProvide(i) => Provide(cfg, s, i)
    case DriverTake => s.(drvActive := s.drvActive[1..], ring := s.ring + [s.drvActive[0]])
    case DriverReturn(k) => s.(ring := Drop(s.ring, k), drvFree := s.drvFree + [s.ring[k]])
    case VirtReturn => Return(cfg, s)
  }

  function Run(cfg: Config, s: State, steps: seq<Step>): (s': State)
    requires Shaped(cfg, s)
    ensures Shaped(cfg, s')
  {
    if steps == [] then s else Apply(cfg, Run(cfg, s, steps[..|steps| - 1]), steps[|steps| - 1])
  }

  // ---- Conservation -----------------------------------------------------------------------------------

  /** How often an address is with the driver. */
  function AtDriver(s: State, addr: nat): nat
  {
    Tally(s.drvActive, addr) + Tally(s.ring, addr) + Tally(s.drvFree, addr)
  }

  /** How often a client's buffer exists, wherever it is. */
  function Copies(cfg: Config, s: State, i: nat, off: nat): nat
    requires Shaped(cfg, s) && i < |cfg.io|
  {
    Tally(s.holds[i], off) + Tally(s.cliActive[i], off) + Tally(s.cliFree[i], off)
    + if ValidOffset(cfg, i, off) then AtDriver(s, AddrOf(cfg, i, off)) else 0
  }

  /** The address of some client's valid buffer. */
  ghost predicate Known(cfg: Config, addr: nat)
    requires Fits(cfg)
  {
    exists i: nat, off: nat :: i < |cfg.io| && ValidOffset(cfg, i, off) && addr == AddrOf(cfg, i, off)
  }

  ghost predicate AllKnown(cfg: Config, q: seq<nat>)
    requires Fits(cfg)
  {
    forall k :: 0 <= k < |q| ==> Known(cfg, q[k])
  }

  function Lengths(qs: seq<seq<nat>>): nat
  {
    if qs == [] then 0 else Lengths(qs[..|qs| - 1]) + |qs[|qs| - 1]|
  }

  /** The number of descriptors in the system. */
  function Size(s: State): nat
  {
    Lengths(s.holds) + Lengths(s.cliActive) + Lengths(s.cliFree) + |s.drvActive| + |s.ring| + |s.drvFree|
  }

  ghost predicate Balanced(cfg: Config, s: State, total: seq<seq<nat>>, i: nat, off: nat)
    requires Shaped(cfg, s) && |total| == |cfg.io|
  {
    i < |cfg.io| ==> Copies(cfg, s, i, off) == Tally(total[i], off)
  }

  /** Every client's buffers are all there, each as often as in `total`, and the driver holds nothing else. */
  ghost predicate Conserved(cfg: Config, s: State, total: seq<seq<nat>>)
  {
    && Shaped(cfg, s) && |total| == |cfg.io|
    && AllKnown(cfg, s.drvActive) && AllKnown(cfg, s.ring) && AllKnown(cfg, s.drvFree)
    && Size(s) == Lengths(total)
    && forall i: nat, off: nat :: Balanced(cfg, s, total, i, off)
  }

  /** The queues are large enough for the buffers there are. */
  predicate Roomy(cfg: Config, total: seq<seq<nat>>)
  {
    |total| == |cfg.caps| && Lengths(total) <= cfg.drvCap && forall i :: 0 <= i < |total| ==> |total[i]| <= cfg.caps[i]
  }

  lemma {:induction false} LengthsUpdate(qs: seq<seq<nat>>, i: nat, q: seq<nat>)
    requires i < |qs|
    ensures Lengths(qs[i := q]) + |qs[i]| == Lengths(qs) + |q|
  {
    if i == |qs| - 1 {
      assert qs[i := q][..|qs| - 1] == qs[..|qs| - 1];
    } else {
      LengthsUpdate(qs[..|qs| - 1], i, q);
      assert qs[i := q][..|qs| - 1] == qs[..|qs| - 1][i := q];
    }
  }

  /** Two valid buffers with the same address are the same. */
  lemma AddrInjective(cfg: Config, i: nat, off: nat, j: nat, off': nat)
    requires Fits(cfg) && Separable(cfg) && i < |cfg.io| && j < |cfg.io|
    requires ValidOffset(cfg, i, off) && ValidOffset(cfg, j, off') && AddrOf(cfg, i, off) == AddrOf(cfg, j, off')
    ensures i == j && off == off'
  {
    OwnerIs(cfg, i, off);
    OwnerIs(cfg, j, off');
  }

  lemma ClientSendConserves(cfg: Config, s: State, total: seq<seq<nat>>, i: nat, k: nat)
    requires Conserved(cfg, s, total) && Enabled(cfg, s, ClientSend(i, k))
    ensures Conserved(cfg, Apply(cfg, s, ClientSend(i, k)), total)
  {
    var s' := Apply(cfg, s, ClientSend(i, k));
    TallyDrop(s.holds[i], k);
    TallyPush(s.cliActive[i], s.holds[i][k]);
    LengthsUpdate(s.holds, i, s'.holds[i]);
    LengthsUpdate(s.cliActive, i, s'.cliActive[i]);
    forall j: nat, off: nat
      ensures Balanced(cfg, s', total, j, off)
    {
      assert Balanced(cfg, s, total, j, off);
    }
  }

  lemma ClientTakeConserves(cfg: Config, s: State, total: seq<seq<nat>>, i: nat)
    requires Conserved(cfg, s, total) && Enabled(cfg, s, ClientTake(i))
    ensures Conserved(cfg, Apply(cfg, s, ClientTake(i)), total)
  {
    var s' := Apply(cfg, s, ClientTake(i));
    TallyPop(s.cliFree[i]);
    TallyPush(s.holds[i], s.cliFree[i][0]);
    LengthsUpdate(s.holds, i, s'.holds[i]);
    LengthsUpdate(s.cliFree, i, s'.cliFree[i]);
    forall j: nat, off: nat
      ensures Balanced(cfg, s', total, j, off)
    {
      assert Balanced(cfg, s, total, j, off);
    }
  }

  lemma DriverConserves(cfg: Config, s: State, total: seq<seq<nat>>, step: Step)
    requires Conserved(cfg, s, total) && Enabled(cfg, s, step) && (step.DriverTake? || step.DriverReturn?)
    ensures Conserved(cfg, Apply(cfg, s, step), total)
  {
    var s' := Apply(cfg, s, step);
    if step.DriverTake? {
      TallyPop(s.drvActive);
      TallyPush(s.ring, s.drvActive[0]);
    } else {
      TallyDrop(s.ring, step.k);
      TallyPush(s.drvFree, s.ring[step.k]);
    }
    forall j: nat, off: nat
      ensures Balanced(cfg, s', total, j, off)
    {
      assert Balanced(cfg, s, total, j, off);
    }
  }

  lemma ProvideConserves(cfg: Config, s: State, total: seq<seq<nat>>, i: nat)
    requires Separable(cfg) && Conserved(cfg, s, total) && Enabled(cfg, s, VirtProvide(i))
    ensures Conserved(cfg, Provide(cfg, s, i), total)
  {
    var s', b := Provide(cfg, s, i), s.cliActive[i][0];
    TallyPop(s.cliActive[i]);
    TallyPush(s.cliFree[i], b);
    TallyPush(s.drvActive, AddrOf(cfg, i, b));
    LengthsUpdate(s.cliActive, i, s'.cliActive[i]);
    LengthsUpdate(s.cliFree, i, s'.cliFree[i]);
    assert s.cliFree[i := s.cliFree[i]] == s.cliFree;
    assert ValidOffset(cfg, i, b) ==> Known(cfg, AddrOf(cfg, i, b));
    forall j: nat, off: nat
      ensures Balanced(cfg, s', total, j, off)
    {
      assert Balanced(cfg, s, total, j, off);
      if j < |cfg.io| && ValidOffset(cfg, i, b) && ValidOffset(cfg, j, off)
          && AddrOf(cfg, i, b) == AddrOf(cfg, j, off) {
        AddrInjective(cfg, i, b, j, off);
      }
    }
  }

  lemma ReturnConserves(cfg: Config, s: State, total: seq<seq<nat>>)
    requires Separable(cfg) && Conserved(cfg, s, total) && Enabled(cfg, s, VirtReturn)
    ensures Owner(cfg, s.drvFree[0], 0) < |cfg.io| && Conserved(cfg, Return(cfg, s), total)
  {
    var s' := Return(cfg, s);
    assert Known(cfg, s.drvFree[0]);
    var i: nat, b: nat :| i < |cfg.io| && ValidOffset(cfg, i, b) && s.drvFree[0] == AddrOf(cfg, i, b);
    OwnerIs(cfg, i, b);
    TallyPop(s.drvFree);
    TallyPush(s.cliFree[i], b);
    LengthsUpdate(s.cliFree, i, s'.cliFree[i]);
    forall j: nat, off: nat
      ensures Balanced(cfg, s', total, j, off)
    {
      assert Balanced(cfg, s, total, j, off);
      if j < |cfg.io| && ValidOffset(cfg, j, off) && AddrOf(cfg, i, b) == AddrOf(cfg, j, off) {
        AddrInjective(cfg, i, b, j, off);
      }
    }
  }

  lemma StepConserves(cfg: Config, s: State, total: seq<seq<nat>>, step: Step)
    requires Separable(cfg) && Conserved(cfg, s, total)
    ensures Conserved(cfg, Apply(cfg, s, step), total)
  {
    if Enabled(cfg, s, step) {
      match step {
        case ClientSend(i, k) => ClientSendConserves(cfg, s, total, i, k);
        case ClientTake(i) => ClientTakeConserves(cfg, s, total, i);
        case VirtProvide(i) => ProvideConserves(cfg, s, total, i);
        case DriverTake => DriverConserves(cfg, s, total, step);
        case DriverReturn(k) => DriverConserves(cfg, s, total, step);
        case VirtReturn => ReturnConserves(cfg, s, total);
      }
    }
  }

  lemma SubmultisetSize(a: multiset<nat>, b: multiset<nat>)
    requires a <= b
    ensures |a| <= |b|
  {
    assert b == a + (b - a);
  }

  /** A client's free queue, with anything else of the client's, is at most all it has. */
  lemma FreeQueueFits(cfg: Config, s: State, total: seq<seq<nat>>, i: nat, x: nat)
    requires Conserved(cfg, s, total) && i < |cfg.io|
    requires x in s.cliActive[i] || (ValidOffset(cfg, i, x) && AtDriver(s, AddrOf(cfg, i, x)) > 0)
    ensures |s.cliFree[i]| < |total[i]|
  {
    var a, b := multiset(s.cliFree[i]) + multiset{x}, multiset(total[i]);
    forall off: nat | off in a
      ensures a[off] <= b[off]
    {
      assert Balanced(cfg, s, total, i, off);
      assert Tally(s.cliActive[i], x) > 0 || AtDriver(s, AddrOf(cfg, i, x)) > 0;
    }
    SubmultisetSize(a, b);
  }

  lemma {:induction false} LengthsAtLeast(qs: seq<seq<nat>>, i: nat)
    requires i < |qs|
    ensures Lengths(qs) >= |qs[i]|
  {
    if i < |qs| - 1 {
      LengthsAtLeast(qs[..|qs| - 1], i);
    }
  }

  /** With the buffers conserved and queues large enough, no assertion of the virtualiser can fail. */
  lemma ConservedIsSafe(cfg: Config, s: State, total: seq<seq<nat>>, step: Step)
    requires Separable(cfg) && Conserved(cfg, s, total) && Roomy(cfg, total) && Enabled(cfg, s, step)
    ensures AssertsHold(cfg, s, step)
  {
    match step {
      case VirtProvide(i) =>
        LengthsAtLeast(s.cliActive, i);
        FreeQueueFits(cfg, s, total, i, s.cliActive[i][0]);
      case VirtReturn =>
        ReturnConserves(cfg, s, total);
        assert Known(cfg, s.drvFree[0]);
        var i: nat, b: nat :| i < |cfg.io| && ValidOffset(cfg, i, b) && s.drvFree[0] == AddrOf(cfg, i, b);
        OwnerIs(cfg, i, b);
        FreeQueueFits(cfg, s, total, i, b);
      case _ =>
    }
  }

  function Empty(n: nat): (qs: seq<seq<nat>>)
    ensures |qs| == n && forall i :: 0 <= i < n ==> qs[i] == []
  {
    Fill(n, [])
  }

  /** Every client holds all its buffers; nothing is on its way. */
  function Init(cfg: Config, total: seq<seq<nat>>): State
  {
    State(total, Empty(|total|), Empty(|total|), [], [], [])
  }

  lemma {:induction false} NoLengths(n: nat)
    ensures Lengths(Empty(n)) == 0
  {
    if n > 0 {
      NoLengths(n - 1);
      assert Empty(n)[..n - 1] == Empty(n - 1);
    }
  }

  lemma InitConserved(cfg: Config, total: seq<seq<nat>>)
    requires Fits(cfg) && |total| == |cfg.io|
    ensures Conserved(cfg, Init(cfg, total), total)
  {
    NoLengths(|total|);
  }

  lemma {:induction false} RunConserves(cfg: Config, s: State, total: seq<seq<nat>>, steps: seq<Step>)
    requires Separable(cfg) && Conserved(cfg, s, total)
    ensures Conserved(cfg, Run(cfg, s, steps), total)
  {
    if steps != [] {
      RunConserves(cfg, s, total, steps[..|steps| - 1]);
      StepConserves(cfg, Run(cfg, s, steps[..|steps| - 1]), total, steps[|steps| - 1]);
    }
  }

  lemma {:induction false} RunAppend(cfg: Config, s: State, a: seq<Step>, b: seq<Step>)
    requires Shaped(cfg, s)
    ensures Run(cfg, s, a + b) == Run(cfg, Run(cfg, s, a), b)
  {
    if b == [] {
      assert a + b == a;
    } else {
      RunAppend(cfg, s, a, b[..|b| - 1]);
      assert (a + b)[..|a + b| - 1] == a + b[..|b| - 1];
    }
  }

  lemma RunOne(cfg: Config, s: State, a: seq<Step>, step: Step)
    requires Shaped(cfg, s)
    ensures Run(cfg, s, a + [step]) == Apply(cfg, Run(cfg, s, a), step)
  {
    assert (a + [step])[..|a|] == a;
  }

  /**
   However clients, virtualiser and driver interleave, whatever offsets the clients use and in whatever order the driver
   returns buffers: no assertion fails, and when nothing is on its way every client holds exactly its buffers again.
   */
  lemma TxRoundTrip(cfg: Config, total: seq<seq<nat>>, steps: seq<Step>, step: Step)
    requires Separable(cfg) && Roomy(cfg, total)
    ensures var s := Run(cfg, Init(cfg, total), steps);
            && (Enabled(cfg, s, step) ==> AssertsHold(cfg, s, step))
            && (s.drvActive == s.ring == s.drvFree == [] ==>
                  forall i: nat :: i < |total| && s.cliActive[i] == [] && s.cliFree[i] == [] ==>
                      multiset(s.holds[i]) == multiset(total[i]))
  {
    var s := Run(cfg, Init(cfg, total), steps);
    InitConserved(cfg, total);
    RunConserves(cfg, Init(cfg, total), total, steps);
    if Enabled(cfg, s, step) {
      ConservedIsSafe(cfg, s, total, step);
    }
    if s.drvActive == s.ring == s.drvFree == [] {
      forall i: nat | i < |total| && s.cliActive[i] == [] && s.cliFree[i] == []
        ensures multiset(s.holds[i]) == multiset(total[i])
      {
        forall off: nat
          ensures multiset(s.holds[i])[off] == multiset(total[i])[off]
        {
          assert Balanced(cfg, s, total, i, off);
        }
      }
    }
  }

  // ---- The handlers ---------------------------------------------------------------------------------------

  /** Steps of clients and driver. */
  predicate ByOthers(steps: seq<Step>)
  {
    forall i :: 0 <= i < |steps| ==> !steps[i].VirtProvide? && !steps[i].VirtReturn?
  }

  /** At some point of the run, client c's active queue was empty. */
  predicate FoundEmpty(cfg: Config, start: State, trace: seq<Step>, c: nat)
    requires Shaped(cfg, start)
  {
    exists n :: 0 <= n <= |trace| && Emptied(Run(cfg, start, trace[..n]), c)
  }

  predicate Emptied(s: State, c: nat)
  {
    c < |s.cliActive| && s.cliActive[c] == []
  }

  /** The active queues of the first clients have each been found empty. */
  predicate AllFound(cfg: Config, start: State, trace: seq<Step>, clients: nat)
    requires Shaped(cfg, start)
  {
    forall c: nat :: c < clients ==> FoundEmpty(cfg, start, trace, c)
  }

  lemma FoundNext(cfg: Config, start: State, trace: seq<Step>, trace': seq<Step>, c: nat)
    requires Shaped(cfg, start) && AllFound(cfg, start, trace, c) && trace <= trace'
    requires Emptied(Run(cfg, start, trace'), c)
    ensures AllFound(cfg, start, trace', c + 1)
  {
    assert trace'[..|trace'|] == trace';
    forall k: nat | k < c
      ensures FoundEmpty(cfg, start, trace', k)
    {
      assert FoundEmpty(cfg, start, trace, k);
      var n :| 0 <= n <= |trace| && Emptied(Run(cfg, start, trace[..n]), k);
      assert trace'[..n] == trace[..n];
    }
  }

  /** The address passed on to the driver at this step, if any. */
  function PassedBy(cfg: Config, s: State, step: Step): seq<nat>
    requires Shaped(cfg, s)
  {
    if step.VirtProvide? && Enabled(cfg, s, step) && ValidOffset(cfg, step.client, s.cliActive[step.client][0])
    then [AddrOf(cfg, step.client, s.cliActive[step.client][0])]
    else []
  }

  /** It is that of the buffer at the head of the client's queue, if that is one. */
  lemma PassedIs(cfg: Config, s: State, client: nat)
    requires Shaped(cfg, s) && Enabled(cfg, s, VirtProvide(client))
    ensures PassedBy(cfg, s, VirtProvide(client))
              == Forwarded(cfg.io[client], cfg.caps[client], s.cliActive[client][0])
  {
    ValidOffsetExactly(cfg, client, s.cliActive[client][0]);
  }

  /** The addresses passed on to the driver in a run, in order. */
  function PassedIn(cfg: Config, s: State, steps: seq<Step>): seq<nat>
    requires Shaped(cfg, s)
  {
    if steps == [] then []
    else
      var init, last := steps[..|steps| - 1], steps[|steps| - 1];
      PassedIn(cfg, s, init) + PassedBy(cfg, Run(cfg, s, init), last)
  }

  /** The client given a buffer back at this step, if any. */
  function GivenBy(cfg: Config, s: State, step: Step): seq<nat>
    requires Shaped(cfg, s)
  {
    if step.VirtReturn? && Enabled(cfg, s, step) then [Owner(cfg, s.drvFree[0], 0)] else []
  }

  /** The clients given buffers back in a run, in order, once for each buffer. */
  function GivenIn(cfg: Config, s: State, steps: seq<Step>): seq<nat>
    requires Shaped(cfg, s)
  {
    if steps == [] then []
    else
      var init, last := steps[..|steps| - 1], steps[|steps| - 1];
      GivenIn(cfg, s, init) + GivenBy(cfg, Run(cfg, s, init), last)
  }

  lemma CountOne(cfg: Config, s: State, a: seq<Step>, step: Step)
    requires Shaped(cfg, s)
    ensures PassedIn(cfg, s, a + [step]) == PassedIn(cfg, s, a) + PassedBy(cfg, Run(cfg, s, a), step)
    ensures GivenIn(cfg, s, a + [step]) == GivenIn(cfg, s, a) + GivenBy(cfg, Run(cfg, s, a), step)
  {
    assert (a + [step])[..|a|] == a;
  }

  /** Others neither pass buffers on nor give them back. */
  lemma {:induction false} OthersCountNothing(cfg: Config, s: State, a: seq<Step>, b: seq<Step>)
    requires Shaped(cfg, s) && ByOthers(b)
    ensures PassedIn(cfg, s, a + b) == PassedIn(cfg, s, a) && GivenIn(cfg, s, a + b) == GivenIn(cfg, s, a)
  {
    if b == [] {
      assert a + b == a;
    } else {
      var init, last := b[..|b| - 1], b[|b| - 1];
      OthersCountNothing(cfg, s, a, init);
      AppendAssociates(a, init, [last]);
      assert b == init + [last];
      CountOne(cfg, s, a + init, last);
    }
  }

  /** What the driver takes at this step, if anything. */
  function TakenBy(cfg: Config, s: State, step: Step): seq<nat>
    requires Shaped(cfg, s)
  {
    if step.DriverTake? && Enabled(cfg, s, step) then [s.drvActive[0]] else []
  }

  function TakenIn(cfg: Config, s: State, steps: seq<Step>): seq<nat>
    requires Shaped(cfg, s)
  {
    if steps == [] then []
    else
      var init, last := steps[..|steps| - 1], steps[|steps| - 1];
      TakenIn(cfg, s, init) + TakenBy(cfg, Run(cfg, s, init), last)
  }

  /** What was passed on is what the driver took, and then what waits for it, in order. */
  lemma {:induction false} PassedReachesDriver(cfg: Config, s: State, steps: seq<Step>)
    requires Shaped(cfg, s)
    ensures s.drvActive + PassedIn(cfg, s, steps) == TakenIn(cfg, s, steps) + Run(cfg, s, steps).drvActive
  {
    if steps != [] {
      var init, last := steps[..|steps| - 1], steps[|steps| - 1];
      PassedReachesDriver(cfg, s, init);
      var now := Run(cfg, s, init);
      AppendAssociates(s.drvActive, PassedIn(cfg, s, init), PassedBy(cfg, now, last));
      AppendAssociates(TakenIn(cfg, s, init), now.drvActive, PassedBy(cfg, now, last));
      AppendAssociates(TakenIn(cfg, s, init), TakenBy(cfg, now, last), Apply(cfg, now, last).drvActive);
      StepReachesDriver(cfg, now, last);
    }
  }

  lemma StepReachesDriver(cfg: Config, s: State, step: Step)
    requires Shaped(cfg, s)
    ensures s.drvActive + PassedBy(cfg, s, step) == TakenBy(cfg, s, step) + Apply(cfg, s, step).drvActive
  {
  }

  /** How many buffers client c takes back in a run. */
  function TakesBack(cfg: Config, s: State, steps: seq<Step>, c: nat): nat
    requires Shaped(cfg, s)
  {
    if steps == [] then 0
    else
      var init, last := steps[..|steps| - 1], steps[|steps| - 1];
      TakesBack(cfg, s, init, c)
      + if last == ClientTake(c) && Enabled(cfg, Run(cfg, s, init), last) then 1 else 0
  }

  /** In a run of tx_return, what a client was given is what it took back and what waits for it. */
  lemma {:induction false} GivenReachesClient(cfg: Config, s: State, steps: seq<Step>, c: nat)
    requires Shaped(cfg, s) && c < |cfg.io| && NoProvide(steps)
    ensures |s.cliFree[c]| + Tally(GivenIn(cfg, s, steps), c)
              == TakesBack(cfg, s, steps, c) + |Run(cfg, s, steps).cliFree[c]|
  {
    if steps != [] {
      var init, last := steps[..|steps| - 1], steps[|steps| - 1];
      GivenReachesClient(cfg, s, init, c);
      var given := GivenIn(cfg, s, init);
      if GivenBy(cfg, Run(cfg, s, init), last) == [] {
        assert given + [] == given;
      } else {
        TallyPush(given, Owner(cfg, Run(cfg, s, init).drvFree[0], 0));
      }
    }
  }

  /** Names the places where a proof looks into a handler's run. */
  predicate Inspected(k: int, s: State, trace: seq<Step>)
  {
    true
  }

  /** This run led from one state to the other, passing these addresses on and giving buffers to these clients. */
  ghost predicate Led(cfg: Config, s0: State, trace: seq<Step>, s: State, passed: seq<nat>, given: seq<nat>)
  {
    forall k: int {:trigger Inspected(k, s, trace)} :: Inspected(k, s, trace) ==>
        LedSo(cfg, s0, trace, s, passed, given)
  }

  predicate LedSo(cfg: Config, s0: State, trace: seq<Step>, s: State, passed: seq<nat>, given: seq<nat>)
  {
    && Shaped(cfg, s0) && s == Run(cfg, s0, trace)
    && passed == PassedIn(cfg, s0, trace) && given == GivenIn(cfg, s0, trace)
  }

  lemma LedMeans(cfg: Config, s0: State, trace: seq<Step>, s: State, passed: seq<nat>, given: seq<nat>)
    ensures Led(cfg, s0, trace, s, passed, given) <==> LedSo(cfg, s0, trace, s, passed, given)
  {
    assert Inspected(0, s, trace);
  }

  lemma LedFirst(cfg: Config, s: State)
    requires Shaped(cfg, s)
    ensures Led(cfg, s, [], s, [], [])
  {
    LedMeans(cfg, s, [], s, [], []);
  }

  lemma LedOwn(cfg: Config, s0: State, trace: seq<Step>, s: State, passed: seq<nat>, given: seq<nat>, step: Step)
    requires Led(cfg, s0, trace, s, passed, given) && Shaped(cfg, s)
    ensures Led(cfg, s0, trace + [step], Apply(cfg, s, step),
              passed + PassedBy(cfg, s, step), given + GivenBy(cfg, s, step))
  {
    LedMeans(cfg, s0, trace, s, passed, given);
    RunOne(cfg, s0, trace, step);
    CountOne(cfg, s0, trace, step);
    LedMeans(cfg, s0, trace + [step], Apply(cfg, s, step),
             passed + PassedBy(cfg, s, step), given + GivenBy(cfg, s, step));
  }

  lemma LedOthers(cfg: Config, s0: State, trace: seq<Step>, s: State, passed: seq<nat>, given: seq<nat>,
                  steps: seq<Step>)
    requires Led(cfg, s0, trace, s, passed, given) && Shaped(cfg, s) && ByOthers(steps)
    ensures Led(cfg, s0, trace + steps, Run(cfg, s, steps), passed, given)
  {
    LedMeans(cfg, s0, trace, s, passed, given);
    RunAppend(cfg, s0, trace, steps);
    OthersCountNothing(cfg, s0, trace, steps);
    LedMeans(cfg, s0, trace + steps, Run(cfg, s, steps), passed, given);
  }

  predicate NoProvide(steps: seq<Step>)
  {
    forall i :: 0 <= i < |steps| ==> !steps[i].VirtProvide?
  }

  predicate NoReturn(steps: seq<Step>)
  {
    forall i :: 0 <= i < |steps| ==> !steps[i].VirtReturn?
  }

  class VirtTx {
    const cfg: Config
    var s: State                           // the queues, and what clients and driver hold
    var wantedFromClients: seq<bool>       // signals requested on the clients' active queues
    var wantedFromDriver: bool             // and on the driver's free queue
    ghost const total: seq<seq<nat>>

    ghost predicate Valid()
      reads this
    {
      Separable(cfg) && Roomy(cfg, total) && Conserved(cfg, s, total) && |wantedFromClients| == |cfg.io|
    }

    constructor (config: Config, buffers: seq<seq<nat>>)
      requires Separable(config) && Roomy(config, buffers)
      ensures Valid() && cfg == config && s == Init(config, buffers) && total == buffers
    {
      cfg, s, total := config, Init(config, buffers), buffers;
      wantedFromClients, wantedFromDriver := Fill(|config.io|, false), false;
      new;
      InitConserved(cfg, total);
    }

    /** Clients and driver run. */
    method Others(steps: seq<Step>)
      requires Valid() && ByOthers(steps)
      modifies this`s
      ensures Valid() && s == Run(cfg, old(s), steps)
    {
      RunConserves(cfg, s, total, steps);
      s := Run(cfg, s, steps);
    }

    /** The body of tx_provide's inner loop. */
    method ProvideOne(client: nat) returns (enqueued: bool)
      requires Valid() && Enabled(cfg, s, VirtProvide(client))
      modifies this`s
      ensures Valid() && s == Apply(cfg, old(s), VirtProvide(client))
      ensures enqueued <==> IsBuffer(cfg.caps[client], old(s).cliActive[client][0])
      ensures s.drvActive == old(s).drvActive + Forwarded(cfg.io[client], cfg.caps[client], old(s).cliActive[client][0])
    {
      ValidOffsetExactly(cfg, client, s.cliActive[client][0]);
      StepConserves(cfg, s, total, VirtProvide(client));
      ConservedIsSafe(cfg, s, total, VirtProvide(client));
      var off := s.cliActive[client][0];
      s := s.(cliActive := s.cliActive[client := s.cliActive[client][1..]]);
      if off % BUFFER_SIZE != 0 || off >= BUFFER_SIZE * cfg.caps[client] {
        assert |s.cliFree[client]| < cfg.caps[client];
        s := s.(cliFree := s.cliFree[client := s.cliFree[client] + [off]]);
        enqueued := false;
      } else {
        assert |s.drvActive| < cfg.drvCap;
        s := s.(drvActive := s.drvActive + [off + cfg.io[client]]);
        enqueued := true;
      }
    }

    /** The body of tx_return's inner loop. */
    method ReturnOne() returns (client: nat)
      requires Valid() && Enabled(cfg, s, VirtReturn)
      modifies this`s
      ensures Valid() && s == Apply(cfg, old(s), VirtReturn) && client < |cfg.io|
      ensures GivenBy(cfg, old(s), VirtReturn) == [client]
      ensures exists offset :: s.cliFree == old(s).cliFree[client := old(s).cliFree[client] + [offset]]
    {
      StepConserves(cfg, s, total, VirtReturn);
      ConservedIsSafe(cfg, s, total, VirtReturn);
      var c, offset := ExtractOffset(cfg, s.drvFree[0]);
      assert c >= 0 && |s.cliFree[c]| < cfg.caps[c];
      client := c;
      s := s.(drvFree := s.drvFree[1..], cliFree := s.cliFree[client := s.cliFree[client] + [offset]]);
    }

    /** The next round of what others do, if any is left. */
    method NextRound(rounds: seq<seq<Step>>, round: nat, ghost s0: State, ghost trace: seq<Step>,
                     ghost passed: seq<nat>, ghost given: seq<nat>)
      returns (round': nat, ghost trace': seq<Step>)
      requires Valid() && round <= |rounds| && (forall i :: 0 <= i < |rounds| ==> ByOthers(rounds[i]))
      requires Led(cfg, s0, trace, s, passed, given)
      modifies this`s
      ensures Valid() && round <= round' <= |rounds| && Led(cfg, s0, trace', s, passed, given) && trace <= trace'
      ensures round' == round ==> s == old(s) && round == |rounds|
      ensures (NoReturn(trace) ==> NoReturn(trace')) && (NoProvide(trace) ==> NoProvide(trace'))
    {
      round', trace' := round, trace;
      if round < |rounds| {
        LedOthers(cfg, s0, trace, s, passed, given, rounds[round]);
        Others(rounds[round]);
        round', trace' := round + 1, trace + rounds[round];
      }
    }

    /** One buffer of a client's. */
    method ProvideNow(client: nat, ghost s0: State, ghost trace: seq<Step>, ghost passed: seq<nat>)
      returns (enqueued: bool, ghost more: seq<nat>)
      requires Valid() && Enabled(cfg, s, VirtProvide(client)) && Led(cfg, s0, trace, s, passed, [])
      modifies this`s
      ensures Valid() && Led(cfg, s0, trace + [VirtProvide(client)], s, passed + more, []) && (enqueued <==> more != [])
      ensures s.drvActive == old(s).drvActive + more
      ensures more == Forwarded(cfg.io[client], cfg.caps[client], old(s).cliActive[client][0])
      ensures s.cliActive == old(s).cliActive[client := old(s).cliActive[client][1..]]
    {
      PassedIs(cfg, s, client);
      LedOwn(cfg, s0, trace, s, passed, [], VirtProvide(client));
      more := PassedBy(cfg, s, VirtProvide(client));
      enqueued := ProvideOne(client);
    }

    /** One buffer of a client's, then others run. */
    method ProvideNext(client: nat, rounds: seq<seq<Step>>, first: nat, ghost s0: State, ghost trace0: seq<Step>,
                       ghost passed0: seq<nat>)
      returns (enqueued: bool, round: nat, ghost trace: seq<Step>, ghost passed: seq<nat>)
      requires Valid() && Enabled(cfg, s, VirtProvide(client)) && Led(cfg, s0, trace0, s, passed0, [])
      requires first <= |rounds| && (forall i :: 0 <= i < |rounds| ==> ByOthers(rounds[i]))
      modifies this`s
      ensures Valid() && first <= round <= |rounds| && Led(cfg, s0, trace, s, passed0 + passed, []) && trace0 <= trace
      ensures (enqueued <==> passed != []) && (NoReturn(trace0) ==> NoReturn(trace))
      ensures round == first ==> first == |rounds| && s.drvActive == old(s).drvActive + passed
      ensures passed == Forwarded(cfg.io[client], cfg.caps[client], old(s).cliActive[client][0])
      ensures round == first ==> s.cliActive == old(s).cliActive[client := old(s).cliActive[client][1..]]
    {
      enqueued, passed := ProvideNow(client, s0, trace0, passed0);
      round, trace := NextRound(rounds, first, s0, trace0 + [VirtProvide(client)], passed0 + passed, []);
    }

    /** Everything a client has queued; others run after each buffer. */
    method DrainClient(client: nat, rounds: seq<seq<Step>>, first: nat, ghost s0: State, ghost trace0: seq<Step>,
                       ghost passed0: seq<nat>)
      returns (enqueued: bool, round: nat, ghost trace: seq<Step>, ghost passed: seq<nat>)
      requires Valid() && client < |cfg.io| && Led(cfg, s0, trace0, s, passed0, [])
      requires first <= |rounds| && (forall i :: 0 <= i < |rounds| ==> ByOthers(rounds[i]))
      modifies this`s
      ensures Valid() && first <= round <= |rounds| && Led(cfg, s0, trace, s, passed0 + passed, []) && trace0 <= trace
      ensures (enqueued <==> passed != []) && (NoReturn(trace0) ==> NoReturn(trace)) && s.cliActive[client] == []
      ensures first == |rounds| ==> s.cliActive == old(s).cliActive[client := []]
      ensures first == |rounds| ==> s.drvActive == old(s).drvActive + passed
      ensures first == |rounds| ==> Drained(cfg.io[client], cfg.caps[client], old(s).cliActive[client], passed, [])
    {
      enqueued, round, trace, passed := false, first, trace0, [];
      assert passed0 + passed == passed0;
      assert s.cliActive[client := s.cliActive[client]] == s.cliActive;
      DrainedFirst(cfg.io[client], cfg.caps[client], s.cliActive[client]);
      while s.cliActive[client] != []
        invariant Valid() && first <= round <= |rounds| && Led(cfg, s0, trace, s, passed0 + passed, [])
        invariant trace0 <= trace && (enqueued <==> passed != []) && (NoReturn(trace0) ==> NoReturn(trace))
        invariant first == |rounds| ==> s.cliActive == old(s).cliActive[client := s.cliActive[client]]
        invariant first == |rounds| ==> s.drvActive == old(s).drvActive + passed
        invariant first == |rounds| ==> Drained(cfg.io[client], cfg.caps[client], old(s).cliActive[client], passed,
                                                s.cliActive[client])
        decreases |rounds| - round, |s.cliActive[client]|
      {
        var ok;
        ghost var more, queue := [], s.cliActive[client];
        ok, round, trace, more := ProvideNext(client, rounds, round, s0, trace, passed0 + passed);
        AppendAssociates(old(s).drvActive, passed, more);
        AppendAssociates(passed0, passed, more);
        if first == |rounds| {
          DrainedNext(cfg.io[client], cfg.caps[client], old(s).cliActive[client], passed, queue, more);
        }
        enqueued, passed := enqueued || ok, passed + more;
      }
    }

    /** One client's share of tx_provide: drain, ask for a signal, look again. */
    method ProvideClient(client: nat, rounds: seq<seq<Step>>, first: nat, ghost s0: State, ghost trace0: seq<Step>,
                         ghost passed0: seq<nat>)
      returns (enqueued: bool, round: nat, ghost trace: seq<Step>, ghost passed: seq<nat>)
      requires Valid() && client < |cfg.io| && Led(cfg, s0, trace0, s, passed0, [])
      requires first <= |rounds| && (forall i :: 0 <= i < |rounds| ==> ByOthers(rounds[i]))
      modifies this`s, this`wantedFromClients
      ensures Valid() && first <= round <= |rounds| && Led(cfg, s0, trace, s, passed0 + passed, []) && trace0 <= trace
      ensures (enqueued <==> passed != []) && (NoReturn(trace0) ==> NoReturn(trace))
      ensures s.cliActive[client] == [] && wantedFromClients[client]
      ensures first == |rounds| ==> s.cliActive == old(s).cliActive[client := []]
      ensures first == |rounds| ==> s.drvActive == old(s).drvActive + passed
      ensures first == |rounds| ==> Drained(cfg.io[client], cfg.caps[client], old(s).cliActive[client], passed, [])
    {
      enqueued, round, trace, passed := false, first, trace0, [];
      assert passed0 + passed == passed0;
      assert s.cliActive[client := s.cliActive[client]] == s.cliActive;
      DrainedFirst(cfg.io[client], cfg.caps[client], s.cliActive[client]);
      var reprocess := true;
      while reprocess
        invariant Valid() && first <= round <= |rounds| && Led(cfg, s0, trace, s, passed0 + passed, [])
        invariant trace0 <= trace && (enqueued <==> passed != []) && (NoReturn(trace0) ==> NoReturn(trace))
        invariant !reprocess ==> s.cliActive[client] == [] && wantedFromClients[client]
        invariant first == |rounds| ==> s.cliActive == old(s).cliActive[client := s.cliActive[client]]
        invariant first == |rounds| ==> s.drvActive == old(s).drvActive + passed
        invariant first == |rounds| ==> Drained(cfg.io[client], cfg.caps[client], old(s).cliActive[client], passed,
                                                s.cliActive[client])
        decreases |rounds| - round, reprocess
      {
        var some;
        ghost var more, queue := [], s.cliActive[client];
        some, round, trace, more := DrainClient(client, rounds, round, s0, trace, passed0 + passed);
        AppendAssociates(old(s).drvActive, passed, more);
        AppendAssociates(passed0, passed, more);
        if first == |rounds| {
          DrainedJoin(cfg.io[client], cfg.caps[client], old(s).cliActive[client], passed, queue, more, []);
        }
        enqueued, passed := enqueued || some, passed + more;
        wantedFromClients := wantedFromClients[client := true];
        reprocess := false;
        round, trace := NextRound(rounds, round, s0, trace, passed0 + passed, []);
        if s.cliActive[client] != [] {
          wantedFromClients := wantedFromClients[client := false];
          reprocess := true;
        }
      }
    }

    /**
     tx_provide, with any interference: a run of the system in which every client's queue was found empty after a signal
     was requested; left alone, it empties all of them. The driver is to be notified exactly if buffers were passed on
     to it in that run.
     */
    method TxProvide(rounds: seq<seq<Step>>) returns (enqueued: bool, ghost trace: seq<Step>)
      requires Valid() && (forall i :: 0 <= i < |rounds| ==> ByOthers(rounds[i]))
      modifies this`s, this`wantedFromClients
      ensures Valid() && s == Run(cfg, old(s), trace) && NoReturn(trace)
      ensures AllFound(cfg, old(s), trace, |cfg.io|)
      ensures enqueued <==> PassedIn(cfg, old(s), trace) != []
      ensures rounds == [] ==> forall i :: 0 <= i < |cfg.io| ==> s.cliActive[i] == []
      ensures rounds == [] ==> s.drvActive == old(s).drvActive + PassedIn(cfg, old(s), trace)
      ensures rounds == [] ==>
                PassedIn(cfg, old(s), trace) == AllToDriver(cfg.io, cfg.caps, old(s).cliActive, |cfg.io|)
    {
      enqueued, trace := false, [];
      ghost var passed: seq<nat> := [];
      LedFirst(cfg, s);
      AllDrainedFirst(cfg.io, cfg.caps, s.cliActive);
      var round := 0;
      for client := 0 to |cfg.io|
        invariant Valid() && 0 <= round <= |rounds| && Led(cfg, old(s), trace, s, passed, []) && NoReturn(trace)
        invariant (enqueued <==> passed != []) && (rounds == [] ==> s.drvActive == old(s).drvActive + passed)
        invariant rounds == [] ==> AllDrained(cfg.io, cfg.caps, old(s).cliActive, passed, s.cliActive, client)
        invariant AllFound(cfg, old(s), trace, client)
      {
        var some;
        ghost var more;
        ghost var before, queues := trace, s.cliActive;
        some, round, trace, more := ProvideClient(client, rounds, round, old(s), trace, passed);
        AppendAssociates(old(s).drvActive, passed, more);
        if rounds == [] {
          AllDrainedNext(cfg.io, cfg.caps, old(s).cliActive, passed, queues, client, more);
        }
        enqueued, passed := enqueued || some, passed + more;
        LedMeans(cfg, old(s), trace, s, passed, []);
        FoundNext(cfg, old(s), before, trace, client);
      }
      LedMeans(cfg, old(s), trace, s, passed, []);
      if rounds == [] {
        AllDrainedLast(cfg.io, cfg.caps, old(s).cliActive, passed, s.cliActive);
      }
    }

    /** One buffer from the driver. */
    method ReturnNow(ghost s0: State, ghost trace: seq<Step>, ghost given: seq<nat>) returns (client: nat)
      requires Valid() && s.drvFree != [] && Led(cfg, s0, trace, s, [], given)
      modifies this`s
      ensures Valid() && client < |cfg.io| && Led(cfg, s0, trace + [VirtReturn], s, [], given + [client])
      ensures s.drvFree == old(s).drvFree[1..]
      ensures exists offset :: s.cliFree == old(s).cliFree[client := old(s).cliFree[client] + [offset]]
    {
      LedOwn(cfg, s0, trace, s, [], given, VirtReturn);
      client := ReturnOne();
    }

    /** Everything the driver has returned; others run after each buffer. */
    method DrainDriver(rounds: seq<seq<Step>>, first: nat, ghost s0: State, ghost trace0: seq<Step>,
                       ghost given0: seq<nat>)
      returns (notify: set<nat>, round: nat, ghost trace: seq<Step>, ghost given: seq<nat>)
      requires Valid() && Led(cfg, s0, trace0, s, [], given0)
      requires first <= |rounds| && (forall i :: 0 <= i < |rounds| ==> ByOthers(rounds[i]))
      modifies this`s
      ensures Valid() && first <= round <= |rounds| && Led(cfg, s0, trace, s, [], given0 + given) && s.drvFree == []
      ensures (forall c :: c in notify <==> c in given) && (NoProvide(trace0) ==> NoProvide(trace))
      ensures first == |rounds| ==> |given| == |old(s).drvFree| && GivenTo(old(s).cliFree, s.cliFree, given)
    {
      notify, round, trace, given := {}, first, trace0, [];
      assert given0 + given == given0;
      while s.drvFree != []
        invariant Valid() && first <= round <= |rounds| && Led(cfg, s0, trace, s, [], given0 + given)
        invariant (forall c :: c in notify <==> c in given) && (NoProvide(trace0) ==> NoProvide(trace))
        invariant first == |rounds| ==> |given| + |s.drvFree| == |old(s).drvFree|
        invariant first == |rounds| ==> GivenTo(old(s).cliFree, s.cliFree, given)
        decreases |rounds| - round, |s.drvFree|
      {
        ghost var before := s.cliFree;
        var client := ReturnNow(s0, trace, given0 + given);
        if first == |rounds| {
          GivenOne(old(s).cliFree, before, s.cliFree, given, client);
        }
        AppendAssociates(given0, given, [client]);
        notify, trace, given := notify + {client}, trace + [VirtReturn], given + [client];
        round, trace := NextRound(rounds, round, s0, trace, [], given0 + given);
      }
    }

    /**
     tx_return, with any interference: a run of the system that ends with the driver's free queue found empty. Exactly
     the clients that were given buffers back in that run are to be notified.
     */
    method TxReturn(rounds: seq<seq<Step>>) returns (notify: set<nat>, ghost trace: seq<Step>)
      requires Valid() && (forall i :: 0 <= i < |rounds| ==> ByOthers(rounds[i]))
      modifies this`s, this`wantedFromDriver
      ensures Valid() && s == Run(cfg, old(s), trace) && s.drvFree == [] && wantedFromDriver && NoProvide(trace)
      ensures forall c :: c in notify <==> c in GivenIn(cfg, old(s), trace)
      ensures rounds == [] ==> |GivenIn(cfg, old(s), trace)| == |old(s).drvFree|
      ensures rounds == [] ==> GivenTo(old(s).cliFree, s.cliFree, GivenIn(cfg, old(s), trace))
    {
      notify, trace := {}, [];
      ghost var given: seq<nat> := [];
      ghost var first := true;
      LedFirst(cfg, s);
      var round, reprocess := 0, true;
      while reprocess
        invariant Valid() && 0 <= round <= |rounds| && Led(cfg, old(s), trace, s, [], given) && NoProvide(trace)
        invariant !reprocess ==> s.drvFree == [] && wantedFromDriver
        invariant forall c :: c in notify <==> c in given
        invariant first ==> s == old(s) && given == [] && round == 0 && reprocess
        invariant rounds == [] && !first ==>
                    !reprocess && |given| == |old(s).drvFree| && GivenTo(old(s).cliFree, s.cliFree, given)
        decreases |rounds| - round, reprocess
      {
        var some;
        ghost var more;
        some, round, trace, more := DrainDriver(rounds, round, old(s), trace, given);
        assert rounds == [] ==> given + more == more;
        notify, given, first := notify + some, given + more, false;
        wantedFromDriver := true;
        reprocess := false;
        round, trace := NextRound(rounds, round, old(s), trace, [], given);
        if s.drvFree != [] {
          wantedFromDriver := false;
          reprocess := true;
        }
      }
      LedMeans(cfg, old(s), trace, s, [], given);
    }
  }

  /** Each client's free queue got longer by as many buffers as it was given. */
  predicate GivenTo(before: seq<seq<nat>>, after: seq<seq<nat>>, given: seq<nat>)
  {
    |after| == |before| && forall c: nat :: c < |after| ==> |after[c]| == |before[c]| + Tally(given, c)
  }

  lemma GivenOne(before: seq<seq<nat>>, now: seq<seq<nat>>, after: seq<seq<nat>>, given: seq<nat>, client: nat)
    requires GivenTo(before, now, given) && client < |now|
    requires exists offset :: after == now[client := now[client] + [offset]]
    ensures GivenTo(before, after, given + [client])
  {
    TallyPush(given, client);
  }
}
