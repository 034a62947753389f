/**
 The receive side of lib_sddf_lwip (network/lib_sddf_lwip/lib_sddf_lwip.c): a pool of pbufs whose free entries form a
 list inside the pool, last freed first used, and the receive buffers each pbuf in use stands for.
 */
module PbufPool {
  import opened FreeList
  import Modular
  import opened Sequences

  /** The union in the pool: a link to the next free entry, or a pbuf for a buffer. */
  datatype Slot = Free(next: int) | InUse(offset: nat)

  /** The list from `first` runs through exactly the entries that are not in use, each once, and ends. */
  ghost predicate ListIs(slots: seq<Slot>, first: int, free: seq<nat>)
  {
    && NoRepeats(free) && Below(free, |slots|)
    && first == (if free == [] then NIL else free[0])
    && (forall i :: 0 <= i < |free| ==> slots[free[i]] == Free(NextOf(free, i)))
    && (forall id: nat :: id < |slots| && id !in free ==> slots[id].InUse?)
  }

  lemma AfterAlloc(slots: seq<Slot>, first: int, free: seq<nat>, offset: nat)
    requires ListIs(slots, first, free) && first != NIL
    ensures 0 <= first < |slots| && free != [] && slots[first].Free?
    ensures ListIs(slots[first := InUse(offset)], slots[first].next, free[1..])
  {
    var rest, slots' := free[1..], slots[first := InUse(offset)];
    assert slots[free[0]] == Free(NextOf(free, 0));
    assert free == [free[0]] + rest;
    AllocLinks(slots, free, InUse(offset));
    forall id: nat | id < |slots| && id !in rest
      ensures slots'[id].InUse?
    {
      assert id != free[0] ==> id !in free;
    }
  }

  /** The links after the first stay as they are. */
  lemma AllocLinks(slots: seq<Slot>, free: seq<nat>, x: Slot)
    requires NoRepeats(free) && Below(free, |slots|) && free != []
    requires forall i :: 0 <= i < |free| ==> slots[free[i]] == Free(NextOf(free, i))
    ensures var rest := free[1..];
            NoRepeats(rest) && Below(rest, |slots|)
            && forall i :: 0 <= i < |rest| ==> slots[free[0] := x][rest[i]] == Free(NextOf(rest, i))
  {
    var rest := free[1..];
    forall i | 0 <= i < |rest|
      ensures slots[free[0] := x][rest[i]] == Free(NextOf(rest, i))
    {
      assert rest[i] == free[i + 1] != free[0];
      assert slots[free[i + 1]] == Free(NextOf(free, i + 1));
    }
  }

  lemma AfterFree(slots: seq<Slot>, first: int, free: seq<nat>, idx: nat)
    requires ListIs(slots, first, free) && idx < |slots| && idx !in free
    ensures ListIs(slots[idx := Free(first)], idx, [idx] + free)
  {
    var free', slots' := [idx] + free, slots[idx := Free(first)];
    assert forall i :: 0 <= i < |free| ==> free[i] in free;
    forall i | 0 <= i < |free'|
      ensures slots'[free'[i]] == Free(NextOf(free', i))
    {
      if i > 0 {
        assert slots[free[i - 1]] == Free(NextOf(free, i - 1));
      }
    }
  }

  /** pbuf_pool_free's check of a pointer, given as its distance from the pool in bytes. */
  predicate FreeAccepts(delta: int, size: nat, capacity: nat)
    requires size > 0
  {
    !(delta < 0 || delta > capacity * size || delta % size != 0)
  }

  /** It accepts the entries of the pool, and the one past the end. */
  lemma FreeAcceptsExactly(idx: int, size: nat, capacity: nat)
    requires size > 0
    ensures FreeAccepts(idx * size, size, capacity) <==> 0 <= idx <= capacity
  {
    assert (idx * size) % size == 0 by {
      Multiple(idx, size);
    }
    if 0 <= idx <= capacity {
      Monotone(idx, capacity, size);
      Monotone(0, idx, size);
    } else if idx > capacity {
      Monotone(capacity + 1, idx, size);
      assert (capacity + 1) * size == capacity * size + size;
    } else {
      Monotone(idx, -1, size);
    }
  }

  /** pbuf_pool_free of an entry, or of the one past the end, whose link lies outside the pool. */
  function SlotsAfterFree(slots: seq<Slot>, first: int, idx: nat): seq<Slot>
  {
    if idx < |slots| then slots[idx := Free(first)] else slots
  }

  /** Freeing an entry that is free closes a cycle: whatever the list is taken to be, it comes back to that entry. */
  lemma {:induction false} FreedTwice(slots: seq<Slot>, first: int, free: seq<nat>, place: nat, free': seq<nat>, k: nat)
    requires ListIs(slots, first, free) && place < |free| && k <= place
    requires ListIs(slots[free[place] := Free(first)], free[place], free')
    ensures k + 1 < |free'| && free'[k + 1] == free[k]
  {
    var slots' := slots[free[place] := Free(first)];
    if k == 0 {
      assert slots'[free'[0]] == Free(NextOf(free', 0));
    } else {
      FreedTwice(slots, first, free, place, free', k - 1);
      assert slots'[free'[k]] == Free(NextOf(free', k));
      assert slots[free[k - 1]] == Free(NextOf(free, k - 1));
    }
  }

  /** Of what it accepts, it keeps the pool's list a list exactly for the entries of the pool that are in use. */
  lemma FreeKeepsListExactly(slots: seq<Slot>, first: int, free: seq<nat>, idx: nat)
    requires ListIs(slots, first, free) && idx <= |slots|
    ensures (exists free' :: ListIs(SlotsAfterFree(slots, first, idx), idx, free')) <==> idx < |slots| && idx !in free
  {
    if idx in free {
      var place :| 0 <= place < |free| && free[place] == idx;
      forall free' | ListIs(SlotsAfterFree(slots, first, idx), idx, free')
        ensures false
      {
        FreedTwice(slots, first, free, place, free', place);
      }
    } else if idx < |slots| {
      AfterFree(slots, first, free, idx);
      assert ListIs(SlotsAfterFree(slots, first, idx), idx, [idx] + free);
    }
  }

  /** A pool of two free entries, the first of which is freed again: the entry after it is that entry. */
  lemma FreedTwiceInstance()
    ensures var slots := [Free(1), Free(NIL)];
            && ListIs(slots, 0, [0, 1]) && FreeAccepts(0, 8, 2)
            && SlotsAfterFree(slots, 0, 0)[0] == Free(0)
            && !exists free' :: ListIs(SlotsAfterFree(slots, 0, 0), 0, free')
  {
    var slots := [Free(1), Free(NIL)];
    assert ListIs(slots, 0, [0, 1]);
    FreeKeepsListExactly(slots, 0, [0, 1], 0);
  }

  lemma Multiple(k: int, n: nat)
    requires n > 0
    ensures (k * n) % n == 0
  {
    Modular.DivModUnique(k * n, k, 0, n);
  }

  lemma Monotone(a: int, b: int, n: nat)
    requires a <= b
    ensures a * n <= b * n
  {
    Modular.MulNonNegative(b - a, n);
    assert b * n == a * n + (b - a) * n;
  }

  // ---- Buffers and pbufs --------------------------------------------------------------------------------

  /**
   active, freeQ: the client's two receive queues; outside: buffers the virtualiser has; used: entries in use, free:
   those that are not, in the order of the list.
   */
  datatype State = State(active: seq<nat>, freeQ: seq<nat>, outside: seq<nat>,
                         slots: seq<Slot>, first: int, used: seq<nat>, free: seq<nat>)

  datatype Step =
    | Give(k: nat)      // the virtualiser passes a received buffer on
    | Collect           // and takes back a returned one
    | Input             // sddf_lwip_process_rx hands a buffer to the stack
    | Release(k: nat)   // the stack frees a pbuf

  predicate Enabled(s: State, step: Step)
  {
    match step
    case Give(k) => k < |s.outside|
    case Collect => s.freeQ != []
    case Input => s.active != [] && s.first != NIL
    case Release(k) => k < |s.used|
  }

  /** The buffers these entries stand for. */
  function Offsets(slots: seq<Slot>, ids: seq<nat>): (r: seq<nat>)
    ensures |r| == |ids|
    ensures forall i :: 0 <= i < |ids| ==> r[i] == if ids[i] < |slots| && slots[ids[i]].InUse? then slots[ids[i]].offset
              else 0
  {
    seq(|ids|, i requires 0 <= i < |ids| =>
      if ids[i] < |slots| && slots[ids[i]].InUse? then slots[ids[i]].offset else 0)
  }

  function GiveOne(s: State, k: nat): State
    requires k < |s.outside|
  {
    s.(outside := Drop(s.outside, k), active := s.active + [s.outside[k]])
  }

  function CollectOne(s: State): State
    requires s.freeQ != []
  {
    s.(freeQ := s.freeQ[1..], outside := s.outside + [s.freeQ[0]])
  }

  /** create_interface_buffer for the oldest received buffer. */
  function InputOne(s: State): State
    requires s.active != [] && 0 <= s.first < |s.slots| && s.slots[s.first].Free? && s.free != []
  {
    s.(active := s.active[1..],
       slots := s.slots[s.first := InUse(s.active[0])],
       first := s.slots[s.first].next,
       used := s.used + [s.first],
       free := s.free[1..])
  }

  /** interface_free_buffer. */
  function ReleaseOne(s: State, k: nat): State
    requires k < |s.used| && s.used[k] < |s.slots| && s.slots[s.used[k]].InUse?
  {
    var idx := s.used[k];
    s.(freeQ := s.freeQ + [s.slots[idx].offset],
       slots := s.slots[idx := Free(s.first)],
       first := idx,
       used := Drop(s.used, k),
       free := [idx] + s.free)
  }

  function Places(s: State, b: nat): nat
  {
    Tally(s.active, b) + Tally(s.freeQ, b) + Tally(s.outside, b) + Tally(Offsets(s.slots, s.used), b)
  }

  /** Entries are free or in use; every buffer is in one place, or in use through one entry. */
  ghost predicate Inv(s: State, total: seq<nat>)
  {
    && ListIs(s.slots, s.first, s.free)
    && NoRepeats(s.used) && Below(s.used, |s.slots|) && (forall i :: 0 <= i < |s.used| ==> s.used[i] !in s.free)
    && |s.used| + |s.free| == |s.slots|
    && |s.active| + |s.freeQ| + |s.outside| + |s.used| == |total|
    && forall b: nat :: Places(s, b) == Tally(total, b)
  }

  lemma SamePlaces(s: State, s': State, total: seq<nat>)
    requires forall b: nat :: Places(s, b) == Tally(total, b)
    requires forall b: nat :: Places(s', b) == Places(s, b)
    ensures forall b: nat :: Places(s', b) == Tally(total, b)
  {
  }

  lemma GiveKeeps(s: State, total: seq<nat>, k: nat)
    requires Inv(s, total) && k < |s.outside|
    ensures Inv(GiveOne(s, k), total)
  {
    TallyDrop(s.outside, k);
    TallyPush(s.active, s.outside[k]);
    assert forall b: nat :: Places(GiveOne(s, k), b) == Places(s, b);
    SamePlaces(s, GiveOne(s, k), total);
  }

  lemma CollectKeeps(s: State, total: seq<nat>)
    requires Inv(s, total) && s.freeQ != []
    ensures Inv(CollectOne(s), total)
  {
    TallyPop(s.freeQ);
    TallyPush(s.outside, s.freeQ[0]);
    assert forall b: nat :: Places(CollectOne(s), b) == Places(s, b);
    SamePlaces(s, CollectOne(s), total);
  }

  /** Writing an entry that is not among these leaves the buffers they stand for. */
  lemma OffsetsFrame(slots: seq<Slot>, ids: seq<nat>, idx: nat, x: Slot)
    requires idx < |slots| && forall i :: 0 <= i < |ids| ==> ids[i] != idx
    ensures Offsets(slots[idx := x], ids) == Offsets(slots, ids)
  {
  }

  lemma InputPlaces(s: State)
    requires s.active != [] && 0 <= s.first < |s.slots| && s.slots[s.first].Free? && s.free != []
    requires forall i :: 0 <= i < |s.used| ==> s.used[i] != s.first
    ensures forall b: nat :: Places(InputOne(s), b) == Places(s, b)
  {
    var s', x := InputOne(s), s.active[0];
    TallyPop(s.active);
    OffsetsFrame(s.slots, s.used, s.first, InUse(x));
    assert Offsets(s'.slots, s'.used) == Offsets(s.slots, s.used) + [x];
    TallyPush(Offsets(s.slots, s.used), x);
  }

  /** The first free entry joins those in use. */
  lemma UsedGrows(used: seq<nat>, free: seq<nat>, n: nat)
    requires NoRepeats(used) && Below(used, n) && NoRepeats(free) && Below(free, n) && free != []
    requires forall i :: 0 <= i < |used| ==> used[i] !in free
    ensures var used' := used + [free[0]];
            NoRepeats(used') && Below(used', n) && forall i :: 0 <= i < |used'| ==> used'[i] !in free[1..]
  {
    assert free == [free[0]] + free[1..];
    assert free[0] !in free[1..];
  }

  lemma InputKeeps(s: State, total: seq<nat>)
    requires Inv(s, total) && Enabled(s, Input)
    ensures 0 <= s.first < |s.slots| && s.slots[s.first].Free? && s.free != [] && Inv(InputOne(s), total)
  {
    AfterAlloc(s.slots, s.first, s.free, s.active[0]);
    UsedGrows(s.used, s.free, |s.slots|);
    assert forall i :: 0 <= i < |s.used| ==> s.used[i] != s.first;
    InputPlaces(s);
    SamePlaces(s, InputOne(s), total);
  }

  lemma ReleasePlaces(s: State, k: nat)
    requires k < |s.used| && Below(s.used, |s.slots|) && NoRepeats(s.used) && s.slots[s.used[k]].InUse?
    ensures forall b: nat :: Places(ReleaseOne(s, k), b) == Places(s, b)
  {
    var s', idx := ReleaseOne(s, k), s.used[k];
    var rest, before := Drop(s.used, k), Offsets(s.slots, s.used);
    forall i | 0 <= i < |rest|
      ensures rest[i] != idx
    {
      assert rest[i] == s.used[if i < k then i else i + 1];
    }
    OffsetsFrame(s.slots, rest, idx, Free(s.first));
    assert Offsets(s.slots, rest) == Drop(before, k);
    TallyDrop(before, k);
    TallyPush(s.freeQ, s.slots[idx].offset);
  }

  /** The entries left when one is released are distinct, and not that one. */
  lemma RestOf(used: seq<nat>, k: nat, n: nat)
    requires k < |used| && NoRepeats(used) && Below(used, n)
    ensures var rest := Drop(used, k);
            NoRepeats(rest) && Below(rest, n) && forall i :: 0 <= i < |rest| ==> rest[i] != used[k] && rest[i] in used
  {
    var rest := Drop(used, k);
    forall i | 0 <= i < |rest|
      ensures rest[i] == used[if i < k then i else i + 1]
    {
    }
  }

  lemma ReleaseKeeps(s: State, total: seq<nat>, k: nat)
    requires Inv(s, total) && k < |s.used|
    ensures s.used[k] < |s.slots| && s.slots[s.used[k]].InUse? && Inv(ReleaseOne(s, k), total)
  {
    var idx := s.used[k];
    AfterFree(s.slots, s.first, s.free, idx);
    ReleasePlaces(s, k);
    SamePlaces(s, ReleaseOne(s, k), total);
    RestOf(s.used, k, |s.slots|);
  }

  // ---- Runs ---------------------------------------------------------------------------------------------

  /** Names the places where a proof looks into a state that a run leads to. */
  predicate Probed(k: int, s: State)
  {
    true
  }

  /** The invariant, out of sight of proofs that do not need it. */
  ghost predicate Sound(s: State, total: seq<nat>)
  {
    forall k: int {:trigger Probed(k, s)} :: Probed(k, s) ==> Inv(s, total)
  }

  lemma SoundMeans(s: State, total: seq<nat>)
    ensures Sound(s, total) <==> Inv(s, total)
  {
    assert Probed(0, s);
  }

  /** A step, if it can be taken. */
  function Apply(s: State, step: Step, ghost total: seq<nat>): (s': State)
    requires Sound(s, total)
    ensures Sound(s', total) && |s'.slots| == |s.slots|
  {
    SoundMeans(s, total);
    if !Enabled(s, step) then s else
    match step
    case Give(k) => GiveKeeps(s, total, k); SoundMeans(GiveOne(s, k), total); GiveOne(s, k)
    case Collect => CollectKeeps(s, total); SoundMeans(CollectOne(s), total); CollectOne(s)
    case Input => InputKeeps(s, total); SoundMeans(InputOne(s), total); InputOne(s)
    case Release(k) => ReleaseKeeps(s, total, k); SoundMeans(ReleaseOne(s, k), total); ReleaseOne(s, k)
  }

  function Run(s: State, steps: seq<Step>, ghost total: seq<nat>): (s': State)
    requires Sound(s, total)
    ensures Sound(s', total) && |s'.slots| == |s.slots|
  {
    if steps == [] then s else Apply(Run(s, steps[..|steps| - 1], total), steps[|steps| - 1], total)
  }

  /** Buffers wait and no pbuf is left: sddf_lwip_process_rx would go round and round. */
  predicate Spins(s: State)
  {
    s.active != [] && s.first == NIL
  }

  /** The pbufs in use are as many as the buffers taken and not returned, so a waiting buffer finds one if all could. */
  lemma NeverSpins(s: State, total: seq<nat>)
    requires Sound(s, total) && |total| <= |s.slots|
    ensures !Spins(s)
  {
    SoundMeans(s, total);
  }

  function InitialSlots(n: nat): (r: seq<Slot>)
    ensures |r| == n && forall i :: 0 <= i < n ==> r[i] == Free(if i + 1 < n then i + 1 else NIL)
  {
    seq(n, i => Free(if i + 1 < n then i + 1 else NIL))
  }

  /** pbuf_pool_init: as a loop over the pool. */
  method PoolInit(count: nat) returns (slots: seq<Slot>, first: int)
    requires count != 0
    ensures slots == InitialSlots(count) && first == 0 && ListIs(slots, first, Identity(count))
  {
    first, slots := 0, Fill(count, Free(0));
    for i := 0 to count - 1
      invariant |slots| == count && forall k :: 0 <= k < i ==> slots[k] == Free(k + 1)
    {
      slots := slots[i := Free(i + 1)];
    }
    slots := slots[count - 1 := Free(NIL)];
    InitialList(count);
  }

  lemma InitialList(n: nat)
    requires n > 0
    ensures ListIs(InitialSlots(n), 0, Identity(n))
  {
    var slots, free := InitialSlots(n), Identity(n);
    forall i | 0 <= i < n
      ensures slots[free[i]] == Free(NextOf(free, i)) && i in free
    {
      assert free[i] == i;
    }
  }

  /** All buffers outside, all pbufs free. */
  function Init(count: nat, total: seq<nat>): State
  {
    State([], [], total, InitialSlots(count), if count > 0 then 0 else NIL, [], Identity(count))
  }

  lemma InitInv(count: nat, total: seq<nat>)
    requires count > 0
    ensures Sound(Init(count, total), total)
  {
    InitialList(count);
    assert Offsets(InitialSlots(count), []) == [];
    SoundMeans(Init(count, total), total);
  }

  /** After j rounds of a buffer given and handed to a stack that keeps it. */
  lemma {:induction false} KeepsEverything(count: nat, total: seq<nat>, j: nat) returns (steps: seq<Step>)
    requires count > 0 && j <= count && j <= |total|
    ensures Sound(Init(count, total), total)
    ensures var s := Run(Init(count, total), steps, total);
            |s.outside| == |total| - j && |s.used| == j && s.active == []
  {
    InitInv(count, total);
    var s0 := Init(count, total);
    if j == 0 {
      steps := [];
    } else {
      var before := KeepsEverything(count, total, j - 1);
      var s := Run(s0, before, total);
      steps := before + [Give(0)] + [Input];
      assert (before + [Give(0)])[..|before|] == before && steps[..|before| + 1] == before + [Give(0)];
      var t := Run(s0, before + [Give(0)], total);
      SoundMeans(s, total);
      SoundMeans(t, total);
      assert t == GiveOne(s, 0) && t.free != [];
      assert Run(s0, steps, total) == Apply(t, Input, total);
    }
  }

  /**
   With fewer pbufs than buffers, a stack that keeps all it is given leads to a state that spins; otherwise none does.
   */
  lemma EnoughPbufs(count: nat, total: seq<nat>)
    requires count > 0
    ensures Sound(Init(count, total), total)
    ensures (forall steps: seq<Step> :: !SpinsAfter(count, total, steps)) <==> |total| <= count
  {
    InitInv(count, total);
    if |total| <= count {
      forall steps: seq<Step>
        ensures !SpinsAfter(count, total, steps)
      {
        NeverSpins(Run(Init(count, total), steps, total), total);
      }
    } else {
      var steps := SpinsAtLast(count, total);
      assert SpinsAfter(count, total, steps);
    }
  }

  ghost predicate SpinsAfter(count: nat, total: seq<nat>, steps: seq<Step>)
    requires Sound(Init(count, total), total)
  {
    Spins(Run(Init(count, total), steps, total))
  }

  lemma SpinsAtLast(count: nat, total: seq<nat>) returns (steps: seq<Step>)
    requires 0 < count < |total|
    ensures Sound(Init(count, total), total) && Spins(Run(Init(count, total), steps, total))
  {
    InitInv(count, total);
    var s0 := Init(count, total);
    var before := KeepsEverything(count, total, count);
    steps := before + [Give(0)];
    assert steps[..|before|] == before;
    SoundMeans(Run(s0, before, total), total);
  }

  // ---- The handler -----------------------------------------------------------------------------------------

  /** Steps of the virtualiser and the stack. */
  predicate ByOthers(steps: seq<Step>)
  {
    forall i :: 0 <= i < |steps| ==> !steps[i].Input?
  }

  /** The buffer handed to the stack at this step, if any. */
  function InputBy(s: State, step: Step): seq<nat>
  {
    if step.Input? && Enabled(s, step) then [s.active[0]] else []
  }

  /** The buffers handed to the stack in a run, in order. */
  ghost function InputIn(s: State, steps: seq<Step>, total: seq<nat>): seq<nat>
    requires Sound(s, total)
  {
    if steps == [] then []
    else
      var init, last := steps[..|steps| - 1], steps[|steps| - 1];
      InputIn(s, init, total) + InputBy(Run(s, init, total), last)
  }

  /** The buffers the virtualiser passes on in a run, in order. */
  function GivenBy(s: State, step: Step): seq<nat>
  {
    if step.Give? && Enabled(s, step) then [s.outside[step.k]] else []
  }

  ghost function GivenIn(s: State, steps: seq<Step>, total: seq<nat>): seq<nat>
    requires Sound(s, total)
  {
    if steps == [] then []
    else
      var init, last := steps[..|steps| - 1], steps[|steps| - 1];
      GivenIn(s, init, total) + GivenBy(Run(s, init, total), last)
  }

  lemma StepInOrder(s: State, step: Step, total: seq<nat>)
    requires Sound(s, total)
    ensures s.active + GivenBy(s, step) == InputBy(s, step) + Apply(s, step, total).active
  {
  }

  /** In every run, buffers reach the stack in the order the virtualiser passed them on, and none is left out. */
  lemma {:induction false} InputAsGiven(s: State, steps: seq<Step>, total: seq<nat>)
    requires Sound(s, total)
    ensures s.active + GivenIn(s, steps, total) == InputIn(s, steps, total) + Run(s, steps, total).active
  {
    if steps != [] {
      var init, last := steps[..|steps| - 1], steps[|steps| - 1];
      InputAsGiven(s, init, total);
      var t := Run(s, init, total);
      StepInOrder(t, last, total);
      OneMoreInOrder(s.active, GivenIn(s, init, total), InputIn(s, init, total), t.active, GivenBy(t, last),
                     InputBy(t, last), Apply(t, last, total).active);
    }
  }

  lemma RunOne(s: State, a: seq<Step>, step: Step, total: seq<nat>)
    requires Sound(s, total)
    ensures Run(s, a + [step], total) == Apply(Run(s, a, total), step, total)
    ensures InputIn(s, a + [step], total) == InputIn(s, a, total) + InputBy(Run(s, a, total), step)
  {
    assert (a + [step])[..|a|] == a;
  }

  lemma {:induction false} RunOthers(s: State, a: seq<Step>, b: seq<Step>, total: seq<nat>)
    requires Sound(s, total) && ByOthers(b)
    ensures Run(s, a + b, total) == Run(Run(s, a, total), b, total)
    ensures InputIn(s, a + b, total) == InputIn(s, a, total)
  {
    if b == [] {
      assert a + b == a;
    } else {
      var init, last := b[..|b| - 1], b[|b| - 1];
      RunOthers(s, a, init, total);
      AppendAssociates(a, init, [last]);
      assert b == init + [last];
      RunOne(s, a + init, last, total);
      RunOne(Run(s, a, total), init, last, total);
    }
  }

  /** Names the places where a proof looks into the handler's run. */
  predicate Inspected(k: int, s: State, trace: seq<Step>)
  {
    true
  }

  /** This run led from one state to the other, handing these buffers to the stack. */
  ghost predicate Led(s0: State, trace: seq<Step>, s: State, input: seq<nat>, total: seq<nat>)
  {
    forall k: int {:trigger Inspected(k, s, trace)} :: Inspected(k, s, trace) ==> LedSo(s0, trace, s, input, total)
  }

  ghost predicate LedSo(s0: State, trace: seq<Step>, s: State, input: seq<nat>, total: seq<nat>)
  {
    Sound(s0, total) && s == Run(s0, trace, total) && input == InputIn(s0, trace, total)
  }

  lemma LedMeans(s0: State, trace: seq<Step>, s: State, input: seq<nat>, total: seq<nat>)
    ensures Led(s0, trace, s, input, total) <==> LedSo(s0, trace, s, input, total)
  {
    assert Inspected(0, s, trace);
  }

  lemma LedFirst(s: State, total: seq<nat>)
    requires Sound(s, total)
    ensures Led(s, [], s, [], total)
  {
    LedMeans(s, [], s, [], total);
  }

  lemma LedInput(s0: State, trace: seq<Step>, s: State, input: seq<nat>, total: seq<nat>)
    requires Led(s0, trace, s, input, total) && Sound(s, total) && Enabled(s, Input)
    ensures Led(s0, trace + [Input], Apply(s, Input, total), input + [s.active[0]], total)
  {
    LedMeans(s0, trace, s, input, total);
    RunOne(s0, trace, Input, total);
    LedMeans(s0, trace + [Input], Apply(s, Input, total), input + [s.active[0]], total);
  }

  lemma LedOthers(s0: State, trace: seq<Step>, s: State, input: seq<nat>, steps: seq<Step>, total: seq<nat>)
    requires Led(s0, trace, s, input, total) && Sound(s, total) && ByOthers(steps)
    ensures Led(s0, trace + steps, Run(s, steps, total), input, total)
  {
    LedMeans(s0, trace, s, input, total);
    RunOthers(s0, trace, steps, total);
    LedMeans(s0, trace + steps, Run(s, steps, total), input, total);
  }

  /** What waited at the start has been handed to the stack, once nothing waits. */
  lemma LedEmptied(s0: State, trace: seq<Step>, s: State, input: seq<nat>, total: seq<nat>)
    requires Led(s0, trace, s, input, total) && s.active == []
    ensures s0.active <= input
  {
    LedMeans(s0, trace, s, input, total);
    InputAsGiven(s0, trace, total);
    assert input + [] == input;
  }

  class Client {
    var s: State
    var signalWanted: bool
    ghost const total: seq<nat>

    ghost predicate Valid()
      reads this
    {
      Sound(s, total) && |total| <= |s.slots|
    }

    constructor (count: nat, buffers: seq<nat>)
      requires 0 < count && |buffers| <= count
      ensures Valid() && s == Init(count, buffers) && total == buffers
    {
      s, signalWanted, total := Init(count, buffers), false, buffers;
      new;
      InitInv(count, total);
    }

    method Others(steps: seq<Step>)
      requires Valid() && ByOthers(steps)
      modifies this`s
      ensures Valid() && s == Run(old(s), steps, total)
    {
      s := Run(s, steps, total);
    }

    /** pbuf_pool_alloc, and the offset put into the pbuf. */
    method CreateInterfaceBuffer(offset: nat) returns (idx: int)
      requires ListIs(s.slots, s.first, s.free)
      modifies this`s
      ensures old(s).first == NIL ==> idx == NIL && s == old(s)
      ensures old(s).first != NIL ==>
                idx == old(s).first && 0 <= idx < |old(s).slots| && old(s).slots[idx].Free?
                && old(s).free != []
      ensures old(s).first != NIL ==>
        s == old(s).(slots := old(s).slots[idx := InUse(offset)], first := old(s).slots[idx].next,
                     used := old(s).used + [idx], free := old(s).free[1..])
    {
      if s.first == NIL {
        return NIL;
      }
      AfterAlloc(s.slots, s.first, s.free, offset);
      idx := s.first;
      s := s.(first := s.slots[idx].next);
      s := s.(slots := s.slots[idx := InUse(offset)], used := s.used + [idx], free := s.free[1..]);
    }

    /** interface_free_buffer: the buffer goes back and the pbuf to the front of the list; the free queue has room. */
    method InterfaceFreeBuffer(k: nat, queueCapacity: nat)
      requires Valid() && k < |s.used| && |total| <= queueCapacity
      modifies this`s
      ensures Valid() && s == Apply(old(s), Release(k), total)
    {
      SoundMeans(s, total);
      ReleaseKeeps(s, total, k);
      SoundMeans(ReleaseOne(s, k), total);
      var idx := s.used[k];
      assert |s.freeQ| < queueCapacity;
      s := s.(freeQ := s.freeQ + [s.slots[idx].offset]);
      s := s.(slots := s.slots[idx := Free(s.first)], first := idx, used := Drop(s.used, k), free := [idx] + s.free);
    }

    /** One buffer to the stack; the assertion that there is a pbuf holds. */
    method InputBuffer()
      requires Valid() && Enabled(s, Input)
      modifies this`s
      ensures Valid() && s == Apply(old(s), Input, total)
    {
      SoundMeans(s, total);
      InputKeeps(s, total);
      SoundMeans(InputOne(s), total);
      var buffer := s.active[0];
      s := s.(active := s.active[1..]);
      var p := CreateInterfaceBuffer(buffer);
      assert p != NIL;
    }

    /** Stack and virtualiser act, if there is anything left of what they do. */
    method NextRound(rounds: seq<seq<Step>>, round: nat, ghost s0: State, ghost trace: seq<Step>, ghost input: seq<nat>)
      returns (round': nat, ghost trace': seq<Step>)
      requires Valid() && round <= |rounds| && forall i :: 0 <= i < |rounds| ==> ByOthers(rounds[i])
      requires Led(s0, trace, s, input, total)
      modifies this`s
      ensures Valid() && round <= round' <= |rounds| && Led(s0, trace', s, input, total)
      ensures round' == round ==> round == |rounds| && s == old(s) && trace' == trace
    {
      round', trace' := round, trace;
      if round < |rounds| {
        LedOthers(s0, trace, s, input, rounds[round], total);
        Others(rounds[round]);
        round', trace' := round + 1, trace + rounds[round];
      }
    }

    /** One buffer to the stack, as part of a run. */
    method InputNext(ghost s0: State, ghost trace: seq<Step>, ghost input: seq<nat>)
      requires Valid() && Enabled(s, Input) && Led(s0, trace, s, input, total)
      modifies this`s
      ensures Valid() && Led(s0, trace + [Input], s, input + [old(s).active[0]], total)
      ensures s.active == old(s).active[1..]
    {
      LedInput(s0, trace, s, input, total);
      InputBuffer();
    }

    /** The inner loop: buffers to the stack, while there are pbufs. */
    method InputAll(rounds: seq<seq<Step>>, first: nat, ghost s0: State, ghost trace0: seq<Step>,
                    ghost input0: seq<nat>)
      returns (round: nat, ghost trace: seq<Step>, ghost input: seq<nat>)
      requires Valid() && first <= |rounds| && forall i :: 0 <= i < |rounds| ==> ByOthers(rounds[i])
      requires Led(s0, trace0, s, input0, total)
      requires rounds == [] ==> trace0 == Fill(|input0|, Input) && s0.active == input0 + s.active
      modifies this`s
      ensures Valid() && first <= round <= |rounds| && Led(s0, trace, s, input, total) && s.active == []
      ensures rounds == [] ==> trace == Fill(|input|, Input) && s0.active == input + s.active
    {
      round, trace, input := first, trace0, input0;
      while s.active != [] && s.first != NIL
        invariant Valid() && first <= round <= |rounds| && Led(s0, trace, s, input, total)
        invariant rounds == [] ==> trace == Fill(|input|, Input) && s0.active == input + s.active
        decreases |rounds| - round, |s.active|
      {
        ghost var buffer := s.active[0];
        AppendMove(input, s.active);
        InputNext(s0, trace, input);
        trace, input := trace + [Input], input + [buffer];
        round, trace := NextRound(rounds, round, s0, trace, input);
      }
      NeverSpins(s, total);
    }

    /**
     sddf_lwip_process_rx, whatever stack and virtualiser do after each buffer: a run of the system that comes to an end
     with no buffer waiting and a signal wanted, in which all that waited at entry has reached the stack, in order. Left
     alone, it hands over exactly these, and does nothing else.
     */
    method ProcessRx(rounds: seq<seq<Step>>) returns (ghost trace: seq<Step>)
      requires Valid() && forall i :: 0 <= i < |rounds| ==> ByOthers(rounds[i])
      modifies this`s, this`signalWanted
      ensures Valid() && s.active == [] && signalWanted
      ensures Sound(old(s), total) && s == Run(old(s), trace, total) && old(s).active <= InputIn(old(s), trace, total)
      ensures rounds == [] ==> trace == Fill(|old(s).active|, Input) && InputIn(old(s), trace, total) == old(s).active
    {
      ghost var s0, input: seq<nat> := s, [];
      var reprocess, round := true, 0;
      trace := [];
      LedFirst(s, total);
      assert s.active == [] + s.active;
      while reprocess
        invariant Valid() && 0 <= round <= |rounds| && (!reprocess ==> s.active == [] && signalWanted)
        invariant Led(s0, trace, s, input, total)
        invariant rounds == [] ==> trace == Fill(|input|, Input) && s0.active == input + s.active
        decreases |rounds| - round, reprocess
      {
        round, trace, input := InputAll(rounds, round, s0, trace, input);
        signalWanted := true;
        reprocess := false;
        round, trace := NextRound(rounds, round, s0, trace, input);
        if s.active != [] {
          signalWanted := false;
          reprocess := true;
        }
      }
      LedEmptied(s0, trace, s, input, total);
      LedMeans(s0, trace, s, input, total);
      assert input + [] == input;
    }
  }
}
