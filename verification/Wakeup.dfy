/**
 The signal protocol of the network queues: one producer and one consumer of a queue, interleaved at single queue and
 flag operations. `wanted` is the queue's consumer_signalled flag, inverted; `pending` is the notification the kernel
 holds for the consumer.

 A consumer is either unbounded (the virtualisers and the copier take everything from a queue) or the receive half of
 an Ethernet driver, which moves free buffers into a hardware ring of `cap` slots, only wants a signal while the ring
 has room, and is also woken by the device's interrupt.
 */
module Wakeup {
  /**
   sticky: the producer remembers an unsent signal from one handler to the next (notify_drv), instead of starting each
   handler afresh. recheck: the consumer looks at the queue again after asking for a signal.
   */
  datatype Config = Config(bounded: bool, cap: nat, sticky: bool, recheck: bool)

  datatype Consumer = Sleep | Return | Drain | Request | Recheck | Cancel

  datatype Producer = Idle | Working | Deciding | Notify

  /**
   due: the producer will look at the flag when its handler ends. news: it enqueued since it last did.
   used, done, irq: slots of the ring in use, those of them the device completed, the device's event bit.
   */
  datatype State = State(len: nat, wanted: bool, pending: bool, cons: Consumer, prod: Producer, due: bool, news: bool,
                         used: nat, done: nat, irq: bool)

  datatype Step =
    | PStart | PEnqueue | PCheck | PCancel | PNotify
    | CWake | CIrq | CSpurious | CRun
    | DComplete

  const INIT: State := State(0, true, false, Sleep, Idle, false, false, 0, 0, false)

  predicate Room(cfg: Config, s: State)
  {
    !cfg.bounded || s.used < cfg.cap
  }

  predicate Work(cfg: Config, s: State)
  {
    s.len > 0 && Room(cfg, s)
  }

  /** rx_return of the driver finds a completed slot at the head of the ring. */
  predicate Pops(s: State)
  {
    s.cons.Return? && s.done > 0 && s.used > 0
  }

  /** The consumer dequeues; a driver arms a slot of its ring with the buffer. */
  predicate Takes(cfg: Config, s: State)
  {
    s.cons.Drain? && Work(cfg, s)
  }

  /** What the consumer does after its operation at this point, unless that was a pop or a take. */
  function Then(cfg: Config, s: State): Consumer
  {
    match s.cons
    case Sleep => Sleep
    case Return => Drain
    case Drain => Request
    case Request => Recheck
    case Recheck => if cfg.recheck && Work(cfg, s) then Cancel else Sleep
    case Cancel => Drain
  }

  /** The consumer's next operation while its handler runs. */
  function Consume(cfg: Config, s: State): State
  {
    s.(len := if Takes(cfg, s) then s.len - 1 else s.len,
       used := if Pops(s) then s.used - 1 else if Takes(cfg, s) && cfg.bounded then s.used + 1 else s.used,
       done := if Pops(s) then s.done - 1 else s.done,
       wanted := if s.cons.Request? then Room(cfg, s) else s.wanted && !s.cons.Cancel?,
       cons := if Pops(s) || Takes(cfg, s) then s.cons else Then(cfg, s))
  }

  function Produce(cfg: Config, s: State, step: Step): State
  {
    match step
    case PStart => if s.prod.Idle? then s.(prod := Working, due := s.due && cfg.sticky) else s
    case PEnqueue => if s.prod.Working? then s.(len := s.len + 1, due := true, news := true) else s
    case PCheck =>
      if s.prod.Working? then s.(news := false, prod := if s.due && s.wanted then Deciding else Idle) else s
    case PCancel => if s.prod.Deciding? then s.(wanted := false, prod := Notify) else s
    case PNotify => if s.prod.Notify? then s.(pending := true, due := false, prod := Idle) else s
    case _ => s
  }

  function Next(cfg: Config, s: State, step: Step): State
  {
    match step
    case CWake => if s.cons.Sleep? && s.pending then s.(pending := false, cons := Drain) else s
    case CIrq => if s.cons.Sleep? && s.irq then s.(irq := false, cons := Return) else s
    case CSpurious => if s.cons.Sleep? then s.(cons := Drain) else s
    case CRun => Consume(cfg, s)
    case DComplete => if s.done < s.used then s.(done := s.done + 1, irq := true) else s
    case _ => Produce(cfg, s, step)
  }

  /** What remains after a run; steps that are not enabled do nothing. */
  function Run(cfg: Config, s: State, steps: seq<Step>): State
  {
    if steps == [] then s else Next(cfg, Run(cfg, s, steps[..|steps| - 1]), steps[|steps| - 1])
  }

  /** The producer has yet to look at the flag since it enqueued, or has seen it and is about to notify. */
  predicate Committed(s: State)
  {
    (s.prod.Working? && s.news) || s.prod.Deciding? || s.prod.Notify?
  }

  /** A sleeping consumer with something to take has a notification on its way. */
  predicate NotLost(cfg: Config, s: State)
  {
    s.cons.Sleep? && Work(cfg, s) ==> s.pending || Committed(s)
  }

  predicate Inv(cfg: Config, s: State)
  {
    && s.done <= s.used && (cfg.bounded ==> s.used <= cfg.cap)
    && (s.news ==> s.due && s.prod.Working?)
    && ((s.cons.Recheck? || s.cons.Sleep?) && Room(cfg, s) ==> s.wanted || s.prod.Notify? || s.pending)
    && NotLost(cfg, s)
    && (!s.cons.Return? && s.done > 0 ==> s.irq)
  }

  lemma ConsumeKeeps(cfg: Config, s: State)
    requires cfg.recheck && Inv(cfg, s)
    ensures Inv(cfg, Consume(cfg, s))
  {
  }

  lemma ProduceKeeps(cfg: Config, s: State, step: Step)
    requires Inv(cfg, s)
    ensures Inv(cfg, Produce(cfg, s, step))
  {
  }

  lemma StepKeeps(cfg: Config, s: State, step: Step)
    requires cfg.recheck && Inv(cfg, s)
    ensures Inv(cfg, Next(cfg, s, step))
  {
    ConsumeKeeps(cfg, s);
    ProduceKeeps(cfg, s, step);
  }

  lemma {:induction false} RunKeeps(cfg: Config, steps: seq<Step>)
    requires cfg.recheck
    ensures Inv(cfg, Run(cfg, INIT, steps))
  {
    if steps != [] {
      RunKeeps(cfg, steps[..|steps| - 1]);
      StepKeeps(cfg, Run(cfg, INIT, steps[..|steps| - 1]), steps[|steps| - 1]);
    }
  }

  ghost predicate Reaches(cfg: Config, s: State)
  {
    exists steps: seq<Step> :: Run(cfg, INIT, steps) == s
  }

  lemma Follow(cfg: Config, s: State, step: Step, s': State)
    requires Reaches(cfg, s) && s' == Next(cfg, s, step)
    ensures Reaches(cfg, s')
  {
    var steps: seq<Step> :| Run(cfg, INIT, steps) == s;
    assert (steps + [step])[..|steps|] == steps;
    assert Run(cfg, INIT, steps + [step]) == s';
  }

  /** A packet has been announced and the consumer, woken, is about to take it. */
  lemma Announced(cfg: Config)
    ensures Reaches(cfg, State(1, false, false, Drain, Idle, false, false, 0, 0, false))
  {
    var s1 := State(0, true, false, Sleep, Working, false, false, 0, 0, false);
    var s2 := State(1, true, false, Sleep, Working, true, true, 0, 0, false);
    var s3 := State(1, true, false, Sleep, Deciding, true, false, 0, 0, false);
    var s4 := State(1, false, false, Sleep, Notify, true, false, 0, 0, false);
    var s5 := State(1, false, true, Sleep, Idle, false, false, 0, 0, false);
    assert Run(cfg, INIT, []) == INIT;
    Follow(cfg, INIT, PStart, s1);
    Follow(cfg, s1, PEnqueue, s2);
    Follow(cfg, s2, PCheck, s3);
    Follow(cfg, s3, PCancel, s4);
    Follow(cfg, s4, PNotify, s5);
    Follow(cfg, s5, CWake, State(1, false, false, Drain, Idle, false, false, 0, 0, false));
  }

  /** With a ring of one slot: the ring is full, so the driver goes to sleep without asking for a signal. */
  lemma FullSleeps(cfg: Config)
    requires cfg.bounded && cfg.cap == 1
    requires Reaches(cfg, State(0, false, false, Drain, Idle, false, false, 1, 0, false))
    ensures Reaches(cfg, State(0, false, false, Sleep, Idle, false, false, 1, 0, false))
  {
    var s0 := State(0, false, false, Drain, Idle, false, false, 1, 0, false);
    var s1 := State(0, false, false, Request, Idle, false, false, 1, 0, false);
    var s2 := State(0, false, false, Recheck, Idle, false, false, 1, 0, false);
    Follow(cfg, s0, CRun, s1);
    Follow(cfg, s1, CRun, s2);
    Follow(cfg, s2, CRun, State(0, false, false, Sleep, Idle, false, false, 1, 0, false));
  }

  /** The device completes that slot and its interrupt wakes the driver. */
  lemma SlotFreed(cfg: Config)
    requires cfg.bounded && cfg.cap == 1
    requires Reaches(cfg, State(0, false, false, Sleep, Idle, false, false, 1, 0, false))
    ensures Reaches(cfg, State(0, false, false, Drain, Idle, false, false, 0, 0, false))
  {
    var s3 := State(0, false, false, Sleep, Idle, false, false, 1, 0, false);
    var s4 := State(0, false, false, Sleep, Idle, false, false, 1, 1, true);
    var s5 := State(0, false, false, Return, Idle, false, false, 1, 1, false);
    var s6 := State(0, false, false, Return, Idle, false, false, 0, 0, false);
    Follow(cfg, s3, DComplete, s4);
    Follow(cfg, s4, CIrq, s5);
    Follow(cfg, s5, CRun, s6);
    Follow(cfg, s6, CRun, State(0, false, false, Drain, Idle, false, false, 0, 0, false));
  }

  /** A consumer that has taken its packet and has room for another. */
  lemma RoomAgain(cfg: Config) returns (used: nat)
    requires cfg.bounded ==> cfg.cap > 0
    ensures Reaches(cfg, State(0, false, false, Drain, Idle, false, false, used, 0, false))
            && (cfg.bounded ==> used < cfg.cap)
  {
    var s := State(1, false, false, Drain, Idle, false, false, 0, 0, false);
    Announced(cfg);
    if !cfg.bounded {
      Follow(cfg, s, CRun, s.(len := 0));
      used := 0;
    } else {
      Follow(cfg, s, CRun, s.(len := 0, used := 1));
      used := 1;
      if cfg.cap == 1 {
        FullSleeps(cfg);
        SlotFreed(cfg);
        used := 0;
      }
    }
  }

  /** Without the second look: a packet enqueued after the last dequeue and before the request stays unannounced. */
  lemma WithoutRecheckLost(cfg: Config) returns (s: State)
    requires !cfg.recheck && (cfg.bounded ==> cfg.cap > 0)
    ensures Reaches(cfg, s) && !NotLost(cfg, s)
  {
    var used := RoomAgain(cfg);
    var s0 := State(0, false, false, Drain, Idle, false, false, used, 0, false);
    var s1 := s0.(cons := Request);
    var s2 := s1.(prod := Working);
    var s3 := s2.(len := 1, due := true, news := true);
    var s4 := s3.(news := false, prod := Idle);
    var s5 := s4.(wanted := true, cons := Recheck);
    s := s5.(cons := Sleep);
    Follow(cfg, s0, CRun, s1);
    Follow(cfg, s1, PStart, s2);
    Follow(cfg, s2, PEnqueue, s3);
    Follow(cfg, s3, PCheck, s4);
    Follow(cfg, s4, CRun, s5);
    Follow(cfg, s5, CRun, s);
  }

  /** No interleaving loses a wakeup, and the second look at the queue is what this rests on. */
  lemma NoLostWakeup(cfg: Config)
    requires cfg.bounded ==> cfg.cap > 0
    ensures (forall steps: seq<Step> :: NotLost(cfg, Run(cfg, INIT, steps))) <==> cfg.recheck
  {
    if cfg.recheck {
      forall steps: seq<Step>
        ensures NotLost(cfg, Run(cfg, INIT, steps))
      {
        RunKeeps(cfg, steps);
      }
    } else {
      var s := WithoutRecheckLost(cfg);
      var steps: seq<Step> :| Run(cfg, INIT, steps) == s;
      assert !NotLost(cfg, Run(cfg, INIT, steps));
    }
  }

  // ---- What a handler achieves --------------------------------------------------------------

  /** Consumer operations still to come, while nobody interferes. */
  function Rank(cfg: Config, s: State): nat
  {
    match s.cons
    case Sleep => 0
    case Return => 7
    case Drain => 4
    case Request => if Work(cfg, s) then 7 else 3
    case Recheck => if Work(cfg, s) then 6 else 2
    case Cancel => 5
  }

  lemma ConsumeShrinks(cfg: Config, s: State)
    requires s.done <= s.used
    ensures var t := Consume(cfg, s); t.done <= t.used && t.done <= s.done && t.len <= s.len
  {
  }

  lemma ConsumeProgress(cfg: Config, s: State)
    requires cfg.recheck && s.done <= s.used && !s.cons.Sleep?
    ensures var t := Consume(cfg, s); t.done < s.done || t.len < s.len || Rank(cfg, t) < Rank(cfg, s)
  {
  }

  lemma ConsumeConserves(cfg: Config, s: State)
    requires s.done <= s.used && cfg.bounded
    ensures var t := Consume(cfg, s); t.len + t.used + s.done == s.len + s.used + t.done
    ensures s.used <= cfg.cap ==> Consume(cfg, s).used <= cfg.cap
  {
  }

  lemma ConsumeEnds(cfg: Config, s: State)
    requires cfg.recheck && s.done <= s.used && !s.cons.Sleep?
    ensures var t := Consume(cfg, s);
            && (s.cons.Return? && !t.cons.Return? ==> t.done == 0)
            && (t.cons.Sleep? ==> !Work(cfg, t))
  {
  }

  /** The consumer's handler run to its end, undisturbed. */
  function Alone(cfg: Config, s: State): (s': State)
    requires cfg.recheck && s.done <= s.used
    decreases s.done, s.len, Rank(cfg, s)
  {
    if s.cons.Sleep? then s else
      ConsumeShrinks(cfg, s);
      ConsumeProgress(cfg, s);
      Alone(cfg, Consume(cfg, s))
  }

  /** It leaves nothing it could have taken, and every buffer it took went into the ring. */
  lemma {:induction false} AloneServes(cfg: Config, s: State)
    requires cfg.recheck && s.done <= s.used
    ensures var t := Alone(cfg, s);
            && t.cons.Sleep? && (!s.cons.Sleep? ==> !Work(cfg, t))
            && t.done <= s.done && t.len <= s.len && (s.cons.Return? ==> t.done == 0)
            && (cfg.bounded ==> t.len + t.used + s.done == s.len + s.used + t.done)
            && (cfg.bounded && s.used <= cfg.cap ==> t.used <= cfg.cap)
    decreases s.done, s.len, Rank(cfg, s)
  {
    if !s.cons.Sleep? {
      var t := Consume(cfg, s);
      ConsumeShrinks(cfg, s);
      ConsumeProgress(cfg, s);
      ConsumeEnds(cfg, s);
      if cfg.bounded {
        ConsumeConserves(cfg, s);
      }
      AloneServes(cfg, t);
    }
  }

  /** The interrupt's handler has run: buffers were armed until the ring is full or none waits. */
  predicate Refilled(cfg: Config, s: State, t: State)
  {
    t.cons.Sleep? && t.len < s.len && t.done == 0 && (t.used == cfg.cap || t.len == 0)
  }

  /**
   A driver that sleeps although free buffers wait, with nothing on its way to wake it, has a full ring. If the device
   has completed any of it, the interrupt is pending; if not, the next buffer it completes raises it. Its handler then
   returns what is completed and arms waiting buffers, until the ring is full again or none waits.
   */
  lemma FullRingIsServed(cfg: Config, steps: seq<Step>)
    requires cfg.recheck && cfg.bounded && cfg.cap > 0
    ensures var s := Run(cfg, INIT, steps);
            s.cons.Sleep? && s.len > 0 && !s.pending && !Committed(s) ==>
              && s.used == cfg.cap && s.done <= s.used && (s.done > 0 ==> s.irq)
              && (s.done > 0 ==>
                    var t := Next(cfg, s, CIrq);
                    t.cons.Return? && t.done <= t.used && Refilled(cfg, s, Alone(cfg, t)))
              && (s.done < s.used ==>
                    var t := Next(cfg, Next(cfg, s, DComplete), CIrq);
                    t.cons.Return? && t.done <= t.used && Refilled(cfg, s, Alone(cfg, t)))
  {
    RunKeeps(cfg, steps);
    var s := Run(cfg, INIT, steps);
    if s.cons.Sleep? && s.len > 0 && !s.pending && !Committed(s) {
      if s.done > 0 {
        AloneServes(cfg, Next(cfg, s, CIrq));
      }
      if s.done < s.used {
        AloneServes(cfg, Next(cfg, Next(cfg, s, DComplete), CIrq));
      }
    }
  }
}
