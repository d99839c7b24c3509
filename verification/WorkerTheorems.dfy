/** What the worker guarantees over whole schedules. Every theorem is about the
    state after an arbitrary list of steps from a fresh worker. */
module WorkerTheorems {
  import opened Worker
  import opened WorkerInvariants
  import Latency

  /** No wake-up is lost: a parked consumer with events waiting has a token in the
      channel or a call that has pushed and is about to send one. Hence, once every
      call has returned and no token is left, the consumer has emptied the ring and,
      unless Shutdown overtook it, handed over every accepted event in order. */
  lemma NoLostWakeup(cap: nat, blocking: bool, steps: seq<Step>)
    requires 0 < cap
    ensures var s := Run(Init(cap, blocking), steps);
            s.consumer.Parked? && |s.flow.ring| != 0 ==>
              s.chan.token || exists c :: 0 <= c < |s.calls| && s.calls[c].at.Signalling?
    ensures var s := Run(Init(cap, blocking), steps);
            s.consumer.Parked? && !s.chan.token && (forall c :: 0 <= c < |s.calls| ==> s.calls[c].at.Done?) ==>
              s.flow.ring == [] && (!s.past.together ==> s.flow.handled == s.flow.accepted)
  {
    Always(cap, blocking, steps);
    var s := Run(Init(cap, blocking), steps);
    if s.consumer.Parked? && |s.flow.ring| != 0 && !s.chan.token {
      var c :| 0 <= c < |s.calls| && Is(IsSignalling, s.calls[c].at);
      assert s.calls[c].at.Signalling?;
    }
    if s.consumer.Parked? && |s.flow.ring| == 0 && !s.past.together {
      assert ConsumerHand(s) == [] && ShutdownHand(s) == [];
    }
  }

  /** Exactly-once delivery in order: a Shutdown that began with no call past its
      closing check and whose wait lasted until the consumer stopped has handed over
      exactly the accepted sequence, which is one event per call that reported success,
      and left the ring empty. If the wait timed out while the consumer was running
      nothing is lost or doubled either, but events may come late. */
  lemma ShutdownDelivers(cap: nat, blocking: bool, steps: seq<Step>)
    requires 0 < cap
    ensures var s := Run(Init(cap, blocking), steps);
            s.shutdown.Finished? ==> (s.shutdown.ok <==> cap <= MAX_DRAIN)
    ensures var s := Run(Init(cap, blocking), steps);
            s.shutdown == Finished(true) && s.past.quiet ==>
              s.flow.ring == [] && s.flow.popped == s.flow.accepted
              && multiset(s.flow.handled) + multiset(ConsumerHand(s)) == PushedEvents(s.calls)
              && (!s.past.together ==> s.flow.handled == s.flow.accepted && s.stats.processed == |s.flow.accepted|)
  {
    Always(cap, blocking, steps);
    var s := Run(Init(cap, blocking), steps);
    if s.shutdown == Finished(true) && s.past.quiet {
      assert s.flow.popped == s.flow.accepted;
      assert ShutdownHand(s) == [];
      if !s.past.together {
        assert ConsumerHand(s) == [];
      }
    }
  }

  predicate Untouched(s: State)
  {
    s.cap > MAX_DRAIN ==> !s.consumer.Busy? && !s.shutdown.Final? && s.flow.popped == [] && s.flow.handled == []
  }

  /** The bound on the ring is needed: with a larger ring both drain loops give up
      at once and no event is ever handed over. */
  lemma {:induction false} OversizedRingDeliversNothing(cap: nat, blocking: bool, steps: seq<Step>)
    requires cap > MAX_DRAIN
    ensures var s := Run(Init(cap, blocking), steps); s.cap == cap && Untouched(s)
  {
    if |steps| != 0 {
      var s := Run(Init(cap, blocking), steps[..|steps| - 1]);
      OversizedRingDeliversNothing(cap, blocking, steps[..|steps| - 1]);
      UntouchedKept(s, steps[|steps| - 1]);
    }
  }

  lemma UntouchedKept(s: State, step: Step)
    requires Untouched(s)
    ensures Untouched(Next(s, step)) && Next(s, step).cap == s.cap
  {
  }

  /** Conservation: every call is dropped, refused, in flight, queued, processed or
      being processed; the last two terms and the queue make up the accepted events. */
  lemma Conservation(cap: nat, blocking: bool, steps: seq<Step>)
    requires 0 < cap
    ensures var s := Run(Init(cap, blocking), steps);
            |s.calls| == s.stats.dropped + s.stats.refused + Count(s.calls, InFlight)
                         + |s.flow.ring| + s.stats.processed + HeldBy(s)
    ensures var s := Run(Init(cap, blocking), steps);
            !s.past.overlapped ==> s.stats.refused == 0
  {
    Always(cap, blocking, steps);
    var s := Run(Init(cap, blocking), steps);
    CallsPartition(s.calls);
    assert |s.flow.accepted| == |s.flow.popped| + |s.flow.ring|;
  }

  /** Latency histogram: one latency per processed event, each in exactly one
      bucket, so between events the bucket counts add up to the processed counter. */
  lemma HistogramConservation(cap: nat, blocking: bool, steps: seq<Step>)
    requires 0 < cap
    ensures var s := Run(Init(cap, blocking), steps);
            Latency.Sum(Latency.Tallies(s.stats.latencies)) == s.stats.processed + UncountedBy(s)
  {
    Always(cap, blocking, steps);
    Latency.BucketsPartition(Run(Init(cap, blocking), steps).stats.latencies);
  }

  /** A call is turned away only for cause: it saw the closing flag; or the ring was
      full at its last look, and then either it never saw space (in blocking mode,
      after 1000 full polls and waits) or another call's push took the space it had
      seen. A call that pushes into a full ring was likewise beaten to it. */
  lemma TurnedAwayForCause(cap: nat, blocking: bool, steps: seq<Step>, c: nat)
    requires 0 < cap && c < |Run(Init(cap, blocking), steps).calls|
    ensures var s := Run(Init(cap, blocking), steps);
            var call := s.calls[c];
            call.waits <= 1000
            && (call.at == Done(DroppedClosing) ==> s.chan.closing)
            && (call.at.Done? && call.at.outcome.DroppedFull? ==>
                  if call.at.outcome.sawSpace then call.at.outcome.beaten > 0 else blocking ==> call.waits == 1000)
            && (call.at.Done? && call.at.outcome.Refused? ==> call.at.outcome.beaten > 0)
            && (!s.past.overlapped && blocking && call.at.Done? && call.at.outcome.DroppedFull? ==> call.waits == 1000)
    ensures var s := Run(Init(cap, blocking), steps);
            s.stats.blocked <= 1000 * |s.calls|
  {
    Always(cap, blocking, steps);
    var s := Run(Init(cap, blocking), steps);
    assert CallOk(s, s.calls[c]) && SpaceUntilPush(s, s.calls[c].at);
    if !s.past.overlapped {
      assert SpaceKept(s, s.calls[c].at);
    }
    forall d | 0 <= d < |s.calls|
      ensures s.calls[d].waits <= MAX_POLLS
    {
      assert CallOk(s, s.calls[d]);
    }
    WaitsBound(s.calls);
  }

  /** A Shutdown that begins with no call past its closing check never makes a call
      send on the closed channel. */
  lemma QuietShutdownNeverPanics(cap: nat, blocking: bool, steps: seq<Step>)
    requires 0 < cap
    ensures var s := Run(Init(cap, blocking), steps); s.chan.panicked ==> s.chan.closing && !s.past.quiet
  {
    Always(cap, blocking, steps);
  }

  // ---------------------------------------------------------------- every call ends

  /** An upper bound on the steps a call has left. */
  function StepsLeft(call: Call): nat
  {
    match call.at
    case Entered => 2 * MAX_POLLS + 4
    case Polling => if call.waits <= MAX_POLLS then 2 * (MAX_POLLS - call.waits) + 3 else 3
    case SawFull => if call.waits <= MAX_POLLS then 2 * (MAX_POLLS - call.waits) + 2 else 2
    case LastLook(_, _) => 3
    case Pushing(_) => 2
    case Signalling => 1
    case Done(_) => 0
  }

  /** How many of the steps are steps of call c. */
  function Own(steps: seq<Step>, c: nat): nat
  {
    if |steps| == 0 then 0 else Own(steps[..|steps| - 1], c) + (if steps[|steps| - 1] == Produce(c) then 1 else 0)
  }

  lemma OwnStepCounts(s: State, c: nat)
    requires !s.chan.panicked && c < |s.calls| && CallOk(s, s.calls[c]) && !s.calls[c].at.Done?
    ensures Produced(s, c).chan.panicked || StepsLeft(Produced(s, c).calls[c]) < StepsLeft(s.calls[c])
  {
  }

  lemma OtherStepsKeepCall(s: State, step: Step, c: nat)
    requires c < |s.calls| && step != Produce(c)
    ensures var s' := Next(s, step); c < |s'.calls| && s'.calls[c] == s.calls[c]
  {
  }

  lemma CallStepLeaves(s: State, step: Step, c: nat)
    requires Inv(s) && c < |s.calls|
    ensures var s' := Next(s, step);
            c < |s'.calls| && (s.chan.panicked ==> s'.chan.panicked)
            && (s'.chan.panicked || StepsLeft(s'.calls[c]) + (if step == Produce(c) then 1 else 0) <= StepsLeft(s.calls[c])
                || s'.calls[c].at.Done?)
  {
    assert CallOk(s, s.calls[c]);
    if step != Produce(c) {
      OtherStepsKeepCall(s, step, c);
    } else if !s.chan.panicked && !s.calls[c].at.Done? {
      OwnStepCounts(s, c);
    }
  }

  lemma {:induction false} CallRunLeaves(s: State, more: seq<Step>, c: nat)
    requires Inv(s) && c < |s.calls|
    ensures var s' := Run(s, more);
            c < |s'.calls| && (s'.chan.panicked || s'.calls[c].at.Done?
                               || StepsLeft(s'.calls[c]) + Own(more, c) <= StepsLeft(s.calls[c]))
  {
    if |more| != 0 {
      var init := more[..|more| - 1];
      CallRunLeaves(s, init, c);
      InvRun(s, init);
      CallStepLeaves(Run(s, init), more[|more| - 1], c);
    }
  }

  /** Submit ends: whatever the other calls, the consumer and Shutdown do, a call is done
      after at most 2004 steps of its own, unless the process went down. */
  lemma {:induction false} CallEnds(cap: nat, blocking: bool, steps: seq<Step>, more: seq<Step>, c: nat)
    requires 0 < cap && c < |Run(Init(cap, blocking), steps).calls| && Own(more, c) >= 2004
    ensures var s := Run(Run(Init(cap, blocking), steps), more);
            s.chan.panicked || (c < |s.calls| && s.calls[c].at.Done?)
  {
    Always(cap, blocking, steps);
    CallRunLeaves(Run(Init(cap, blocking), steps), more, c);
    LeftBounded(Run(Init(cap, blocking), steps).calls[c]);
    LeftZero(Run(Run(Init(cap, blocking), steps), more).calls[c]);
  }

  lemma LeftBounded(call: Call)
    ensures StepsLeft(call) <= 2 * MAX_POLLS + 4
  {
  }

  lemma LeftZero(call: Call)
    ensures StepsLeft(call) == 0 ==> call.at.Done?
  {
  }

  // ---------------------------------------------------------------- health and latencies

  /** The step is one in which ProcessEvent returns, with this latency and outcome. */
  predicate Returns(s: State, step: Step)
  {
    !s.chan.panicked
    && ((step.Consume? && s.consumer.Busy? && s.consumer.drain.Holding?)
        || (step.FinalDrain? && s.shutdown.Final? && s.shutdown.drain.Holding?))
  }

  function LatencyOf(step: Step): Nanos
  {
    match step
    case Consume(ns, _) => ns
    case FinalDrain(ns, _) => ns
    case _ => 0
  }

  predicate Failed(step: Step)
  {
    (step.Consume? && !step.ok) || (step.FinalDrain? && !step.fok)
  }

  /** The consumer or Shutdown is about to drain a ring of more than 2^20 slots. */
  predicate MeetsOversize(s: State, step: Step)
  {
    !s.chan.panicked && s.cap > 1_048_576
    && ((step.Consume? && s.consumer.Parked? && s.chan.token)
        || (s.shutdown.Waiting? && (step.WaitTimeout? || (step.WaitDone? && s.consumer.Stopped?))))
  }

  /** The latencies of the processed events, read off the schedule. */
  function Timed(cap: nat, blocking: bool, steps: seq<Step>): seq<Nanos>
  {
    if |steps| == 0 then []
    else
      var init, last := steps[..|steps| - 1], steps[|steps| - 1];
      Timed(cap, blocking, init) + (if Returns(Run(Init(cap, blocking), init), last) then [LatencyOf(last)] else [])
  }

  predicate Spoils(s: State, step: Step)
  {
    (Returns(s, step) && Failed(step)) || MeetsOversize(s, step)
  }

  predicate SpoiltAt(cap: nat, blocking: bool, steps: seq<Step>, i: nat)
  {
    i < |steps| && Spoils(Run(Init(cap, blocking), steps[..i]), steps[i])
  }

  ghost predicate Spoilt(cap: nat, blocking: bool, steps: seq<Step>)
  {
    exists i: nat :: SpoiltAt(cap, blocking, steps, i)
  }

  lemma StepHealth(s: State, step: Step)
    requires Untouched(s)
    ensures Next(s, step).stats.unhealthy <==> s.stats.unhealthy || Spoils(s, step)
    ensures Next(s, step).stats.latencies == s.stats.latencies + (if Returns(s, step) then [LatencyOf(step)] else [])
  {
  }

  lemma SpoiltOnce(cap: nat, blocking: bool, steps: seq<Step>, init: seq<Step>, n: nat)
    requires |steps| == n + 1 && init == steps[..n]
    ensures Spoilt(cap, blocking, steps) <==>
              Spoilt(cap, blocking, init) || Spoils(Run(Init(cap, blocking), init), steps[n])
  {
    forall i: nat | i < n
      ensures SpoiltAt(cap, blocking, steps, i) <==> SpoiltAt(cap, blocking, init, i)
    {
      assert init[..i] == steps[..i];
    }
    assert SpoiltAt(cap, blocking, steps, n) <==> Spoils(Run(Init(cap, blocking), init), steps[n]);
  }

  /** The worker is unhealthy exactly when some processed event failed or a drain met an
      oversized ring, and it recorded exactly the latencies of the processed events. */
  lemma {:induction false} HealthAndLatencies(cap: nat, blocking: bool, steps: seq<Step>)
    ensures var s := Run(Init(cap, blocking), steps);
            Untouched(s) && s.stats.latencies == Timed(cap, blocking, steps)
            && (s.stats.unhealthy <==> Spoilt(cap, blocking, steps))
  {
    if |steps| != 0 {
      var n := |steps| - 1;
      var init := steps[..n];
      HealthAndLatencies(cap, blocking, init);
      StepHealth(Run(Init(cap, blocking), init), steps[n]);
      UntouchedKept(Run(Init(cap, blocking), init), steps[n]);
      SpoiltOnce(cap, blocking, steps, init, n);
    }
  }
}
