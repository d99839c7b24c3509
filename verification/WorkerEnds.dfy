/** Shutdown comes to an end, and what the consumer leaves behind: nothing. */
module WorkerEnds {
  import opened Worker
  import opened WorkerInvariants
  import opened WorkerTheorems
  import opened WorkerFailures

  // ---------------------------------------------------------------- the consumer stops

  /** Shutdown has closed the channel quietly and waits for the consumer. */
  predicate Ending(s: State)
  {
    Inv(s) && s.chan.closing && s.chan.closed && s.past.quiet && !s.past.together && s.shutdown.Waiting? && s.cap <= MAX_DRAIN
  }

  /** How far the consumer is from its next look at the channel. */
  function Left(c: Consumer): nat
  {
    match c
    case Stopped => 0
    case Parked => 1
    case Busy(Popping(_)) => 2
    case Busy(Head(_)) => 3
    case Busy(Recorded(_)) => 4
    case Busy(Holding(_, _)) => 5
  }

  function Tokens(s: State): nat
  {
    if s.chan.token then 1 else 0
  }

  /** A token is used up, or an event is popped, or the loop comes closer to its end. */
  predicate Nearer(s: State, t: State)
  {
    Tokens(t) < Tokens(s)
    || (Tokens(t) == Tokens(s)
        && (|t.flow.ring| < |s.flow.ring| || (|t.flow.ring| == |s.flow.ring| && Left(t.consumer) < Left(s.consumer))))
  }

  lemma ConsumeNearer(s: State)
    requires !s.chan.panicked && s.chan.closed && s.cap <= MAX_DRAIN && !s.consumer.Stopped?
    ensures var t := Next(s, Consume(0, true));
            Nearer(s, t) && t.shutdown == s.shutdown && t.chan.closed && t.past.together == s.past.together
  {
  }

  lemma EndingStep(s: State)
    requires Ending(s) && !s.consumer.Stopped?
    ensures var t := Next(s, Consume(0, true)); Ending(t) && Nearer(s, t)
  {
    var step := Consume(0, true);
    InvKept(s, step);
    ConfigKept(s, step);
    QuietStepStays(s, step);
    ConsumeNearer(s);
  }

  lemma {:induction false} Stops(s: State) returns (u: State)
    requires Ending(s)
    ensures Reaches(s, u) && Ending(u) && u.consumer.Stopped?
    decreases Tokens(s), |s.flow.ring|, Left(s.consumer)
  {
    if s.consumer.Stopped? {
      ReachesSelf(s);
      u := s;
    } else {
      var t := Next(s, Consume(0, true));
      EndingStep(s);
      ReachesOne(s, Consume(0, true));
      u := Stops(t);
      ReachesTrans(s, t, u);
    }
  }

  // ---------------------------------------------------------------- and Shutdown finishes

  lemma CloseQuietly(s: State)
    requires Inv(s) && s.shutdown.Idle? && !Some(s.calls, PastCheck) && s.cap <= MAX_DRAIN && !s.past.together
    ensures Ending(Next(Next(s, BeginShutdown), CloseChannels))
  {
    InvKept(s, BeginShutdown);
    InvKept(Next(s, BeginShutdown), CloseChannels);
  }

  /** The final drain has begun, alone. */
  predicate DrainsLast(s: State)
  {
    Inv(s) && s.chan.closing && s.past.quiet && !s.past.together && s.shutdown == Final(Head(0)) && s.cap <= MAX_DRAIN
  }

  lemma WaitEnds(s: State)
    requires Ending(s) && s.consumer.Stopped?
    ensures DrainsLast(Next(s, WaitDone))
  {
    InvKept(s, WaitDone);
    QuietStepStays(s, WaitDone);
  }

  /** Shutdown returned without error, began quietly, and drained after the consumer. */
  predicate CleanEnd(s: State)
  {
    s.shutdown == Finished(true) && s.past.quiet && !s.past.together
  }

  lemma LastStep(s: State, n: nat)
    requires !s.chan.panicked && s.shutdown == Final(Head(n)) && s.flow.ring == []
    ensures Next(s, FinalDrain(0, true)).shutdown == Finished(true)
  {
  }

  lemma DrainFinishes(s: State) returns (u: State)
    requires DrainsLast(s)
    ensures Reaches(s, u) && u.shutdown == Finished(true)
  {
    var t := DrainsMany(s, |s.flow.ring|);
    LastStep(t, |s.flow.ring|);
    ReachesOne(t, FinalDrain(0, true));
    u := Next(t, FinalDrain(0, true));
    ReachesTrans(s, t, u);
  }

  lemma EndsCleanly(s: State) returns (u: State)
    requires DrainsLast(s)
    ensures Reaches(s, u) && CleanEnd(u)
  {
    u := DrainFinishes(s);
    var more :| Calm(more) && Run(s, more) == u;
    QuietStaysUp(s, more);
    DrainsAloneInOrder(s, more);
  }

  lemma FinishesFrom(s: State) returns (u: State)
    requires Inv(s) && s.shutdown.Idle? && !Some(s.calls, PastCheck) && s.cap <= MAX_DRAIN && !s.past.together
    ensures Reaches(s, u) && CleanEnd(u)
  {
    CloseQuietly(s);
    ReachesTwo(s, BeginShutdown, CloseChannels);
    var closed := Next(Next(s, BeginShutdown), CloseChannels);
    var stopped := Stops(closed);
    ReachesTrans(s, closed, stopped);
    WaitEnds(stopped);
    ReachesOne(stopped, WaitDone);
    var draining := Next(stopped, WaitDone);
    ReachesTrans(s, stopped, draining);
    u := EndsCleanly(draining);
    ReachesTrans(s, draining, u);
  }

  /** Shutdown comes to an end: from every state of every run in which no call is past its
      closing check, and for every ring of at most 2^20 slots, some continuation without a
      timeout ends with Shutdown finished, begun quietly and drained after the consumer had
      stopped; everything accepted has then been handed over in order. */
  lemma {:induction false} ShutdownCompletes(cap: nat, blocking: bool, steps: seq<Step>)
    requires 0 < cap <= 1_048_576
    requires var s := Run(Init(cap, blocking), steps); s.shutdown.Idle? && !Some(s.calls, PastCheck)
    ensures exists more ::
              Calm(more)
              && var t := Run(Run(Init(cap, blocking), steps), more);
                 CleanEnd(t) && t.flow.ring == [] && t.flow.handled == t.flow.accepted
  {
    var s := Run(Init(cap, blocking), steps);
    Always(cap, blocking, steps);
    NotTogetherYet(cap, blocking, steps);
    var u := FinishesFrom(s);
    var more :| Calm(more) && Run(s, more) == u;
    RunCat(Init(cap, blocking), steps, more);
    ShutdownDelivers(cap, blocking, steps + more);
    assert CleanEnd(Run(s, more));
  }

  // ---------------------------------------------------------------- a stopped consumer

  /** A consumer stopped by a quiet Shutdown has emptied the ring. */
  predicate LeftNothing(s: State)
  {
    s.consumer.Stopped? && s.cap <= MAX_DRAIN && s.past.quiet ==> s.flow.ring == []
  }

  lemma StopsEmpty(s: State)
    requires Inv(s) && s.consumer.Parked? && s.chan.closed && s.past.quiet && !s.chan.token
    ensures s.flow.ring == []
  {
  }

  lemma LeftNothingKeptByCall(s: State, c: nat)
    requires Inv(s) && LeftNothing(s) && !s.chan.panicked && c < |s.calls|
    ensures LeftNothing(Produced(s, c))
  {
    CallIsNotADrain(s, c);
    if s.chan.closing && s.past.quiet {
      NoneKept(s, c);
    }
  }

  lemma LeftNothingKept(s: State, step: Step)
    requires Inv(s) && LeftNothing(s)
    ensures LeftNothing(Next(s, step))
  {
    if !s.chan.panicked {
      if step.Produce? {
        if step.call < |s.calls| {
          LeftNothingKeptByCall(s, step.call);
        }
      } else if step.Consume? && s.consumer.Parked? && !s.chan.token && s.chan.closed && s.past.quiet {
        StopsEmpty(s);
      }
    }
  }

  /** A buffered token is taken before the closed channel is seen: the consumer stops only
      with an empty ring, so the final drain of a quiet Shutdown that waited finds nothing. */
  lemma {:induction false} ConsumerLeavesNothing(cap: nat, blocking: bool, steps: seq<Step>)
    requires 0 < cap
    ensures LeftNothing(Run(Init(cap, blocking), steps))
  {
    if |steps| != 0 {
      ConsumerLeavesNothing(cap, blocking, steps[..|steps| - 1]);
      Always(cap, blocking, steps[..|steps| - 1]);
      LeftNothingKept(Run(Init(cap, blocking), steps[..|steps| - 1]), steps[|steps| - 1]);
    }
  }
}
