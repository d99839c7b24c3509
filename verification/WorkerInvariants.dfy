/** What every step of the worker keeps. */
module WorkerInvariants {
  import opened Worker

  // ---------------------------------------------------------------- the invariants

  /** The ring is within its capacity and holds, in order, what was pushed and not popped. */
  predicate Queue(s: State)
  {
    0 < s.cap && |s.flow.ring| <= s.cap && s.flow.accepted == s.flow.popped + s.flow.ring
  }

  predicate Signalled(s: State)
  {
    s.chan.token || Some(s.calls, IsSignalling)
  }

  /** Why no wake-up is lost. The drain loop remembers whether anything was pushed
      since it took its token: if so a signal is due; if not the loop still has
      enough iterations left to empty the ring. */
  predicate Wakeup(s: State)
  {
    match s.consumer
    case Parked => |s.flow.ring| != 0 ==> Signalled(s)
    case Busy(d) =>
      s.cap <= MAX_DRAIN && d.done <= MAX_DRAIN && (d.Popping? || d.Holding? || d.Recorded? ==> d.done < MAX_DRAIN)
      && (if s.past.pushedSinceWake then Signalled(s) else |s.flow.ring| + Pops(d) <= s.cap)
    case Stopped => s.chan.closed || s.cap > MAX_DRAIN
  }

  /** Each counter counts the calls with its outcome. */
  predicate Counters(s: State)
  {
    s.stats.dropped == Count(s.calls, IsDropped) && s.stats.refused == Count(s.calls, IsRefused)
    && |s.flow.accepted| == Count(s.calls, HasPushed)
  }

  /** The pushed events are those of the calls that pushed. */
  predicate Contents(s: State)
  {
    multiset(s.flow.accepted) == PushedEvents(s.calls)
  }

  /** Popped events are processed or held; latencies are counted once per event. */
  predicate Processing(s: State)
  {
    |s.flow.popped| == s.stats.processed + HeldBy(s) && |s.stats.latencies| == s.stats.processed + UncountedBy(s)
  }

  /** The waits of blocking calls are bounded and all counted. */
  predicate Blocking(s: State)
  {
    s.stats.blocked == Waits(s.calls)
    && forall c :: 0 <= c < |s.calls| ==> CallOk(s, s.calls[c])
  }

  predicate CallOk(s: State, call: Call)
  {
    call.waits <= MAX_POLLS && (call.at.Entered? ==> call.waits == 0)
    && (call.at.Polling? || call.at.SawFull? ==> s.blocking && call.waits < MAX_POLLS)
    && (call.at.LastLook? && s.blocking && !call.at.sawSpace ==> call.waits == MAX_POLLS)
    && (call.at.Done? && call.at.outcome.DroppedFull? && s.blocking && !call.at.outcome.sawSpace
        ==> call.waits == MAX_POLLS)
    && (call.at.Done? && call.at.outcome.DroppedClosing? ==> s.chan.closing)
  }

  /** Without overlapping calls there is at most one call in flight, and space it has seen stays. */
  predicate Alone(s: State)
  {
    !s.past.overlapped ==>
      Count(s.calls, InFlight) <= 1 && s.stats.refused == 0
      && forall c :: 0 <= c < |s.calls| ==> SpaceKept(s, s.calls[c].at)
  }

  predicate SpaceKept(s: State, at: Place)
  {
    (at.Pushing? || (at.LastLook? && at.sawSpace) ==> |s.flow.ring| < s.cap)
    && !(at.Done? && at.outcome.DroppedFull? && at.outcome.sawSpace)
  }

  /** Space a call has seen goes away only through another call's push. */
  predicate Raced(s: State)
  {
    forall c :: 0 <= c < |s.calls| ==> SpaceUntilPush(s, s.calls[c].at)
  }

  predicate SpaceUntilPush(s: State, at: Place)
  {
    (at.Pushing? || (at.LastLook? && at.sawSpace) ==>
      at.mark <= |s.flow.accepted| && (at.mark == |s.flow.accepted| ==> |s.flow.ring| < s.cap))
    && (at.Done? && (at.outcome.Refused? || (at.outcome.DroppedFull? && at.outcome.sawSpace)) ==> at.outcome.beaten > 0)
  }

  /** How far Shutdown has come. */
  predicate Phases(s: State)
  {
    (s.chan.closing <==> !s.shutdown.Idle?)
    && (s.chan.closed <==> s.shutdown.Waiting? || s.shutdown.Final? || s.shutdown.Finished?)
    && (s.chan.panicked ==> s.chan.closed)
    && (s.shutdown.Final? ==> s.cap <= MAX_DRAIN)
    && (s.shutdown.Finished? ==> (s.shutdown.ok <==> s.cap <= MAX_DRAIN))
  }

  /** What a quiet Shutdown guarantees. */
  predicate Quiet(s: State)
  {
    s.chan.closing && s.past.quiet ==>
      !s.chan.panicked && !Some(s.calls, PastCheck)
      && (s.shutdown.Final? ==> |s.flow.ring| + Pops(s.shutdown.drain) <= s.cap)
      && (s.shutdown.Finished? && s.shutdown.ok ==> |s.flow.ring| == 0)
  }

  /** Every popped event is handed to ProcessEvent exactly once. */
  predicate Once(s: State)
  {
    multiset(s.flow.handled) + multiset(ConsumerHand(s)) + multiset(ShutdownHand(s)) == multiset(s.flow.popped)
  }

  /** And in the order of the pops, unless Shutdown ran its drain loop beside the consumer. */
  predicate InOrder(s: State)
  {
    !s.past.together ==>
      s.flow.handled + ConsumerHand(s) + ShutdownHand(s) == s.flow.popped
      && (s.shutdown.Final? || s.shutdown.Finished? ==> s.consumer.Stopped?)
  }

  predicate Inv(s: State)
  {
    Queue(s) && Wakeup(s) && Counters(s) && Contents(s) && Processing(s) && Blocking(s) && Alone(s) && Raced(s) && Phases(s) && Quiet(s)
    && Once(s) && InOrder(s)
  }

  // ---------------------------------------------------------------- counting lemmas

  lemma CountAppend(calls: seq<Call>, call: Call, k: Kind)
    ensures Count(calls + [call], k) == Count(calls, k) + (if Is(k, call.at) then 1 else 0)
  {
  }

  lemma {:induction false} CountUpdate(calls: seq<Call>, c: nat, call: Call, k: Kind)
    requires c < |calls|
    ensures Count(calls[c := call], k)
            == Count(calls, k) - (if Is(k, calls[c].at) then 1 else 0) + (if Is(k, call.at) then 1 else 0)
  {
    var n := |calls| - 1;
    if c == n {
      assert calls[c := call][..n] == calls[..n];
    } else {
      assert calls[c := call][..n] == calls[..n][c := call];
      CountUpdate(calls[..n], c, call, k);
    }
  }

  lemma {:induction false} WaitsUpdate(calls: seq<Call>, c: nat, call: Call)
    requires c < |calls|
    ensures Waits(calls[c := call]) == Waits(calls) - calls[c].waits + call.waits
  {
    var n := |calls| - 1;
    if c == n {
      assert calls[c := call][..n] == calls[..n];
    } else {
      assert calls[c := call][..n] == calls[..n][c := call];
      WaitsUpdate(calls[..n], c, call);
    }
  }

  lemma {:induction false} PushedUpdate(calls: seq<Call>, c: nat, call: Call)
    requires c < |calls| && call.event == calls[c].event && (Is(HasPushed, calls[c].at) ==> Is(HasPushed, call.at))
    ensures PushedEvents(calls[c := call])
            == PushedEvents(calls) + (if Is(HasPushed, call.at) && !Is(HasPushed, calls[c].at) then multiset{call.event} else multiset{})
  {
    var n := |calls| - 1;
    if c == n {
      assert calls[c := call][..n] == calls[..n];
    } else {
      assert calls[c := call][..n] == calls[..n][c := call];
      PushedUpdate(calls[..n], c, call);
    }
  }

  /** The four kinds of call are all there are. */
  lemma {:induction false} CallsPartition(calls: seq<Call>)
    ensures Count(calls, InFlight) + Count(calls, IsDropped) + Count(calls, IsRefused) + Count(calls, HasPushed) == |calls|
  {
    if |calls| != 0 {
      CallsPartition(calls[..|calls| - 1]);
    }
  }

  lemma {:induction false} WaitsBound(calls: seq<Call>)
    requires forall c :: 0 <= c < |calls| ==> calls[c].waits <= MAX_POLLS
    ensures Waits(calls) <= MAX_POLLS * |calls|
  {
    if |calls| != 0 {
      WaitsBound(calls[..|calls| - 1]);
    }
  }

  lemma {:induction false} CountZero(calls: seq<Call>, k: Kind)
    ensures Count(calls, k) == 0 <==> !Some(calls, k)
  {
    if |calls| != 0 {
      var n := |calls| - 1;
      CountZero(calls[..n], k);
      if Is(k, calls[n].at) {
        assert Some(calls, k);
      } else if Some(calls[..n], k) {
        var c :| 0 <= c < n && Is(k, calls[..n][c].at);
        assert Is(k, calls[c].at);
      } else {
        assert forall c :: 0 <= c < n ==> calls[..n][c] == calls[c];
      }
    }
  }

  /** With one call in flight, every other call has pushed or returned. */
  lemma {:induction false} OnlyOne(calls: seq<Call>, k: Kind, c: nat, d: nat)
    requires c < |calls| && d < |calls| && c != d && Is(k, calls[c].at) && Is(k, calls[d].at)
    ensures Count(calls, k) >= 2
  {
    var n := |calls| - 1;
    if c == n || d == n {
      var o := if c == n then d else c;
      assert Is(k, calls[..n][o].at);
      CountZero(calls[..n], k);
    } else {
      OnlyOne(calls[..n], k, c, d);
    }
  }

  // ---------------------------------------------------------------- preservation, one invariant at a time

  lemma InitInv(cap: nat, blocking: bool)
    requires 0 < cap
    ensures Inv(Init(cap, blocking))
  {
  }

  lemma QueueKept(s: State, step: Step)
    requires Queue(s)
    ensures Queue(Next(s, step))
  {
  }

  lemma SignalledKept(s: State, c: nat)
    requires !s.chan.panicked && c < |s.calls| && Signalled(s)
    ensures Signalled(Produced(s, c))
  {
    var s' := Produced(s, c);
    if !s'.chan.token {
      var q :| 0 <= q < |s.calls| && Is(IsSignalling, s.calls[q].at);
      assert Is(IsSignalling, s'.calls[q].at);
    }
  }

  lemma SignalledMore(s: State, call: Call)
    requires Signalled(s)
    ensures Signalled(s.(calls := s.calls + [call]))
  {
    if !s.chan.token {
      var q :| 0 <= q < |s.calls| && Is(IsSignalling, s.calls[q].at);
      assert Is(IsSignalling, (s.calls + [call])[q].at);
    }
  }

  lemma PushSignals(s: State, c: nat)
    requires !s.chan.panicked && c < |s.calls| && s.calls[c].at.Pushing? && |s.flow.ring| != s.cap
    ensures Signalled(Produced(s, c))
  {
    assert Is(IsSignalling, Produced(s, c).calls[c].at);
  }

  lemma WakeupKeptByCall(s: State, c: nat)
    requires Queue(s) && Wakeup(s) && !s.chan.panicked && c < |s.calls|
    ensures Wakeup(Produced(s, c))
  {
    if Signalled(s) {
      SignalledKept(s, c);
    }
    if s.calls[c].at.Pushing? && |s.flow.ring| != s.cap {
      PushSignals(s, c);
    }
  }

  lemma WakeupKept(s: State, step: Step)
    requires Queue(s) && Wakeup(s)
    ensures Wakeup(Next(s, step))
  {
    if !s.chan.panicked {
      match step {
        case Produce(c) => if c < |s.calls| { WakeupKeptByCall(s, c); }
        case Submit(e) => if Signalled(s) { SignalledMore(s, Call(e, Entered, 0)); }
        case _ =>
      }
    }
  }

  /** A call's step moves that call only. */
  lemma OneCallMoves(s: State, c: nat)
    requires !s.chan.panicked && c < |s.calls|
    ensures var calls' := Produced(s, c).calls;
            |calls'| == |s.calls| && calls' == s.calls[c := calls'[c]] && calls'[c].event == s.calls[c].event
    ensures Is(HasPushed, s.calls[c].at) ==> Is(HasPushed, Produced(s, c).calls[c].at)
    ensures Produced(s, c).flow.accepted
            == s.flow.accepted + (if Is(HasPushed, Produced(s, c).calls[c].at) && !Is(HasPushed, s.calls[c].at)
                                  then [s.calls[c].event] else [])
  {
  }

  lemma CountersKeptByCall(s: State, c: nat)
    requires Counters(s) && !s.chan.panicked && c < |s.calls|
    ensures Counters(Produced(s, c))
  {
    OneCallMoves(s, c);
    var call := Produced(s, c).calls[c];
    CountUpdate(s.calls, c, call, IsDropped);
    CountUpdate(s.calls, c, call, IsRefused);
    CountUpdate(s.calls, c, call, HasPushed);
  }

  lemma DrainIsNotAPush(s: State, step: Step)
    requires !step.Submit? && !step.Produce?
    ensures var s' := Next(s, step);
            s'.calls == s.calls && s'.flow.accepted == s.flow.accepted && |s'.flow.ring| <= |s.flow.ring|
            && s'.stats.dropped == s.stats.dropped && s'.stats.refused == s.stats.refused
            && s'.stats.blocked == s.stats.blocked && (s.chan.closing ==> s'.chan.closing)
  {
  }

  lemma CountersKept(s: State, step: Step)
    requires Counters(s)
    ensures Counters(Next(s, step))
  {
    if !s.chan.panicked {
      match step {
        case Produce(c) => if c < |s.calls| { CountersKeptByCall(s, c); }
        case Submit(e) =>
          var call := Call(e, Entered, 0);
          CountAppend(s.calls, call, IsDropped);
          CountAppend(s.calls, call, IsRefused);
          CountAppend(s.calls, call, HasPushed);
        case _ =>
          DrainIsNotAPush(s, step);
      }
    }
  }

  lemma ContentsKeptByCall(s: State, c: nat)
    requires Contents(s) && !s.chan.panicked && c < |s.calls|
    ensures Contents(Produced(s, c))
  {
    OneCallMoves(s, c);
    var s' := Produced(s, c);
    PushedUpdate(s.calls, c, s'.calls[c]);
    assert multiset(s'.flow.accepted) == PushedEvents(s'.calls);
  }

  lemma ContentsKeptBySubmit(s: State, e: EventId)
    requires Contents(s)
    ensures Contents(Submitted(s, e))
  {
  }

  lemma ContentsKept(s: State, step: Step)
    requires Contents(s)
    ensures Contents(Next(s, step))
  {
    if !s.chan.panicked {
      match step {
        case Produce(c) => if c < |s.calls| { ContentsKeptByCall(s, c); }
        case Submit(e) => ContentsKeptBySubmit(s, e);
        case _ =>
          DrainIsNotAPush(s, step);
      }
    }
  }

  lemma CallIsNotADrain(s: State, c: nat)
    requires !s.chan.panicked && c < |s.calls|
    ensures var s' := Produced(s, c);
            s'.flow.popped == s.flow.popped && s'.flow.handled == s.flow.handled
            && s'.consumer == s.consumer && s'.shutdown == s.shutdown
            && s'.stats.processed == s.stats.processed && s'.stats.latencies == s.stats.latencies
            && s'.past.together == s.past.together && s'.past.quiet == s.past.quiet
            && s'.chan.closing == s.chan.closing && s'.chan.closed == s.chan.closed && s'.cap == s.cap
            && (s'.chan.panicked ==> s.chan.closed)
  {
  }

  lemma DrainCounts(s: State, d: Drain, ns: Nanos, ok: bool)
    ensures var m, m' := s.stats, DrainStats(s.stats, d, ns, ok);
            var (held, uncounted) := match DrainNext(s, d)
                                   case Going(d') => (Held(d'), Uncounted(d'))
                                   case Over => (0, 0);
            |DrainFlow(s.flow, d).popped| - m'.processed - held == |s.flow.popped| - m.processed - Held(d)
            && |m'.latencies| - m'.processed - uncounted == |m.latencies| - m.processed - Uncounted(d)
  {
  }

  lemma ProcessingKept(s: State, step: Step)
    requires Processing(s)
    ensures Processing(Next(s, step))
  {
    if !s.chan.panicked {
      match step {
        case Produce(c) => if c < |s.calls| { CallIsNotADrain(s, c); }
        case Submit(e) =>
        case Consume(ns, ok) => if s.consumer.Busy? { DrainCounts(s, s.consumer.drain, ns, ok); }
        case FinalDrain(ns, ok) => if s.shutdown.Final? { DrainCounts(s, s.shutdown.drain, ns, ok); }
        case _ =>
      }
    }
  }

  lemma CallOkKept(s: State, c: nat)
    requires Blocking(s) && !s.chan.panicked && c < |s.calls|
    ensures Blocking(Produced(s, c))
  {
    OneCallMoves(s, c);
    var s' := Produced(s, c);
    WaitsUpdate(s.calls, c, s'.calls[c]);
    assert CallOk(s, s.calls[c]);
    assert CallOk(s', s'.calls[c]);
    forall d | 0 <= d < |s'.calls|
      ensures CallOk(s', s'.calls[d])
    {
      assert CallOk(s, s.calls[d]);
    }
  }

  lemma CallsOkKept(s: State, s': State)
    requires Blocking(s) && s'.calls == s.calls && s'.stats.blocked == s.stats.blocked && s'.blocking == s.blocking
    requires s.chan.closing ==> s'.chan.closing
    ensures Blocking(s')
  {
  }

  lemma BlockingKeptBySubmit(s: State, e: EventId)
    requires Blocking(s)
    ensures Blocking(Submitted(s, e))
  {
  }

  lemma BlockingKept(s: State, step: Step)
    requires Blocking(s)
    ensures Blocking(Next(s, step))
  {
    if !s.chan.panicked {
      match step {
        case Produce(c) => if c < |s.calls| { CallOkKept(s, c); }
        case Submit(e) => BlockingKeptBySubmit(s, e);
        case _ =>
          DrainIsNotAPush(s, step);
          ConfigKept(s, step);
          CallsOkKept(s, Next(s, step));
      }
    }
  }

  lemma AloneKeptByCall(s: State, c: nat)
    requires Queue(s) && Alone(s) && !s.chan.panicked && c < |s.calls|
    ensures Alone(Produced(s, c))
  {
    OneCallMoves(s, c);
    var s' := Produced(s, c);
    CountUpdate(s.calls, c, s'.calls[c], InFlight);
    if !s.past.overlapped {
      assert SpaceKept(s, s.calls[c].at);
      forall d | 0 <= d < |s.calls|
        ensures SpaceKept(s', s'.calls[d].at)
      {
        assert SpaceKept(s, s.calls[d].at);
        if d != c && Is(InFlight, s.calls[c].at) && Is(InFlight, s.calls[d].at) {
          OnlyOne(s.calls, InFlight, c, d);
        }
      }
    }
  }

  lemma AloneKept(s: State, step: Step)
    requires Queue(s) && Alone(s)
    ensures Alone(Next(s, step))
  {
    var s' := Next(s, step);
    if !s.chan.panicked {
      match step {
        case Produce(c) => if c < |s.calls| { AloneKeptByCall(s, c); }
        case Submit(e) =>
          CountAppend(s.calls, Call(e, Entered, 0), InFlight);
          CountZero(s.calls, InFlight);
        case _ =>
          DrainIsNotAPush(s, step);
      }
    }
  }

  lemma RacedKept(s: State, step: Step)
    requires Queue(s) && Raced(s)
    ensures Raced(Next(s, step))
  {
  }

  lemma NoneKept(s: State, c: nat)
    requires s.chan.closing && !s.chan.panicked && c < |s.calls| && !Some(s.calls, PastCheck)
    ensures !Some(Produced(s, c).calls, PastCheck) && !Produced(s, c).chan.panicked
    ensures Produced(s, c).flow == s.flow
  {
  }

  lemma PhasesKept(s: State, step: Step)
    requires Phases(s)
    ensures Phases(Next(s, step))
  {
  }

  lemma QuietKeptByShutdown(s: State, step: Step)
    requires Queue(s) && Phases(s) && Quiet(s) && !s.chan.panicked
    ensures Quiet(ShuttingDown(s, step))
  {
  }

  lemma QuietKept(s: State, step: Step)
    requires Queue(s) && Phases(s) && Quiet(s)
    ensures Quiet(Next(s, step))
  {
    if !s.chan.panicked {
      match step {
        case Produce(c) =>
          if c < |s.calls| {
            CallIsNotADrain(s, c);
            if s.chan.closing && s.past.quiet { NoneKept(s, c); }
          }
        case Submit(e) => assert !Is(PastCheck, Entered);
        case Consume(ns, ok) => DrainIsNotAPush(s, step);
        case _ => QuietKeptByShutdown(s, step);
      }
    }
  }

  lemma OnceKeptByDrain(s: State, d: Drain, s': State)
    requires Once(s) && s.consumer == Busy(d) && s'.shutdown == s.shutdown && s'.flow == DrainFlow(s.flow, d)
    requires s'.consumer == match DrainNext(s, d) case Going(d') => Busy(d') case Over => Parked
    ensures Once(s')
  {
  }

  lemma OnceKeptByConsumer(s: State, ns: Nanos, ok: bool)
    requires Once(s)
    ensures Once(Consumed(s, ns, ok))
  {
    var s' := Consumed(s, ns, ok);
    if s.consumer.Busy? {
      OnceKeptByDrain(s, s.consumer.drain, s');
    } else {
      assert s'.flow == s.flow && s'.shutdown == s.shutdown;
      assert ConsumerHand(s') == ConsumerHand(s) == [] && ShutdownHand(s') == ShutdownHand(s);
    }
  }

  lemma OnceKeptByFinalDrain(s: State, d: Drain, s': State)
    requires Once(s) && s.shutdown == Final(d) && s'.consumer == s.consumer && s'.flow == DrainFlow(s.flow, d)
    requires s'.shutdown == match DrainNext(s, d) case Going(d') => Final(d') case Over => Finished(true)
    ensures Once(s')
  {
  }

  lemma OnceKeptByShutdown(s: State, step: Step)
    requires Once(s)
    ensures Once(ShuttingDown(s, step))
  {
    var s' := ShuttingDown(s, step);
    if s.shutdown.Final? {
      if step.FinalDrain? {
        OnceKeptByFinalDrain(s, s.shutdown.drain, s');
      }
    } else {
      assert s'.flow == s.flow && s'.consumer == s.consumer;
      assert ShutdownHand(s') == ShutdownHand(s) == [] && ConsumerHand(s') == ConsumerHand(s);
    }
  }

  lemma OnceKept(s: State, step: Step)
    requires Once(s)
    ensures Once(Next(s, step))
  {
    if !s.chan.panicked {
      match step {
        case Produce(c) => if c < |s.calls| { CallIsNotADrain(s, c); }
        case Submit(e) =>
        case Consume(ns, ok) => OnceKeptByConsumer(s, ns, ok);
        case _ => OnceKeptByShutdown(s, step);
      }
    }
  }

  lemma InOrderKept(s: State, step: Step)
    requires InOrder(s)
    ensures InOrder(Next(s, step))
  {
  }

  lemma InvKept(s: State, step: Step)
    requires Inv(s)
    ensures Inv(Next(s, step))
  {
    QueueKept(s, step);
    WakeupKept(s, step);
    CountersKept(s, step);
    ContentsKept(s, step);
    ProcessingKept(s, step);
    BlockingKept(s, step);
    AloneKept(s, step);
    RacedKept(s, step);
    PhasesKept(s, step);
    QuietKept(s, step);
    OnceKept(s, step);
    InOrderKept(s, step);
  }

  lemma ConfigKept(s: State, step: Step)
    ensures Next(s, step).cap == s.cap && Next(s, step).blocking == s.blocking
  {
  }

  lemma {:induction false} InvRun(s: State, steps: seq<Step>)
    requires Inv(s)
    ensures Inv(Run(s, steps)) && Run(s, steps).cap == s.cap && Run(s, steps).blocking == s.blocking
  {
    if |steps| != 0 {
      var before := Run(s, steps[..|steps| - 1]);
      InvRun(s, steps[..|steps| - 1]);
      InvKept(before, steps[|steps| - 1]);
      ConfigKept(before, steps[|steps| - 1]);
    }
  }

  /** The invariants hold in every state of every schedule. */
  lemma Always(cap: nat, blocking: bool, steps: seq<Step>)
    requires 0 < cap
    ensures var s := Run(Init(cap, blocking), steps); Inv(s) && s.cap == cap && s.blocking == blocking
  {
    InitInv(cap, blocking);
    InvRun(Init(cap, blocking), steps);
  }
}
