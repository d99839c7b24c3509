/** Two things that can go wrong around Shutdown: a send on the closed channel, and events
    handed over out of order. For each the exact condition, and schedules from a fresh
    worker on which it happens. */
module WorkerFailures {
  import opened Worker
  import opened WorkerInvariants
  import opened WorkerTheorems

  // ---------------------------------------------------------------- composing schedules

  lemma {:induction false} RunCons(s: State, step: Step, rest: seq<Step>)
    ensures Run(s, [step] + rest) == Run(Next(s, step), rest)
  {
    var all := [step] + rest;
    if |rest| == 0 {
      assert all[..0] == [];
    } else {
      assert all[..|all| - 1] == [step] + rest[..|rest| - 1];
      RunCons(s, step, rest[..|rest| - 1]);
    }
  }

  lemma {:induction false} RunCat(s: State, first: seq<Step>, rest: seq<Step>)
    ensures Run(s, first + rest) == Run(Run(s, first), rest)
  {
    if |rest| == 0 {
      assert first + rest == first;
    } else {
      assert (first + rest)[..|first + rest| - 1] == first + rest[..|rest| - 1];
      RunCat(s, first, rest[..|rest| - 1]);
    }
  }

  lemma RunTwo(s: State, x: Step, y: Step)
    ensures Run(s, [x, y]) == Next(Next(s, x), y)
  {
    RunCons(s, x, [y]);
    RunCons(Next(s, x), y, []);
  }

  predicate NoSubmit(steps: seq<Step>)
  {
    forall i :: 0 <= i < |steps| ==> !steps[i].Submit?
  }

  /** No Submit begins and no wait is cut short. */
  predicate Calm(steps: seq<Step>)
  {
    NoSubmit(steps) && forall i :: 0 <= i < |steps| ==> !steps[i].WaitTimeout?
  }

  /** Some calm schedule leads from s to t. */
  ghost predicate Reaches(s: State, t: State)
  {
    exists steps :: Calm(steps) && Run(s, steps) == t
  }

  lemma ReachesOne(s: State, step: Step)
    requires !step.Submit? && !step.WaitTimeout?
    ensures Reaches(s, Next(s, step))
  {
    RunCons(s, step, []);
    assert Calm([step] + []);
  }

  lemma ReachesSelf(s: State)
    ensures Reaches(s, s)
  {
    assert Calm([]) && Run(s, []) == s;
  }

  lemma ReachesTwo(s: State, x: Step, y: Step)
    requires !x.Submit? && !y.Submit? && !x.WaitTimeout? && !y.WaitTimeout?
    ensures Reaches(s, Next(Next(s, x), y))
  {
    ReachesOne(s, x);
    ReachesOne(Next(s, x), y);
    ReachesTrans(s, Next(s, x), Next(Next(s, x), y));
  }

  lemma ReachesTrans(s: State, t: State, u: State)
    requires Reaches(s, t) && Reaches(t, u)
    ensures Reaches(s, u)
  {
    var a :| Calm(a) && Run(s, a) == t;
    var b :| Calm(b) && Run(t, b) == u;
    RunCat(s, a, b);
    assert Calm(a + b);
  }

  // ---------------------------------------------------------------- sending on the closed channel

  /** Call c is past its last look at the closing flag and can still get to the channel:
      it has pushed, or there is room, or a drain will make room. */
  predicate CanStillSend(s: State, c: nat)
    requires c < |s.calls|
  {
    Is(PastCheck, s.calls[c].at) && (s.cap <= MAX_DRAIN || s.calls[c].at.Signalling? || |s.flow.ring| < s.cap)
  }

  /** The steps that bring down the process when Shutdown begins beside call c. */
  function Crash(at: Place, c: nat): seq<Step>
  {
    match at
    case Signalling => [Produce(c)]
    case Pushing(_) => [Produce(c), Produce(c)]
    case LastLook(_, _) => [Produce(c), Produce(c), Produce(c)]
    case _ => [Produce(c), Produce(c), Produce(c), Produce(c)]
  }

  lemma CrashFromPushing(s: State, c: nat)
    requires !s.chan.panicked && s.chan.closed && c < |s.calls|
    requires s.calls[c].at.Signalling? || (s.calls[c].at.Pushing? && |s.flow.ring| < s.cap)
    ensures Run(s, Crash(s.calls[c].at, c)).chan.panicked
  {
    if s.calls[c].at.Pushing? {
      var s' := Next(s, Produce(c));
      assert s'.calls[c].at.Signalling? && !s'.chan.panicked && s'.chan.closed;
      RunTwo(s, Produce(c), Produce(c));
    } else {
      RunCons(s, Produce(c), []);
    }
  }

  lemma CrashFromCheck(s: State, c: nat)
    requires !s.chan.panicked && s.chan.closed && c < |s.calls| && Is(PastCheck, s.calls[c].at)
    requires s.calls[c].at.Signalling? || |s.flow.ring| < s.cap
    ensures Run(s, Crash(s.calls[c].at, c)).chan.panicked
  {
    var at := s.calls[c].at;
    if at.Polling? || at.LastLook? {
      var s' := Next(s, Produce(c));
      assert s'.flow == s.flow && s'.chan == s.chan;
      CrashFromCheck'(s', c, at);
      assert Crash(at, c) == [Produce(c)] + Crash(s'.calls[c].at, c);
      RunCons(s, Produce(c), Crash(s'.calls[c].at, c));
    } else {
      CrashFromPushing(s, c);
    }
  }

  lemma CrashFromCheck'(s: State, c: nat, before: Place)
    requires !s.chan.panicked && s.chan.closed && c < |s.calls| && |s.flow.ring| < s.cap
    requires if before.Polling? then s.calls[c].at.LastLook? else s.calls[c].at.Pushing?
    ensures Run(s, Crash(s.calls[c].at, c)).chan.panicked
  {
    if before.Polling? {
      var s' := Next(s, Produce(c));
      assert s'.flow == s.flow && s'.chan == s.chan && s'.calls[c].at.Pushing?;
      CrashFromPushing(s', c);
      assert Crash(s.calls[c].at, c) == [Produce(c)] + Crash(s'.calls[c].at, c);
      RunCons(s, Produce(c), Crash(s'.calls[c].at, c));
    } else {
      CrashFromPushing(s, c);
    }
  }

  /** The steps of a Shutdown that free a slot of a full ring for call c. */
  function MakeRoom(s: State, c: nat): seq<Step>
    requires c < |s.calls|
  {
    if s.calls[c].at.Signalling? || |s.flow.ring| < s.cap then []
    else [WaitTimeout] + [FinalDrain(0, true), FinalDrain(0, true)]
  }

  lemma RoomMade(s: State, c: nat)
    requires !s.chan.panicked && s.chan.closed && s.shutdown.Waiting? && c < |s.calls|
    requires 0 < s.cap <= MAX_DRAIN && |s.flow.ring| == s.cap && !s.calls[c].at.Signalling?
    ensures var s' := Run(s, MakeRoom(s, c));
            !s'.chan.panicked && s'.chan.closed && s'.calls == s.calls && s'.cap == s.cap && |s'.flow.ring| < s'.cap
  {
    var s1 := Next(s, WaitTimeout);
    assert s1.shutdown == Final(Head(0)) && s1.flow == s.flow && s1.chan == s.chan && s1.calls == s.calls && s1.cap == s.cap;
    RunTwo(s1, FinalDrain(0, true), FinalDrain(0, true));
    PopMakesRoom(s1);
    RunCons(s, WaitTimeout, [FinalDrain(0, true), FinalDrain(0, true)]);
  }

  lemma PopMakesRoom(s: State)
    requires !s.chan.panicked && s.shutdown == Final(Head(0)) && |s.flow.ring| != 0
    ensures var s' := Next(Next(s, FinalDrain(0, true)), FinalDrain(0, true));
            s'.chan == s.chan && s'.calls == s.calls && s'.cap == s.cap && |s'.flow.ring| == |s.flow.ring| - 1
  {
  }

  lemma CrashReached(s: State, c: nat)
    requires !s.chan.panicked && s.shutdown.Idle? && c < |s.calls| && CanStillSend(s, c)
    requires 0 < s.cap && |s.flow.ring| <= s.cap
    ensures Run(Next(s, BeginShutdown), [CloseChannels] + (MakeRoom(s, c) + Crash(s.calls[c].at, c))).chan.panicked
  {
    var s1 := Next(s, BeginShutdown);
    var s2 := Next(s1, CloseChannels);
    assert s2.chan.closed && !s2.chan.panicked && s2.calls == s.calls && s2.flow == s.flow && s2.cap == s.cap;
    assert s2.consumer == s.consumer && s2.shutdown.Waiting?;
    var s3 := Run(s2, MakeRoom(s, c));
    if MakeRoom(s, c) != [] {
      RoomMade(s2, c);
    }
    CrashFromCheck(s3, c);
    RunCat(s2, MakeRoom(s, c), Crash(s.calls[c].at, c));
    RunCons(s1, CloseChannels, MakeRoom(s, c) + Crash(s.calls[c].at, c));
  }

  lemma {:induction false} QuietStaysUp(s: State, more: seq<Step>)
    requires Inv(s) && s.chan.closing && s.past.quiet
    ensures var s' := Run(s, more); !s'.chan.panicked && s'.chan.closing && s'.past.quiet && Inv(s')
  {
    if |more| != 0 {
      QuietStaysUp(s, more[..|more| - 1]);
      InvRun(s, more);
      QuietStepStays(Run(s, more[..|more| - 1]), more[|more| - 1]);
    }
  }

  lemma QuietStepStays(s: State, step: Step)
    requires Phases(s) && s.chan.closing && s.past.quiet
    ensures var s' := Next(s, step); s'.chan.closing && s'.past.quiet
  {
  }

  /** A full ring that nobody drains, and no call about to send. */
  predicate Stuck(s: State)
  {
    s.cap > MAX_DRAIN && Untouched(s) && |s.flow.ring| == s.cap && s.chan.closing && !s.chan.panicked
    && forall c :: 0 <= c < |s.calls| ==> !s.calls[c].at.Signalling?
  }

  lemma StuckKept(s: State, step: Step)
    requires Stuck(s)
    ensures Stuck(Next(s, step))
  {
  }

  lemma {:induction false} StuckStays(s: State, more: seq<Step>)
    requires Stuck(s)
    ensures Stuck(Run(s, more))
  {
    if |more| != 0 {
      StuckStays(s, more[..|more| - 1]);
      StuckKept(Run(s, more[..|more| - 1]), more[|more| - 1]);
    }
  }

  lemma BeginsSafely(s: State, more: seq<Step>)
    requires Inv(s) && Untouched(s) && s.shutdown.Idle?
    requires forall c :: 0 <= c < |s.calls| ==> !CanStillSend(s, c)
    ensures !Run(Next(s, BeginShutdown), more).chan.panicked
  {
    var s1 := Next(s, BeginShutdown);
    InvKept(s, BeginShutdown);
    if Some(s.calls, PastCheck) {
      var c :| 0 <= c < |s.calls| && Is(PastCheck, s.calls[c].at);
      assert !CanStillSend(s, c);
      forall d | 0 <= d < |s1.calls|
        ensures !s1.calls[d].at.Signalling?
      {
        assert !CanStillSend(s, d);
      }
      assert Stuck(s1);
      StuckStays(s1, more);
    } else {
      QuietStaysUp(s1, more);
    }
  }

  lemma {:induction false} AlwaysUntouched(cap: nat, blocking: bool, steps: seq<Step>)
    requires 0 < cap
    ensures Untouched(Run(Init(cap, blocking), steps))
  {
    Always(cap, blocking, steps);
    if cap > MAX_DRAIN {
      OversizedRingDeliversNothing(cap, blocking, steps);
    }
  }

  /** When Shutdown can bring down the process: beginning it in a state of any run, some
      continuation sends on the closed channel if and only if a call is past its closing
      check and could still push or has pushed already. */
  lemma {:induction false} PanicExactly(cap: nat, blocking: bool, steps: seq<Step>)
    requires 0 < cap && Run(Init(cap, blocking), steps).shutdown.Idle?
    ensures var s := Run(Init(cap, blocking), steps);
            (exists more :: Run(Next(s, BeginShutdown), more).chan.panicked)
            <==> exists c :: 0 <= c < |s.calls| && CanStillSend(s, c)
  {
    Always(cap, blocking, steps);
    AlwaysUntouched(cap, blocking, steps);
    PanicFrom(Run(Init(cap, blocking), steps));
  }

  lemma PanicFrom(s: State)
    requires Inv(s) && Untouched(s) && s.shutdown.Idle?
    ensures (exists more :: Run(Next(s, BeginShutdown), more).chan.panicked)
            <==> exists c :: 0 <= c < |s.calls| && CanStillSend(s, c)
  {
    if c :| 0 <= c < |s.calls| && CanStillSend(s, c) {
      CrashReached(s, c);
    } else {
      forall more
        ensures !Run(Next(s, BeginShutdown), more).chan.panicked
      {
        BeginsSafely(s, more);
      }
    }
  }

  /** It does happen, for every capacity and mode: one call passes its closing check and
      Shutdown begins. */
  lemma {:induction false} PanicHappens(cap: nat, blocking: bool, e: EventId)
    requires 0 < cap
    ensures exists more :: Run(Init(cap, blocking), [Submit(e), Produce(0)] + ([BeginShutdown] + more)).chan.panicked
  {
    var start := [Submit(e), Produce(0)];
    var s := Run(Init(cap, blocking), start);
    RunTwo(Init(cap, blocking), Submit(e), Produce(0));
    assert CanStillSend(s, 0);
    PanicExactly(cap, blocking, start);
    var more :| Run(Next(s, BeginShutdown), more).chan.panicked;
    RunCons(s, BeginShutdown, more);
    RunCat(Init(cap, blocking), start, [BeginShutdown] + more);
  }

  // ---------------------------------------------------------------- one call, from start to end

  /** Submitting one event into a ring with room, to the end. */
  function OneSubmit(e: EventId, c: nat): seq<Step>
  {
    [Submit(e)] + ([Produce(c), Produce(c)] + ([Produce(c), Produce(c)] + [Produce(c)]))
  }

  /** An open worker whose n calls have returned. */
  predicate Settled(s: State, n: nat)
  {
    !s.chan.panicked && !s.chan.closing && !s.chan.closed && |s.calls| == n
    && forall c :: 0 <= c < n ==> s.calls[c].at.Done?
  }

  lemma Looks(s: State, e: EventId)
    requires Settled(s, |s.calls|) && |s.flow.ring| < s.cap
    ensures var c := |s.calls|;
            var s' := Run(Next(s, Submit(e)), [Produce(c), Produce(c)]);
            s'.flow == s.flow && s'.chan == s.chan && s'.consumer == s.consumer && s'.shutdown == s.shutdown
            && s'.cap == s.cap && s'.blocking == s.blocking && |s'.calls| == c + 1 && s'.calls[..c] == s.calls && s'.calls[c].event == e
            && if s.blocking then s'.calls[c].at.LastLook? else s'.calls[c].at.Pushing?
  {
    RunTwo(Next(s, Submit(e)), Produce(|s.calls|), Produce(|s.calls|));
  }

  lemma LastLooks(s: State, c: nat)
    requires !s.chan.panicked && !s.chan.closed && c < |s.calls| && |s.flow.ring| < s.cap && s.calls[c].at.LastLook?
    ensures var s' := Next(s, Produce(c));
            s' == s.(calls := s.calls[c := s.calls[c].(at := Pushing(|s.flow.accepted|))])
  {
  }

  lemma PushesAndReturns(s: State, c: nat)
    requires !s.chan.panicked && !s.chan.closed && c < |s.calls| && |s.flow.ring| < s.cap && s.calls[c].at.Pushing?
    ensures var s' := Run(s, [Produce(c), Produce(c)]);
            s'.flow.ring == s.flow.ring + [s.calls[c].event] && s'.flow.handled == s.flow.handled
            && s'.chan == s.chan.(token := true) && s'.consumer == s.consumer && s'.shutdown == s.shutdown
            && s'.cap == s.cap && s'.blocking == s.blocking && |s'.calls| == |s.calls| && s'.calls[c].at.Done?
            && s'.calls[..c] == s.calls[..c]
  {
    RunTwo(s, Produce(c), Produce(c));
  }

  lemma DoneStays(s: State, c: nat)
    requires c < |s.calls| && s.calls[c].at.Done?
    ensures Next(s, Produce(c)) == s
  {
    assert s.calls[c := s.calls[c]] == s.calls;
  }

  /** From the last look to the end; without the look the last step has nothing to do. */
  lemma Finishes(s: State, c: nat)
    requires !s.chan.panicked && !s.chan.closed && c < |s.calls| && |s.flow.ring| < s.cap
    requires s.calls[c].at.LastLook? || s.calls[c].at.Pushing?
    ensures var s' := Run(s, [Produce(c), Produce(c)] + [Produce(c)]);
            s'.flow.ring == s.flow.ring + [s.calls[c].event] && s'.flow.handled == s.flow.handled
            && s'.chan == s.chan.(token := true) && s'.consumer == s.consumer && s'.shutdown == s.shutdown
            && s'.cap == s.cap && s'.blocking == s.blocking && |s'.calls| == |s.calls| && s'.calls[c].at.Done?
            && s'.calls[..c] == s.calls[..c]
  {
    var p := Produce(c);
    if s.calls[c].at.LastLook? {
      LastLooks(s, c);
      PushesAndReturns(Next(s, p), c);
      RunCons(s, p, [p, p]);
      assert [p] + [p, p] == [p, p] + [p];
    } else {
      PushesAndReturns(s, c);
      RunCat(s, [p, p], [p]);
      RunCons(Run(s, [p, p]), p, []);
      DoneStays(Run(s, [p, p]), c);
    }
  }

  lemma SettledOneMore(s: State, s': State, n: nat)
    requires Settled(s, n) && |s'.calls| == n + 1 && s'.calls[..n] == s.calls && s'.calls[n].at.Done?
    requires s'.chan == s.chan.(token := true)
    ensures Settled(s', n + 1)
  {
    assert forall c :: 0 <= c < n ==> s'.calls[c] == s'.calls[..n][c];
  }

  lemma {:induction false} OneMore(s: State, e: EventId, n: nat)
    requires Settled(s, n) && |s.flow.ring| < s.cap
    ensures var s' := Run(s, OneSubmit(e, n));
            Settled(s', n + 1) && s'.cap == s.cap && s'.blocking == s.blocking
            && s'.flow.ring == s.flow.ring + [e] && s'.consumer == s.consumer && s'.shutdown == s.shutdown
            && s'.chan.token && s'.flow.handled == s.flow.handled
  {
    var p := Produce(n);
    var s1 := Next(s, Submit(e));
    Looks(s, e);
    Finishes(Run(s1, [p, p]), n);
    SettledOneMore(s, Run(Run(s1, [p, p]), [p, p] + [p]), n);
    RunCat(s1, [p, p], [p, p] + [p]);
    RunCons(s, Submit(e), [p, p] + ([p, p] + [p]));
  }

  // ---------------------------------------------------------------- handing over out of order

  /** Accepted, but not yet handed over, oldest first. */
  function Pending(s: State): seq<EventId>
  {
    ConsumerHand(s) + s.flow.ring
  }

  predicate Differs(p: seq<EventId>, m: nat)
  {
    0 < m < |p| && p[m] != p[m - 1]
  }

  /** What was handed over is not the beginning of what was accepted. */
  predicate OutOfOrder(s: State)
  {
    !(s.flow.handled <= s.flow.accepted)
  }

  lemma TakesNext(s: State, d: nat) returns (u: State)
    requires !s.chan.panicked && s.shutdown == Final(Head(d)) && d < MAX_DRAIN && |s.flow.ring| != 0
    ensures Reaches(s, u) && !u.chan.panicked && u.shutdown == Final(Holding(s.flow.ring[0], d))
            && u.flow.ring == s.flow.ring[1..] && u.flow.handled == s.flow.handled && u.flow.accepted == s.flow.accepted
  {
    var f := FinalDrain(0, true);
    ReachesTwo(s, f, f);
    u := Next(Next(s, f), f);
  }

  lemma HandsOver(s: State, e: EventId, d: nat) returns (u: State)
    requires !s.chan.panicked && s.shutdown == Final(Holding(e, d))
    ensures Reaches(s, u) && !u.chan.panicked && u.shutdown == Final(Head(d + 1))
            && u.flow.ring == s.flow.ring && u.flow.handled == s.flow.handled + [e] && u.flow.accepted == s.flow.accepted
  {
    var f := FinalDrain(0, true);
    ReachesTwo(s, f, f);
    u := Next(Next(s, f), f);
  }

  /** s' is s after its drain loop has handed over n events. */
  predicate DrainedBy(s: State, s': State, n: nat)
    requires n <= |s.flow.ring|
  {
    !s'.chan.panicked && s'.shutdown == Final(Head(n)) && s'.flow.ring == s.flow.ring[n..]
    && s'.flow.handled == s.flow.handled + s.flow.ring[..n] && s'.flow.accepted == s.flow.accepted
  }

  lemma DrainedOneMore(s: State, t: State, u: State, n: nat)
    requires 0 < n <= |s.flow.ring| && DrainedBy(s, t, n - 1)
    requires !u.chan.panicked && u.shutdown == Final(Head(n)) && u.flow.ring == t.flow.ring[1..]
    requires u.flow.handled == t.flow.handled + [t.flow.ring[0]] && u.flow.accepted == t.flow.accepted
    ensures DrainedBy(s, u, n)
  {
    OneFurther(s.flow.handled, s.flow.ring, n);
  }

  lemma {:induction false} DrainsMany(s: State, n: nat) returns (u: State)
    requires !s.chan.panicked && s.shutdown == Final(Head(0)) && n <= MAX_DRAIN && n <= |s.flow.ring|
    ensures Reaches(s, u) && DrainedBy(s, u, n)
  {
    if n == 0 {
      ReachesSelf(s);
      u := s;
    } else {
      var t := DrainsMany(s, n - 1);
      var taken := TakesNext(t, n - 1);
      u := HandsOver(taken, t.flow.ring[0], n - 1);
      ReachesTrans(s, t, taken);
      ReachesTrans(s, taken, u);
      DrainedOneMore(s, t, u, n);
    }
  }

  lemma OneFurther(handled: seq<EventId>, ring: seq<EventId>, n: nat)
    requires 0 < n <= |ring|
    ensures ring[n - 1..][1..] == ring[n..] && (handled + ring[..n - 1]) + [ring[n - 1..][0]] == handled + ring[..n]
  {
  }

  /** How far the consumer is from popping. */
  function Rank(s: State): nat
  {
    match s.consumer
    case Parked => if s.chan.token then 2 else 3
    case Busy(Head(done)) => if done == MAX_DRAIN then 4 else 1
    case Busy(Holding(_, _)) => 6
    case Busy(Recorded(_)) => 5
    case _ => 0
  }

  /** The calls in flight are where they were. */
  predicate SameFlights(calls: seq<Call>, calls': seq<Call>)
  {
    |calls'| == |calls| && Count(calls', InFlight) == Count(calls, InFlight)
    && forall c :: 0 <= c < |calls| && Is(InFlight, calls[c].at) ==> calls'[c] == calls[c]
  }

  /** The consumer can go on: its ring is not empty, and a send it may wait for does not panic. */
  predicate CanGoOn(s: State)
  {
    Inv(s) && !s.chan.panicked && s.cap <= MAX_DRAIN && |s.flow.ring| != 0 && !s.consumer.Stopped?
    && (s.chan.closed ==> !Some(s.calls, PastCheck))
  }

  /** The step that brings the consumer closer to a pop: its own, or the send it waits for. */
  lemma Signaller(s: State) returns (step: Step)
    requires CanGoOn(s)
    ensures step == Consume(0, true)
            || (s.consumer.Parked? && !s.chan.token && step.Produce? && step.call < |s.calls|
                && s.calls[step.call].at.Signalling? && !s.chan.closed)
    ensures s.consumer.Parked? && !s.chan.token ==> step.Produce?
  {
    step := Consume(0, true);
    if s.consumer.Parked? && !s.chan.token {
      assert Signalled(s);
      var c :| 0 <= c < |s.calls| && Is(IsSignalling, s.calls[c].at);
      assert Is(PastCheck, s.calls[c].at);
      step := Produce(c);
    }
  }

  lemma SendCounts(s: State, c: nat)
    requires !s.chan.panicked && !s.chan.closed && c < |s.calls| && s.calls[c].at.Signalling?
    ensures var s' := Next(s, Produce(c));
            s'.flow == s.flow && s'.shutdown == s.shutdown && s'.consumer == s.consumer && s'.chan == s.chan.(token := true)
            && SameFlights(s.calls, s'.calls) && s'.past == s.past
            && (!Some(s.calls, PastCheck) ==> !Some(s'.calls, PastCheck))
  {
    CountUpdate(s.calls, c, Next(s, Produce(c)).calls[c], InFlight);
  }

  lemma ConsumeCloser(s: State)
    requires !s.chan.panicked && s.cap <= MAX_DRAIN && |s.flow.ring| != 0 && !s.consumer.Stopped?
    requires !(s.consumer.Busy? && s.consumer.drain.Popping?) && (s.consumer.Parked? ==> s.chan.token)
    ensures var s' := Next(s, Consume(0, true));
            s'.flow.ring == s.flow.ring && s'.flow.accepted == s.flow.accepted && s'.shutdown == s.shutdown && s'.calls == s.calls
            && s'.flow.handled + ConsumerHand(s') == s.flow.handled + ConsumerHand(s)
            && s'.chan.closed == s.chan.closed && s'.chan.closing == s.chan.closing && !s'.chan.panicked
            && !s'.consumer.Stopped? && Rank(s') < Rank(s)
  {
  }

  /** s' is s with the oldest event in the consumer's hand; what it held has been handed over. */
  predicate Grabbed(s: State, s': State)
  {
    |s.flow.ring| != 0 && !s'.chan.panicked && s'.shutdown == s.shutdown && ConsumerHand(s') == [s.flow.ring[0]]
    && s'.flow.ring == s.flow.ring[1..] && s'.flow.handled == s.flow.handled + ConsumerHand(s)
    && s'.flow.accepted == s.flow.accepted && SameFlights(s.calls, s'.calls)
    && s'.chan.closing == s.chan.closing && s'.chan.closed == s.chan.closed && Inv(s') && s'.cap == s.cap
  }

  /** t is s after a step towards the next pop. */
  predicate Closer(s: State, t: State)
  {
    t.flow.ring == s.flow.ring && t.flow.accepted == s.flow.accepted && t.shutdown == s.shutdown
    && t.flow.handled + ConsumerHand(t) == s.flow.handled + ConsumerHand(s) && SameFlights(s.calls, t.calls)
    && t.chan.closing == s.chan.closing && t.chan.closed == s.chan.closed && t.cap == s.cap
  }

  lemma GrabbedThrough(s: State, t: State, u: State)
    requires Grabbed(t, u) && Closer(s, t)
    ensures Grabbed(s, u)
  {
    forall c | 0 <= c < |s.calls| && Is(InFlight, s.calls[c].at)
      ensures u.calls[c] == s.calls[c]
    {
      assert t.calls[c] == s.calls[c];
    }
  }

  lemma GrabStep(s: State) returns (t: State)
    requires CanGoOn(s) && !(s.consumer.Busy? && s.consumer.drain.Popping?)
    ensures Reaches(s, t) && CanGoOn(t) && Closer(s, t) && Rank(t) < Rank(s)
  {
    var step := Signaller(s);
    InvKept(s, step);
    ConfigKept(s, step);
    if step.Produce? {
      SendCounts(s, step.call);
    } else {
      ConsumeCloser(s);
    }
    ReachesOne(s, step);
    t := Next(s, step);
  }

  lemma PopsNow(s: State)
    requires CanGoOn(s) && s.consumer.Busy? && s.consumer.drain.Popping?
    ensures Grabbed(s, Next(s, Consume(0, true)))
  {
    InvKept(s, Consume(0, true));
  }

  /** The consumer can take the oldest event in hand. */
  lemma {:induction false} Grabs(s: State) returns (u: State)
    requires CanGoOn(s)
    ensures Reaches(s, u) && Grabbed(s, u)
    decreases Rank(s)
  {
    if s.consumer.Busy? && s.consumer.drain.Popping? {
      PopsNow(s);
      ReachesOne(s, Consume(0, true));
      u := Next(s, Consume(0, true));
    } else {
      var t := GrabStep(s);
      u := Grabs(t);
      ReachesTrans(s, t, u);
      GrabbedThrough(s, t, u);
    }
  }

  lemma {:induction false} OvertakesFrom(s: State, m: nat) returns (u: State)
    requires !s.chan.panicked && s.shutdown == Final(Head(0)) && |s.flow.ring| <= MAX_DRAIN
    requires |ConsumerHand(s)| == 1 && Differs(Pending(s), m) && s.flow.accepted == s.flow.handled + Pending(s)
    ensures Reaches(s, u) && OutOfOrder(u)
  {
    var p := Pending(s);
    u := DrainsMany(s, m);
    var at := |s.flow.handled| + m - 1;
    assert u.flow.handled[at] == s.flow.ring[m - 1] == p[m];
    assert u.flow.accepted[at] == p[m - 1];
  }

  lemma {:induction false} CanOvertake(s: State, m: nat) returns (u: State)
    requires AboutToDrain(s) && Differs(Pending(s), m)
    ensures Reaches(s, u) && OutOfOrder(u)
  {
    if ConsumerHand(s) == [] {
      var t := Grabs(s);
      assert Pending(t) == Pending(s) && t.flow.handled == s.flow.handled;
      u := OvertakesFrom(t, m);
      ReachesTrans(s, t, u);
    } else {
      u := OvertakesFrom(s, m);
    }
  }

  predicate AllOf(es: seq<EventId>, x: EventId)
  {
    forall i :: 0 <= i < |es| ==> es[i] == x
  }

  /** Everything accepted after done is x, wherever it is now. */
  predicate OnlyLeft(s: State, done: seq<EventId>, accepted: seq<EventId>, x: EventId)
  {
    s.flow.accepted == accepted && done <= s.flow.handled && AllOf(s.flow.handled[|done|..], x)
    && AllOf(s.flow.ring, x) && AllOf(ConsumerHand(s), x) && AllOf(ShutdownHand(s), x)
  }

  lemma OnlyLeftByDrain(s: State, d: Drain, done: seq<EventId>, x: EventId)
    requires done <= s.flow.handled && AllOf(s.flow.handled[|done|..], x) && AllOf(s.flow.ring, x) && AllOf(InHand(d), x)
    ensures var f := DrainFlow(s.flow, d);
            f.accepted == s.flow.accepted && done <= f.handled && AllOf(f.handled[|done|..], x) && AllOf(f.ring, x)
            && match DrainNext(s, d) case Going(d') => AllOf(InHand(d'), x) case Over => true
  {
    if d.Holding? {
      assert InHand(d)[0] == x;
    }
  }

  lemma OnlyLeftKept(s: State, step: Step, done: seq<EventId>, accepted: seq<EventId>, x: EventId)
    requires Inv(s) && s.chan.closing && s.past.quiet && OnlyLeft(s, done, accepted, x)
    ensures OnlyLeft(Next(s, step), done, accepted, x)
  {
    match step {
      case Submit(e) =>
      case Produce(c) =>
        if c < |s.calls| {
          NoneKept(s, c);
          CallIsNotADrain(s, c);
        }
      case Consume(ns, ok) => if s.consumer.Busy? { OnlyLeftByDrain(s, s.consumer.drain, done, x); }
      case FinalDrain(ns, ok) => if s.shutdown.Final? { OnlyLeftByDrain(s, s.shutdown.drain, done, x); }
      case _ =>
    }
  }

  lemma {:induction false} OnlyLeftStays(s: State, more: seq<Step>, done: seq<EventId>, accepted: seq<EventId>, x: EventId)
    requires Inv(s) && s.chan.closing && s.past.quiet && OnlyLeft(s, done, accepted, x)
    ensures OnlyLeft(Run(s, more), done, accepted, x) && Inv(Run(s, more))
  {
    if |more| != 0 {
      var init := more[..|more| - 1];
      OnlyLeftStays(s, init, done, accepted, x);
      QuietStaysUp(s, init);
      OnlyLeftKept(Run(s, init), more[|more| - 1], done, accepted, x);
      InvKept(Run(s, init), more[|more| - 1]);
    }
  }

  lemma {:induction false} NeverDiffers(p: seq<EventId>, i: nat)
    requires i < |p| && forall m :: 0 < m < |p| ==> !Differs(p, m)
    ensures p[i] == p[0]
  {
    if i > 0 {
      NeverDiffers(p, i - 1);
      assert !Differs(p, i);
    }
  }

  /** No more is handed over than was accepted. */
  lemma HandedAtMost(s: State)
    requires Inv(s)
    ensures |s.flow.handled| <= |s.flow.accepted|
  {
    var hands := multiset(ConsumerHand(s)) + multiset(ShutdownHand(s));
    assert |multiset(s.flow.handled) + hands| == |multiset(s.flow.popped)|;
  }

  lemma SameBeginning(handled: seq<EventId>, done: seq<EventId>, p: seq<EventId>, x: EventId)
    requires done <= handled && AllOf(handled[|done|..], x) && AllOf(p, x) && |handled| <= |done + p|
    ensures handled <= done + p
  {
    assert forall i :: |done| <= i < |handled| ==> handled[i] == handled[|done|..][i - |done|];
  }

  lemma AllAlike(s: State) returns (x: EventId)
    requires forall m :: 0 < m < |Pending(s)| ==> !Differs(Pending(s), m)
    ensures AllOf(Pending(s), x) && AllOf(s.flow.ring, x) && AllOf(ConsumerHand(s), x)
  {
    var p := Pending(s);
    x := if |p| == 0 then "" else p[0];
    forall i | 0 <= i < |p|
      ensures p[i] == x
    {
      NeverDiffers(p, i);
    }
    assert forall i :: 0 <= i < |s.flow.ring| ==> s.flow.ring[i] == p[|ConsumerHand(s)| + i];
    assert forall i :: 0 <= i < |ConsumerHand(s)| ==> ConsumerHand(s)[i] == p[i];
  }

  /** A quiet Shutdown is about to drain beside the consumer; nothing is out of order yet. */
  predicate AboutToDrain(s: State)
  {
    Inv(s) && s.chan.closing && s.past.quiet && s.shutdown == Final(Head(0)) && !s.consumer.Stopped?
    && s.cap <= MAX_DRAIN && s.flow.accepted == s.flow.handled + Pending(s)
  }

  lemma {:induction false} StaysInOrder(s: State, more: seq<Step>)
    requires AboutToDrain(s) && forall m :: 0 < m < |Pending(s)| ==> !Differs(Pending(s), m)
    ensures !OutOfOrder(Run(s, more))
  {
    var s' := Run(s, more);
    var x := AllAlike(s);
    assert ShutdownHand(s) == [];
    OnlyLeftStays(s, more, s.flow.handled, s.flow.accepted, x);
    HandedAtMost(s');
    SameBeginning(s'.flow.handled, s.flow.handled, Pending(s), x);
  }

  lemma NothingLost(s: State)
    requires Queue(s) && InOrder(s) && s.shutdown.Waiting? && !s.past.together
    ensures s.flow.accepted == s.flow.handled + Pending(s)
  {
    assert ShutdownHand(s) == [];
  }

  lemma TimesOut(s: State)
    requires Inv(s) && s.shutdown.Waiting? && s.past.quiet && !s.past.together && !s.consumer.Stopped? && s.cap <= MAX_DRAIN
    ensures AboutToDrain(Next(s, WaitTimeout)) && Pending(Next(s, WaitTimeout)) == Pending(s)
  {
    InvKept(s, WaitTimeout);
    NothingLost(s);
  }

  lemma CanBreakOrder(s: State, m: nat)
    requires AboutToDrain(s) && Differs(Pending(s), m)
    ensures exists more :: OutOfOrder(Run(s, more))
  {
    var u := CanOvertake(s, m);
    var more :| Calm(more) && Run(s, more) == u;
  }

  lemma ReorderFrom(s: State)
    requires AboutToDrain(s)
    ensures (exists more :: OutOfOrder(Run(s, more))) <==> exists m :: Differs(Pending(s), m)
  {
    if m :| Differs(Pending(s), m) {
      CanBreakOrder(s, m);
    } else {
      forall more
        ensures !OutOfOrder(Run(s, more))
      {
        StaysInOrder(s, more);
      }
    }
  }

  lemma {:induction false} NotTogetherYet(cap: nat, blocking: bool, steps: seq<Step>)
    requires 0 < cap
    ensures var s := Run(Init(cap, blocking), steps);
            s.shutdown.Idle? || s.shutdown.ClosingSet? || s.shutdown.Waiting? ==> !s.past.together
  {
    if |steps| != 0 {
      NotTogetherYet(cap, blocking, steps[..|steps| - 1]);
      NotTogetherStep(Run(Init(cap, blocking), steps[..|steps| - 1]), steps[|steps| - 1]);
    }
  }

  lemma NotTogetherStep(s: State, step: Step)
    requires s.shutdown.Idle? || s.shutdown.ClosingSet? || s.shutdown.Waiting? ==> !s.past.together
    ensures var s' := Next(s, step);
            s'.shutdown.Idle? || s'.shutdown.ClosingSet? || s'.shutdown.Waiting? ==> !s'.past.together
  {
  }

  lemma DrainsAlone(s: State, step: Step)
    requires !s.past.together && (s.shutdown.Final? || s.shutdown.Finished?)
    ensures var s' := Next(s, step); !s'.past.together && (s'.shutdown.Final? || s'.shutdown.Finished?)
  {
  }

  lemma {:induction false} DrainsAloneInOrder(s: State, more: seq<Step>)
    requires Inv(s) && !s.past.together && (s.shutdown.Final? || s.shutdown.Finished?)
    ensures var s' := Run(s, more);
            Inv(s') && !s'.past.together && (s'.shutdown.Final? || s'.shutdown.Finished?) && !OutOfOrder(s')
  {
    if |more| != 0 {
      DrainsAloneInOrder(s, more[..|more| - 1]);
      DrainsAlone(Run(s, more[..|more| - 1]), more[|more| - 1]);
      InvKept(Run(s, more[..|more| - 1]), more[|more| - 1]);
    }
    InOrderIsPrefix(Run(s, more));
  }

  lemma InOrderIsPrefix(s: State)
    requires Queue(s) && InOrder(s) && !s.past.together
    ensures !OutOfOrder(s)
  {
    assert s.flow.handled <= s.flow.popped <= s.flow.accepted;
  }

  /** What the condition is: two neighbouring pending events differ, the consumer is still
      running, and the ring is within the drain bound. */
  ghost predicate CanReorder(s: State)
  {
    s.cap <= MAX_DRAIN && !s.consumer.Stopped? && exists m :: Differs(Pending(s), m)
  }

  lemma StopsWaiting(s: State)
    requires s.shutdown.Waiting? && s.consumer.Stopped? && !s.chan.panicked && !s.past.together
    ensures var s' := Next(s, WaitTimeout); !s'.past.together && (s'.shutdown.Final? || s'.shutdown.Finished?)
  {
  }

  lemma {:induction false} SafeTimeout(s: State, more: seq<Step>)
    requires Inv(s) && s.shutdown.Waiting? && s.consumer.Stopped? && !s.chan.panicked && !s.past.together
    ensures !OutOfOrder(Run(Next(s, WaitTimeout), more))
  {
    InvKept(s, WaitTimeout);
    StopsWaiting(s);
    DrainsAloneInOrder(Next(s, WaitTimeout), more);
  }

  /** When a timed-out wait can break the order: in any run whose Shutdown began quietly
      and whose wait times out, some continuation hands events over out of order if and
      only if the consumer is still running and two neighbouring pending events differ,
      the ring being within the drain bound. */
  lemma {:induction false} ReorderExactly(cap: nat, blocking: bool, steps: seq<Step>)
    requires 0 < cap
    requires var s := Run(Init(cap, blocking), steps); s.shutdown.Waiting? && s.past.quiet
    ensures var s := Run(Init(cap, blocking), steps);
            (exists more :: OutOfOrder(Run(Next(s, WaitTimeout), more))) <==> CanReorder(s)
  {
    var s := Run(Init(cap, blocking), steps);
    Always(cap, blocking, steps);
    NotTogetherYet(cap, blocking, steps);
    if cap > MAX_DRAIN {
      forall more
        ensures !OutOfOrder(Run(Next(s, WaitTimeout), more))
      {
        RunCons(s, WaitTimeout, more);
        RunCat(Init(cap, blocking), steps, [WaitTimeout] + more);
        OversizedRingDeliversNothing(cap, blocking, steps + ([WaitTimeout] + more));
      }
    } else if s.consumer.Stopped? {
      forall more
        ensures !OutOfOrder(Run(Next(s, WaitTimeout), more))
      {
        SafeTimeout(s, more);
      }
    } else {
      TimesOut(s);
      ReorderFrom(Next(s, WaitTimeout));
    }
  }

  /** With distinct events that is: if and only if at least two are pending. */
  lemma DistinctPending(p: seq<EventId>)
    requires forall i, j :: 0 <= i < j < |p| ==> p[i] != p[j]
    ensures (exists m :: Differs(p, m)) <==> |p| >= 2
  {
    if |p| >= 2 {
      assert Differs(p, 1);
    }
  }

  /** The consumer takes the only event; a second is submitted; Shutdown begins. */
  function TwoPending(e: EventId, f: EventId): seq<Step>
  {
    var c := Consume(0, true);
    OneSubmit(e, 0) + ([c, c] + ([c] + (OneSubmit(f, 1) + [BeginShutdown, CloseChannels])))
  }

  lemma ConsumerTakes(s: State)
    requires !s.chan.panicked && s.chan.token && s.consumer.Parked? && s.cap <= MAX_DRAIN && |s.flow.ring| == 1
    ensures var c := Consume(0, true);
            var s' := Run(s, [c, c] + [c]);
            s'.consumer == Busy(Holding(s.flow.ring[0], 0)) && s'.flow.ring == [] && s'.calls == s.calls
            && s'.chan == s.chan.(token := false) && s'.cap == s.cap && s'.shutdown == s.shutdown
  {
    var c := Consume(0, true);
    RunTwo(s, c, c);
    RunCat(s, [c, c], [c]);
    RunCons(Run(s, [c, c]), c, []);
  }

  lemma QuietBegin(s: State, n: nat)
    requires Settled(s, n) && s.shutdown.Idle?
    ensures var s' := Run(s, [BeginShutdown, CloseChannels]);
            s'.shutdown.Waiting? && s'.past.quiet && s'.consumer == s.consumer && s'.flow == s.flow
  {
    RunTwo(s, BeginShutdown, CloseChannels);
  }

  lemma {:induction false} TwoPendingWorks(cap: nat, blocking: bool, e: EventId, f: EventId)
    requires 0 < cap <= MAX_DRAIN
    ensures var s := Run(Init(cap, blocking), TwoPending(e, f));
            s.shutdown.Waiting? && s.past.quiet && !s.consumer.Stopped? && Pending(s) == [e, f]
  {
    var c := Consume(0, true);
    var s0 := Init(cap, blocking);
    var s1 := Run(s0, OneSubmit(e, 0));
    OneMore(s0, e, 0);
    var s2 := Run(s1, [c, c] + [c]);
    ConsumerTakes(s1);
    var s3 := Run(s2, OneSubmit(f, 1));
    OneMore(s2, f, 1);
    QuietBegin(s3, 2);
    Joined(s0, e, f);
  }

  lemma {:induction false} Joined(s: State, e: EventId, f: EventId)
    ensures var c := Consume(0, true);
            Run(s, TwoPending(e, f))
            == Run(Run(Run(Run(s, OneSubmit(e, 0)), [c, c] + [c]), OneSubmit(f, 1)), [BeginShutdown, CloseChannels])
  {
    var c := Consume(0, true);
    var s1 := Run(s, OneSubmit(e, 0));
    var last := OneSubmit(f, 1) + [BeginShutdown, CloseChannels];
    RunCat(s, OneSubmit(e, 0), [c, c] + ([c] + last));
    assert [c, c] + ([c] + last) == ([c, c] + [c]) + last;
    RunCat(s1, [c, c] + [c], last);
    RunCat(Run(s1, [c, c] + [c]), OneSubmit(f, 1), [BeginShutdown, CloseChannels]);
  }

  /** It does happen, for every capacity within the bound and both modes. */
  lemma {:induction false} ReorderHappens(cap: nat, blocking: bool, e: EventId, f: EventId)
    requires 0 < cap <= MAX_DRAIN && e != f
    ensures exists more :: OutOfOrder(Run(Next(Run(Init(cap, blocking), TwoPending(e, f)), WaitTimeout), more))
  {
    TwoPendingWorks(cap, blocking, e, f);
    Always(cap, blocking, TwoPending(e, f));
    assert Differs(Pending(Run(Init(cap, blocking), TwoPending(e, f))), 1);
    ReorderExactly(cap, blocking, TwoPending(e, f));
  }
}
