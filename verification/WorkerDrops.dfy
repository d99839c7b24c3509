/** Losing an event after having seen space for it: a Submit that finds room, looks again or
    pushes, and finds the ring full. When this can still happen to a call, exactly, if no
    further Submit starts. */
module WorkerDrops {
  import opened Worker
  import opened WorkerInvariants
  import opened WorkerTheorems
  import opened WorkerFailures

  function Free(s: State): int
  {
    s.cap - |s.flow.ring|
  }

  /** The calls in flight besides one that is. */
  function Others(s: State): int
  {
    Count(s.calls, InFlight) - 1
  }

  /** The call has found room and has not pushed yet. */
  predicate HasSeen(at: Place)
  {
    at.Pushing? || (at.LastLook? && at.sawSpace)
  }

  /** Turned away after it had found room: by its last look or by the push. */
  predicate IsLost(at: Place)
  {
    at.Done? && (at.outcome.Refused? || (at.outcome.DroppedFull? && at.outcome.sawSpace))
  }

  /** Dropped after it had found room, by its last look. */
  predicate IsDroppedLate(at: Place)
  {
    at.Done? && at.outcome.DroppedFull? && at.outcome.sawSpace
  }

  /** In blocking mode: the call will poll at least once more. */
  predicate WillPoll(call: Call)
  {
    call.at.Entered? || call.at.Polling? || (call.at.SawFull? && call.waits + 1 < MAX_POLLS)
  }

  /** The other calls in flight can fill the ring; if it is full already, a drain can make
      room once more. */
  predicate CanFill(s: State)
  {
    if Free(s) >= 1 then Free(s) <= Others(s) else Others(s) >= 1 && s.cap <= MAX_DRAIN
  }

  /** When call c can still be lost. */
  predicate CanBeLost(s: State, c: nat)
    requires c < |s.calls|
  {
    if HasSeen(s.calls[c].at) then Free(s) <= Others(s) else CanFill(s)
  }

  /** When call c can still be dropped late. */
  predicate CanDropLate(s: State, c: nat)
    requires c < |s.calls|
  {
    if WillPoll(s.calls[c]) then CanFill(s)
    else s.calls[c].at.LastLook? && s.calls[c].at.sawSpace && Free(s) <= Others(s)
  }

  // ---------------------------------------------------------------- it can happen

  /** How far a call is from its push. */
  function Distance(at: Place): nat
  {
    match at
    case Entered => 5
    case SawFull => 4
    case Polling => 3
    case LastLook(_, _) => 2
    case Pushing(_) => 1
    case _ => 0
  }

  /** An open worker with room. */
  predicate Open(s: State)
  {
    !s.chan.panicked && !s.chan.closing && |s.flow.ring| < s.cap
  }

  /** While there is room a call in flight moves towards its push and touches nothing else. */
  lemma MovesOn(s: State, d: nat)
    requires Open(s) && d < |s.calls| && Is(InFlight, s.calls[d].at) && !s.calls[d].at.Pushing?
    ensures var t := Next(s, Produce(d));
            t.flow == s.flow && t.chan == s.chan && t.cap == s.cap && t.blocking == s.blocking
            && |t.calls| == |s.calls| && t.calls == s.calls[d := t.calls[d]]
            && Is(InFlight, t.calls[d].at) && Distance(t.calls[d].at) < Distance(s.calls[d].at)
            && (s.blocking && WillPoll(s.calls[d]) ==>
                  WillPoll(t.calls[d]) || (t.calls[d].at.LastLook? && t.calls[d].at.sawSpace))
            && (!s.calls[d].at.SawFull? ==> t.calls[d].waits == s.calls[d].waits && !t.calls[d].at.SawFull?)
  {
  }

  /** u is s with one more event in the ring and call d past its push. */
  predicate PushedBy(s: State, u: State, d: nat)
  {
    d < |s.calls| && |u.calls| == |s.calls| && u.calls == s.calls[d := u.calls[d]] && u.calls[d].at.Signalling?
    && |u.flow.ring| == |s.flow.ring| + 1 && u.chan == s.chan && u.cap == s.cap && u.blocking == s.blocking
  }

  lemma PushesNow(s: State, d: nat)
    requires Open(s) && d < |s.calls| && s.calls[d].at.Pushing?
    ensures PushedBy(s, Next(s, Produce(d)), d)
  {
  }

  lemma {:induction false} PushesInTime(s: State, d: nat) returns (u: State)
    requires Open(s) && d < |s.calls| && Is(InFlight, s.calls[d].at)
    ensures Reaches(s, u) && PushedBy(s, u, d)
    decreases Distance(s.calls[d].at)
  {
    var t := Next(s, Produce(d));
    ReachesOne(s, Produce(d));
    if s.calls[d].at.Pushing? {
      PushesNow(s, d);
      u := t;
    } else {
      MovesOn(s, d);
      u := PushesInTime(t, d);
      ReachesTrans(s, t, u);
    }
  }

  lemma {:induction false} AnotherInFlight(calls: seq<Call>, c: nat) returns (d: nat)
    requires c < |calls| && Is(InFlight, calls[c].at) && Count(calls, InFlight) >= 2
    ensures d < |calls| && d != c && Is(InFlight, calls[d].at)
  {
    var n := |calls| - 1;
    if c == n {
      CountZero(calls[..n], InFlight);
      var e :| 0 <= e < n && Is(InFlight, calls[..n][e].at);
      d := e;
    } else if Is(InFlight, calls[n].at) {
      d := n;
    } else {
      d := AnotherInFlight(calls[..n], c);
    }
  }

  /** The other calls fill the ring; call c stays where it is. */
  lemma {:induction false} FillsUp(s: State, c: nat) returns (u: State)
    requires !s.chan.panicked && !s.chan.closing && |s.flow.ring| <= s.cap && c < |s.calls| && Is(InFlight, s.calls[c].at)
    requires Free(s) <= Others(s)
    ensures Reaches(s, u) && !u.chan.panicked && |u.flow.ring| == u.cap && |u.calls| == |s.calls| && u.calls[c] == s.calls[c]
    decreases Free(s)
  {
    if Free(s) == 0 {
      ReachesSelf(s);
      u := s;
    } else {
      var d := AnotherInFlight(s.calls, c);
      var t := PushesInTime(s, d);
      CountUpdate(s.calls, d, t.calls[d], InFlight);
      u := FillsUp(t, c);
      ReachesTrans(s, t, u);
    }
  }

  /** With room, a call that has not found it yet can find it. */
  lemma {:induction false} SeesSpace(s: State, c: nat) returns (u: State)
    requires Open(s) && c < |s.calls| && Is(InFlight, s.calls[c].at)
    ensures Reaches(s, u) && u.flow == s.flow && u.chan == s.chan && u.cap == s.cap && |u.calls| == |s.calls|
            && HasSeen(u.calls[c].at) && Count(u.calls, InFlight) == Count(s.calls, InFlight)
    ensures s.blocking && (WillPoll(s.calls[c]) || (s.calls[c].at.LastLook? && s.calls[c].at.sawSpace)) ==> u.calls[c].at.LastLook?
    ensures !s.calls[c].at.SawFull? ==> u.calls[c].waits == s.calls[c].waits
    decreases Distance(s.calls[c].at)
  {
    if HasSeen(s.calls[c].at) {
      ReachesSelf(s);
      u := s;
    } else {
      var t := Next(s, Produce(c));
      ReachesOne(s, Produce(c));
      MovesOn(s, c);
      CountUpdate(s.calls, c, t.calls[c], InFlight);
      u := SeesSpace(t, c);
      ReachesTrans(s, t, u);
    }
  }

  /** A call that has seen space and finds the ring full is lost. */
  lemma LosesNow(s: State, c: nat)
    requires !s.chan.panicked && c < |s.calls| && HasSeen(s.calls[c].at) && |s.flow.ring| == s.cap
    ensures var t := Next(s, Produce(c));
            c < |t.calls| && IsLost(t.calls[c].at) && (s.calls[c].at.LastLook? ==> IsDroppedLate(t.calls[c].at))
            && t.calls[c].waits == s.calls[c].waits
  {
  }

  /** Call c of s is lost in u; by its last look if it will poll, and without a further wait
      unless it is in one. */
  predicate Loses(s: State, u: State, c: nat)
    requires c < |s.calls|
  {
    c < |u.calls| && IsLost(u.calls[c].at)
    && (s.blocking && (WillPoll(s.calls[c]) || (s.calls[c].at.LastLook? && s.calls[c].at.sawSpace)) ==> IsDroppedLate(u.calls[c].at))
    && (!s.calls[c].at.SawFull? ==> u.calls[c].waits == s.calls[c].waits)
  }

  lemma {:induction false} LosesFrom(s: State, c: nat) returns (u: State)
    requires !s.chan.panicked && !s.chan.closing && |s.flow.ring| <= s.cap && c < |s.calls| && Is(InFlight, s.calls[c].at)
    requires Free(s) <= Others(s) && (Free(s) >= 1 || HasSeen(s.calls[c].at))
    ensures Reaches(s, u) && Loses(s, u, c)
  {
    var t := s;
    ReachesSelf(s);
    if Free(s) >= 1 {
      t := SeesSpace(s, c);
    }
    var full := FillsUp(t, c);
    ReachesTrans(s, t, full);
    LosesNow(full, c);
    ReachesOne(full, Produce(c));
    u := Next(full, Produce(c));
    ReachesTrans(s, full, u);
  }

  lemma {:induction false} CanHappen(s: State, c: nat) returns (u: State)
    requires Inv(s) && s.shutdown.Idle? && c < |s.calls| && Is(InFlight, s.calls[c].at) && CanBeLost(s, c)
    ensures Reaches(s, u) && Loses(s, u, c)
  {
    if Free(s) >= 1 || HasSeen(s.calls[c].at) {
      u := LosesFrom(s, c);
    } else {
      var t := Grabs(s);
      ConfigReached(s, t);
      u := LosesFrom(t, c);
      ReachesTrans(s, t, u);
    }
  }

  lemma ConfigReached(s: State, t: State)
    requires Inv(s) && Reaches(s, t)
    ensures t.blocking == s.blocking
  {
    var steps :| Calm(steps) && Run(s, steps) == t;
    InvRun(s, steps);
  }

  // ---------------------------------------------------------------- and only then

  /** There is room for every call in flight. */
  predicate Roomy(s: State)
  {
    |s.flow.ring| + Count(s.calls, InFlight) <= s.cap
  }

  lemma RoomyKeptByCall(s: State, d: nat)
    requires Roomy(s) && !s.chan.panicked && d < |s.calls|
    ensures Roomy(Produced(s, d)) && (Is(InFlight, s.calls[d].at) ==> !IsLost(Produced(s, d).calls[d].at))
  {
    OneCallMoves(s, d);
    CountUpdate(s.calls, d, Produced(s, d).calls[d], InFlight);
    CountZero(s.calls, InFlight);
  }

  /** The ring is full, call c has not seen space, and it will not: no other call is in
      flight, or nothing is ever drained. */
  predicate Hopeless(s: State, c: nat)
    requires c < |s.calls|
  {
    |s.flow.ring| == s.cap && Is(InFlight, s.calls[c].at) && !HasSeen(s.calls[c].at)
    && (Count(s.calls, InFlight) == 1 || s.cap > MAX_DRAIN)
  }

  /** Why call c is safe: it is out of flight, there is room for all, or no hope. */
  predicate Safe(s: State, c: nat)
  {
    c < |s.calls| && !IsLost(s.calls[c].at) && (!Is(InFlight, s.calls[c].at) || Roomy(s) || Hopeless(s, c))
  }

  lemma OutOfFlightStays(s: State, c: nat)
    requires !s.chan.panicked && c < |s.calls| && !Is(InFlight, s.calls[c].at) && !IsLost(s.calls[c].at)
    ensures !Is(InFlight, Produced(s, c).calls[c].at) && !IsLost(Produced(s, c).calls[c].at)
  {
  }

  lemma HopelessKeptByOwn(s: State, c: nat)
    requires !s.chan.panicked && c < |s.calls| && Hopeless(s, c)
    ensures Safe(Produced(s, c), c)
  {
    OneCallMoves(s, c);
    CountUpdate(s.calls, c, Produced(s, c).calls[c], InFlight);
  }

  lemma HopelessKeptByOther(s: State, c: nat, d: nat)
    requires !s.chan.panicked && c < |s.calls| && d < |s.calls| && c != d && Hopeless(s, c)
    ensures Hopeless(Produced(s, d), c)
  {
    OneCallMoves(s, d);
    CountUpdate(s.calls, d, Produced(s, d).calls[d], InFlight);
    if Count(s.calls, InFlight) == 1 && Is(InFlight, s.calls[d].at) {
      OnlyOne(s.calls, InFlight, c, d);
    }
  }

  lemma SafeKeptByCall(s: State, c: nat, d: nat)
    requires Safe(s, c) && !s.chan.panicked && d < |s.calls|
    ensures Safe(Produced(s, d), c)
  {
    OneCallMoves(s, d);
    if !Is(InFlight, s.calls[c].at) {
      if c == d {
        OutOfFlightStays(s, c);
      }
    } else if Roomy(s) {
      RoomyKeptByCall(s, d);
    } else if c == d {
      HopelessKeptByOwn(s, c);
    } else {
      HopelessKeptByOther(s, c, d);
    }
  }

  lemma DrainMakesRoom(s: State, step: Step)
    requires Queue(s) && Untouched(s) && !step.Submit? && !step.Produce?
    ensures var s' := Next(s, step); |s'.flow.ring| <= |s.flow.ring| && (s.cap > MAX_DRAIN ==> s'.flow.ring == s.flow.ring)
  {
    DrainIsNotAPush(s, step);
  }

  lemma SafeKept(s: State, step: Step, c: nat)
    requires Queue(s) && Untouched(s) && Safe(s, c) && !step.Submit?
    ensures Safe(Next(s, step), c)
  {
    if !s.chan.panicked {
      if step.Produce? {
        if step.call < |s.calls| {
          SafeKeptByCall(s, c, step.call);
        }
      } else {
        DrainIsNotAPush(s, step);
        DrainMakesRoom(s, step);
        ConfigKept(s, step);
      }
    }
  }

  lemma {:induction false} SafeStays(s: State, more: seq<Step>, c: nat)
    requires Inv(s) && Untouched(s) && Safe(s, c) && NoSubmit(more)
    ensures var s' := Run(s, more); Inv(s') && Untouched(s') && Safe(s', c)
  {
    if |more| != 0 {
      var init, last := more[..|more| - 1], more[|more| - 1];
      SafeStays(s, init, c);
      InvKept(Run(s, init), last);
      UntouchedKept(Run(s, init), last);
      SafeKept(Run(s, init), last, c);
    }
  }

  lemma NotLostIsSafe(s: State, c: nat)
    requires Queue(s) && c < |s.calls| && Is(InFlight, s.calls[c].at) && !CanBeLost(s, c)
    ensures Safe(s, c)
  {
    CountZero(s.calls, InFlight);
    assert Some(s.calls, InFlight);
  }

  /** Call c has had its last poll without finding room, or is past its last look. */
  predicate PastPolls(call: Call)
  {
    !WillPoll(call) && !(call.at.LastLook? && call.at.sawSpace) && !IsDroppedLate(call.at)
  }

  lemma PastPollsKept(s: State, step: Step, c: nat)
    requires c < |s.calls| && PastPolls(s.calls[c])
    ensures c < |Next(s, step).calls| && PastPolls(Next(s, step).calls[c])
  {
    if step != Produce(c) {
      OtherStepsKeepCall(s, step, c);
    }
  }

  lemma {:induction false} PastPollsStays(s: State, more: seq<Step>, c: nat)
    requires c < |s.calls| && PastPolls(s.calls[c])
    ensures c < |Run(s, more).calls| && PastPolls(Run(s, more).calls[c])
  {
    if |more| != 0 {
      PastPollsStays(s, more[..|more| - 1], c);
      PastPollsKept(Run(s, more[..|more| - 1]), more[|more| - 1], c);
    }
  }

  // ---------------------------------------------------------------- theorems

  ghost predicate SomeLoss(s: State, c: nat)
  {
    exists more :: NoSubmit(more) && LostAt(Run(s, more), c)
  }

  predicate LostAt(s: State, c: nat)
  {
    c < |s.calls| && IsLost(s.calls[c].at)
  }

  ghost predicate SomeLateDrop(s: State, c: nat)
  {
    exists more :: NoSubmit(more) && DroppedLateAt(Run(s, more), c)
  }

  predicate DroppedLateAt(s: State, c: nat)
  {
    c < |s.calls| && IsDroppedLate(s.calls[c].at)
  }

  lemma {:induction false} LossFrom(s: State, c: nat)
    requires Inv(s) && Untouched(s) && s.shutdown.Idle? && c < |s.calls| && Is(InFlight, s.calls[c].at)
    ensures SomeLoss(s, c) <==> CanBeLost(s, c)
  {
    if CanBeLost(s, c) {
      var u := CanHappen(s, c);
      var more :| Calm(more) && Run(s, more) == u;
      assert LostAt(Run(s, more), c);
    } else {
      NotLostIsSafe(s, c);
      forall more | NoSubmit(more)
        ensures !LostAt(Run(s, more), c)
      {
        SafeStays(s, more, c);
      }
    }
  }

  lemma {:induction false} LateDropFrom(s: State, c: nat)
    requires Inv(s) && Untouched(s) && s.shutdown.Idle? && s.blocking && c < |s.calls| && Is(InFlight, s.calls[c].at)
    ensures SomeLateDrop(s, c) <==> CanDropLate(s, c)
  {
    if CanDropLate(s, c) {
      var u := CanHappen(s, c);
      var more :| Calm(more) && Run(s, more) == u;
      assert DroppedLateAt(Run(s, more), c);
    } else if PastPolls(s.calls[c]) {
      forall more | NoSubmit(more)
        ensures !DroppedLateAt(Run(s, more), c)
      {
        PastPollsStays(s, more, c);
      }
    } else {
      NotLostIsSafe(s, c);
      forall more | NoSubmit(more)
        ensures !DroppedLateAt(Run(s, more), c)
      {
        SafeStays(s, more, c);
      }
    }
  }

  /** When a call can still lose its event after having found room, in either mode: in any
      run before Shutdown, and with no further Submit, some continuation turns a call in
      flight away by its second look or by its push if and only if the other calls in
      flight are at least as many as the free slots; for a call that has not found room yet
      there must also be a free slot, or a drain to make one. */
  lemma {:induction false} LossExactly(cap: nat, blocking: bool, steps: seq<Step>, c: nat)
    requires 0 < cap
    requires var s := Run(Init(cap, blocking), steps); s.shutdown.Idle? && c < |s.calls| && Is(InFlight, s.calls[c].at)
    ensures var s := Run(Init(cap, blocking), steps); SomeLoss(s, c) <==> CanBeLost(s, c)
  {
    Always(cap, blocking, steps);
    AlwaysUntouched(cap, blocking, steps);
    LossFrom(Run(Init(cap, blocking), steps), c);
  }

  /** When a blocking Submit can still be dropped although it found room: the same, for a
      call that will poll again or has just found room. */
  lemma {:induction false} LateDropExactly(cap: nat, steps: seq<Step>, c: nat)
    requires 0 < cap
    requires var s := Run(Init(cap, true), steps); s.shutdown.Idle? && c < |s.calls| && Is(InFlight, s.calls[c].at)
    ensures var s := Run(Init(cap, true), steps); SomeLateDrop(s, c) <==> CanDropLate(s, c)
  {
    Always(cap, true, steps);
    AlwaysUntouched(cap, true, steps);
    LateDropFrom(Run(Init(cap, true), steps), c);
  }

  // ---------------------------------------------------------------- a run on which it happens

  function Submits(e: EventId, n: nat): seq<Step>
  {
    if n == 0 then [] else Submits(e, n - 1) + [Submit(e)]
  }

  /** n calls have just started, and nothing else has happened. */
  predicate JustStarted(s: State, e: EventId, n: nat)
  {
    |s.calls| == n && Count(s.calls, InFlight) == n && s.flow.ring == [] && s.shutdown.Idle? && !s.chan.panicked
    && forall c :: 0 <= c < n ==> s.calls[c] == Call(e, Entered, 0)
  }

  lemma OneStarts(s: State, e: EventId, n: nat)
    requires JustStarted(s, e, n)
    ensures JustStarted(Next(s, Submit(e)), e, n + 1)
  {
    CountAppend(s.calls, Call(e, Entered, 0), InFlight);
  }

  lemma {:induction false} SubmitsStart(cap: nat, e: EventId, n: nat)
    ensures JustStarted(Run(Init(cap, true), Submits(e, n)), e, n)
  {
    if n != 0 {
      SubmitsStart(cap, e, n - 1);
      OneStarts(Run(Init(cap, true), Submits(e, n - 1)), e, n - 1);
      assert Submits(e, n)[..|Submits(e, n)| - 1] == Submits(e, n - 1);
    }
  }

  /** It does happen, for every capacity: of one call more than the ring has slots, the
      first can lose its event without one wait. */
  lemma {:induction false} LateDropHappens(cap: nat, e: EventId)
    requires 0 < cap
    ensures exists more :: NoSubmit(more)
                           && DroppedLateAt(Run(Run(Init(cap, true), Submits(e, cap + 1)), more), 0)
                           && Run(Run(Init(cap, true), Submits(e, cap + 1)), more).calls[0].waits == 0
  {
    var s := Run(Init(cap, true), Submits(e, cap + 1));
    SubmitsStart(cap, e, cap + 1);
    Always(cap, true, Submits(e, cap + 1));
    var u := CanHappen(s, 0);
    var more :| Calm(more) && Run(s, more) == u;
    assert DroppedLateAt(Run(s, more), 0);
  }
}
