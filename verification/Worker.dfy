/** The asynchronous worker as a system of interleaved steps: any number of
    Submit calls, the consumer goroutine, and one Shutdown. Each constructor of
    Step is one access to shared state; a step that cannot be taken leaves the
    state alone, so every list of steps is a schedule. */
module Worker {
  import Latency

  type EventId = string
  type Nanos = n: nat | n < Latency.WORD

  const MAX_DRAIN: nat := 0x10_0000
  const MAX_POLLS: nat := 1000

  // ---------------------------------------------------------------- state

  /** How a call ended. For a call turned away by a full ring, beaten is the number
      of pushes since that call last saw space. */
  datatype Outcome = Accepted | DroppedClosing | DroppedFull(sawSpace: bool, beaten: nat) | Refused(beaten: nat)

  /** Where one Submit call stands; mark is the number of pushes when it saw space. */
  datatype Place =
    | Entered                    // about to read the closing flag
    | Polling                    // blocking mode: about to ask whether the ring is full
    | SawFull                    // blocking mode: it was; about to read the closing flag
    | LastLook(sawSpace: bool, mark: nat)  // about to ask whether the ring is full, for the last time
    | Pushing(mark: nat)         // it was not; about to push
    | Signalling                 // pushed; about to send the wake-up token
    | Done(outcome: Outcome)

  datatype Call = Call(event: EventId, at: Place, waits: nat)

  /** A drain loop; done counts the completed iterations. */
  datatype Drain = Head(done: nat) | Popping(done: nat) | Holding(event: EventId, done: nat) | Recorded(done: nat)

  datatype Consumer = Parked | Busy(drain: Drain) | Stopped

  datatype Shutdown = Idle | ClosingSet | Waiting | Final(drain: Drain) | Finished(ok: bool)

  /** The ring and, as history, what was pushed, popped and handed to ProcessEvent. */
  datatype Flow = Flow(ring: seq<EventId>, accepted: seq<EventId>, popped: seq<EventId>, handled: seq<EventId>)

  /** The capacity-1 signal channel, the closing flag, and whether a send hit a closed channel. */
  datatype Chan = Chan(token: bool, closing: bool, closed: bool, panicked: bool)

  /** The metrics; refused counts pushes refused after the full check had passed,
      which the source only logs. */
  datatype Stats = Stats(dropped: nat, blocked: nat, processed: nat, refused: nat, latencies: seq<Nanos>, unhealthy: bool)

  /** What kind of run this has been. */
  datatype History = History(
    pushedSinceWake: bool,  // a push since the consumer last took a token
    overlapped: bool,       // a call started while another was in flight
    quiet: bool,            // Shutdown began with no call past its closing check
    together: bool)         // Shutdown began its drain while the consumer was running

  datatype State = State(
    cap: nat, blocking: bool, flow: Flow, chan: Chan, calls: seq<Call>,
    consumer: Consumer, shutdown: Shutdown, stats: Stats, past: History)

  datatype Step =
    | Submit(event: EventId)
    | Produce(call: nat)
    | Consume(ns: Nanos, ok: bool)
    | BeginShutdown
    | CloseChannels
    | WaitDone
    | WaitTimeout
    | FinalDrain(fns: Nanos, fok: bool)

  function Init(cap: nat, blocking: bool): State
  {
    State(cap, blocking, Flow([], [], [], []), Chan(false, false, false, false), [], Parked, Idle,
          Stats(0, 0, 0, 0, [], false), History(false, false, false, false))
  }

  /** Kinds of places a call can be in. */
  datatype Kind =
    | InFlight    // has neither pushed nor returned
    | IsDropped
    | IsRefused
    | HasPushed
    | IsSignalling
    | PastCheck   // past its last look at the closing flag: may still send

  predicate Is(k: Kind, at: Place)
  {
    match k
    case InFlight => !at.Signalling? && !at.Done?
    case IsDropped => at.Done? && (at.outcome.DroppedClosing? || at.outcome.DroppedFull?)
    case IsRefused => at.Done? && at.outcome.Refused?
    case HasPushed => at.Signalling? || (at.Done? && at.outcome.Accepted?)
    case IsSignalling => at.Signalling?
    case PastCheck => at.Polling? || at.LastLook? || at.Pushing? || at.Signalling?
  }

  predicate Some(calls: seq<Call>, k: Kind)
  {
    exists c :: 0 <= c < |calls| && Is(k, calls[c].at)
  }

  // ---------------------------------------------------------------- steps

  function Next(s: State, step: Step): State
  {
    if s.chan.panicked then s
    else match step
      case Submit(e) => Submitted(s, e)
      case Produce(c) => if c < |s.calls| then Produced(s, c) else s
      case Consume(ns, ok) => Consumed(s, ns, ok)
      case _ => ShuttingDown(s, step)
  }

  function Submitted(s: State, e: EventId): State
  {
    s.(calls := s.calls + [Call(e, Entered, 0)],
       past := s.past.(overlapped := s.past.overlapped || Some(s.calls, InFlight)))
  }

  predicate Full(s: State) { |s.flow.ring| == s.cap }

  function Since(s: State, mark: nat): nat { if mark <= |s.flow.accepted| then |s.flow.accepted| - mark else 0 }

  /** Where a Submit call goes next. */
  function NextPlace(s: State, call: Call): Place
  {
    match call.at
    case Entered =>
      if s.chan.closing then Done(DroppedClosing) else if s.blocking then Polling else LastLook(false, 0)
    case Polling =>
      if Full(s) then SawFull else LastLook(true, |s.flow.accepted|)
    case SawFull =>
      if s.chan.closing then Done(DroppedClosing)
      else if call.waits + 1 < MAX_POLLS then Polling else LastLook(false, 0)
    case LastLook(sawSpace, mark) =>
      if Full(s) then Done(DroppedFull(sawSpace, Since(s, mark))) else Pushing(|s.flow.accepted|)
    case Pushing(mark) =>
      if Full(s) then Done(Refused(Since(s, mark))) else Signalling
    case Signalling =>
      if s.chan.closed then Signalling else Done(Accepted)
    case Done(o) => Done(o)
  }

  /** What that step does to the ring, the channel and the counters. */
  predicate Pushes(s: State, call: Call) { call.at.Pushing? && !Full(s) }

  predicate MustWait(s: State, call: Call) { call.at.SawFull? && !s.chan.closing }

  function CallFlow(s: State, call: Call): Flow
  {
    if Pushes(s, call)
    then s.flow.(ring := s.flow.ring + [call.event], accepted := s.flow.accepted + [call.event]) else s.flow
  }

  function CallChan(s: State, call: Call): Chan
  {
    if !call.at.Signalling? then s.chan
    else if s.chan.closed then s.chan.(panicked := true)  // a send on a closed channel
    else s.chan.(token := true)
  }

  function CallStats(s: State, call: Call): Stats
  {
    if call.at.Done? then s.stats
    else if MustWait(s, call) then s.stats.(blocked := s.stats.blocked + 1)
    else if Is(IsDropped, NextPlace(s, call)) then s.stats.(dropped := s.stats.dropped + 1)
    else if Is(IsRefused, NextPlace(s, call)) then s.stats.(refused := s.stats.refused + 1)
    else s.stats
  }

  /** One step of a Submit call. */
  function Produced(s: State, c: nat): State
    requires c < |s.calls|
  {
    var call := s.calls[c];
    s.(calls := s.calls[c := Call(call.event, NextPlace(s, call), if MustWait(s, call) then call.waits + 1 else call.waits)],
       flow := CallFlow(s, call), chan := CallChan(s, call), stats := CallStats(s, call),
       past := if Pushes(s, call) then s.past.(pushedSinceWake := true) else s.past)
  }

  datatype Progress = Going(drain: Drain) | Over

  /** Where a drain loop goes next, and what it does to the state: the same loop
      body serves the consumer and Shutdown. */
  function DrainNext(s: State, d: Drain): Progress
  {
    match d
    case Head(done) => if done == MAX_DRAIN || |s.flow.ring| == 0 then Over else Going(Popping(done))
    case Popping(done) => if |s.flow.ring| == 0 then Over else Going(Holding(s.flow.ring[0], done))
    case Holding(e, done) => Going(Recorded(done))
    case Recorded(done) => Going(Head(done + 1))
  }

  function DrainFlow(f: Flow, d: Drain): Flow
  {
    match d
    case Popping(_) =>
      if |f.ring| == 0 then f else f.(ring := f.ring[1..], popped := f.popped + [f.ring[0]])
    case Holding(e, _) => f.(handled := f.handled + [e])
    case _ => f
  }

  function DrainStats(m: Stats, d: Drain, ns: Nanos, ok: bool): Stats
  {
    match d
    case Holding(_, _) => m.(latencies := m.latencies + [ns], unhealthy := m.unhealthy || !ok)
    case Recorded(_) => m.(processed := m.processed + 1)
    case _ => m
  }

  function Consumed(s: State, ns: Nanos, ok: bool): State
  {
    match s.consumer
    case Parked => if s.chan.token then Woken(s) else if s.chan.closed then s.(consumer := Stopped) else s
    case Busy(d) =>
      s.(flow := DrainFlow(s.flow, d), stats := DrainStats(s.stats, d, ns, ok),
         consumer := match DrainNext(s, d) case Going(d') => Busy(d') case Over => Parked)
    case Stopped => s
  }

  function Woken(s: State): State
  {
    s.(chan := s.chan.(token := false), past := s.past.(pushedSinceWake := false),
       consumer := if s.cap > MAX_DRAIN then Stopped else Busy(Head(0)),
       stats := if s.cap > MAX_DRAIN then s.stats.(unhealthy := true) else s.stats)
  }

  /** One step of Shutdown. */
  function ShuttingDown(s: State, step: Step): State
  {
    match s.shutdown
    case Idle =>
      if step.BeginShutdown? then
        s.(chan := s.chan.(closing := true), shutdown := ClosingSet,
           past := s.past.(quiet := !Some(s.calls, PastCheck)))
      else s
    case ClosingSet =>
      if step.CloseChannels? then s.(chan := s.chan.(closed := true), shutdown := Waiting) else s
    case Waiting =>
      // the wait is also for the anchor loop, so it can time out after the consumer stopped
      if step.WaitTimeout? || (step.WaitDone? && s.consumer.Stopped?) then FinalDrainStarted(s) else s
    case Final(d) =>
      if step.FinalDrain? then
        s.(flow := DrainFlow(s.flow, d), stats := DrainStats(s.stats, d, step.fns, step.fok),
           shutdown := match DrainNext(s, d) case Going(d') => Final(d') case Over => Finished(true))
      else s
    case Finished(_) => s
  }

  function FinalDrainStarted(s: State): State
  {
    s.(past := s.past.(together := s.past.together || !s.consumer.Stopped?),
       shutdown := if s.cap > MAX_DRAIN then Finished(false) else Final(Head(0)),
       stats := if s.cap > MAX_DRAIN then s.stats.(unhealthy := true) else s.stats)
  }

  /** The state after a schedule. */
  function Run(s: State, steps: seq<Step>): State
  {
    if |steps| == 0 then s else Next(Run(s, steps[..|steps| - 1]), steps[|steps| - 1])
  }

  // ---------------------------------------------------------------- counting

  function Count(calls: seq<Call>, k: Kind): nat
  {
    if |calls| == 0 then 0
    else Count(calls[..|calls| - 1], k) + (if Is(k, calls[|calls| - 1].at) then 1 else 0)
  }

  function Waits(calls: seq<Call>): nat
  {
    if |calls| == 0 then 0 else Waits(calls[..|calls| - 1]) + calls[|calls| - 1].waits
  }

  /** The events of the calls that pushed. */
  function PushedEvents(calls: seq<Call>): multiset<EventId>
  {
    if |calls| == 0 then multiset{}
    else
      var last := calls[|calls| - 1];
      PushedEvents(calls[..|calls| - 1]) + (if Is(HasPushed, last.at) then multiset{last.event} else multiset{})
  }

  /** Popped by this loop and not yet counted as processed. */
  function Held(d: Drain): nat { if d.Holding? || d.Recorded? then 1 else 0 }

  /** Popped by this loop and not yet handed to ProcessEvent. */
  function InHand(d: Drain): seq<EventId> { if d.Holding? then [d.event] else [] }

  /** Latency recorded by this loop and event not yet counted as processed. */
  function Uncounted(d: Drain): nat { if d.Recorded? then 1 else 0 }

  /** How many events this loop has popped. */
  function Pops(d: Drain): nat { if d.Holding? || d.Recorded? then d.done + 1 else d.done }

  function HeldBy(s: State): nat
  {
    (if s.consumer.Busy? then Held(s.consumer.drain) else 0) + (if s.shutdown.Final? then Held(s.shutdown.drain) else 0)
  }

  function UncountedBy(s: State): nat
  {
    (if s.consumer.Busy? then Uncounted(s.consumer.drain) else 0)
    + (if s.shutdown.Final? then Uncounted(s.shutdown.drain) else 0)
  }

  function ConsumerHand(s: State): seq<EventId> { if s.consumer.Busy? then InHand(s.consumer.drain) else [] }

  function ShutdownHand(s: State): seq<EventId> { if s.shutdown.Final? then InHand(s.shutdown.drain) else [] }
}
