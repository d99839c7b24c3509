/** The final drain of Shutdown as the loop it is, over the real ring and histogram. */
module DrainLoop {
  import Ring
  import Latency
  import opened Worker

  /** The latencies measured for a list of events. */
  function Measured(events: seq<EventId>, elapsed: EventId -> Nanos): seq<nat>
  {
    if |events| == 0 then [] else Measured(events[..|events| - 1], elapsed) + [elapsed(events[|events| - 1])]
  }

  predicate AnyFails(events: seq<EventId>, fails: EventId -> bool)
  {
    |events| != 0 && (AnyFails(events[..|events| - 1], fails) || fails(events[|events| - 1]))
  }

  /** What draining changes besides the ring. */
  datatype Totals = Totals(handled: seq<EventId>, processed: nat, latencies: seq<nat>, unhealthy: bool)

  /** after is before with the events done drained. */
  predicate Drained(before: Totals, done: seq<EventId>, elapsed: EventId -> Nanos, fails: EventId -> bool, after: Totals)
  {
    after.handled == before.handled + done && after.processed == before.processed + |done|
    && after.latencies == before.latencies + Measured(done, elapsed)
    && after.unhealthy == (before.unhealthy || AnyFails(done, fails))
  }

  lemma DrainedMore(before: Totals, done: seq<EventId>, e: EventId, elapsed: EventId -> Nanos, fails: EventId -> bool,
                    mid: Totals, after: Totals)
    requires Drained(before, done, elapsed, fails, mid)
    requires after == Totals(mid.handled + [e], mid.processed + 1, mid.latencies + [elapsed(e)], mid.unhealthy || fails(e))
    ensures Drained(before, done + [e], elapsed, fails, after)
  {
  }

  class FinalDrainer {
    const ring: Ring.Buffer<EventId>
    const latency: Latency.Histogram
    var processed: nat
    var unhealthy: bool
    ghost var handled: seq<EventId>

    ghost predicate Valid()
      reads this, ring, latency, latency.buckets
    {
      ring.Valid() && latency.Valid()
    }

    constructor (ring: Ring.Buffer<EventId>, latency: Latency.Histogram)
      requires ring.Valid() && latency.Valid()
      ensures Valid() && this.ring == ring && this.latency == latency && processed == 0 && handled == []
    {
      this.ring, this.latency := ring, latency;
      processed, unhealthy, handled := 0, false, [];
    }

    ghost function Sums(): Totals
      reads this, latency
    {
      Totals(handled, processed, latency.seen, unhealthy)
    }

    /** One iteration: pops the oldest event and hands it to ProcessEvent. */
    method DrainOne(elapsed: EventId -> Nanos, fails: EventId -> bool)
      requires Valid() && ring.Contents() != []
      modifies this, ring, latency, latency.buckets
      ensures Valid() && latency.buckets == old(latency.buckets)
      ensures ring.Contents() == old(ring.Contents())[1..]
      ensures var e, t := old(ring.Contents())[0], old(Sums());
              Sums() == Totals(t.handled + [e], t.processed + 1, t.latencies + [elapsed(e)], t.unhealthy || fails(e))
    {
      var _, event := ring.Pop();
      handled := handled + [event];
      if fails(event) {
        unhealthy := true;
      }
      latency.Record(elapsed(event));
      processed := processed + 1;
    }

    /** The loop itself, on a ring within the loop bound. */
    method DrainAll(elapsed: EventId -> Nanos, fails: EventId -> bool)
      requires Valid() && ring.capacity <= MAX_DRAIN
      modifies this, ring, latency, latency.buckets
      ensures Valid() && ring.Contents() == []
      ensures Drained(old(Sums()), old(ring.Contents()), elapsed, fails, Sums())
    {
      ghost var all, before := ring.Contents(), Sums();
      var j := 0;
      while j < MAX_DRAIN
        invariant 0 <= j <= |all|
        invariant Valid() && latency.buckets == old(latency.buckets)
        invariant ring.Contents() == all[j..]
        invariant Drained(before, all[..j], elapsed, fails, Sums())
      {
        var empty := ring.IsEmpty();
        if empty {
          break;
        }
        ghost var mid := Sums();
        DrainOne(elapsed, fails);
        DrainedMore(before, all[..j], all[j], elapsed, fails, mid, Sums());
        assert all[..j + 1] == all[..j] + [all[j]];
        j := j + 1;
      }
      assert j == |all| && all[..j] == all;
    }

    /** Hands every queued event to ProcessEvent, oldest first. elapsed and fails stand
        for the clock and for the outcome of ProcessEvent. A ring above the loop bound
        is reported and left untouched. */
    method DrainBuffer(elapsed: EventId -> Nanos, fails: EventId -> bool) returns (ok: bool)
      requires Valid()
      modifies this, ring, latency, latency.buckets
      ensures Valid()
      ensures ok <==> ring.capacity <= MAX_DRAIN
      ensures ok ==> ring.Contents() == [] && Drained(old(Sums()), old(ring.Contents()), elapsed, fails, Sums())
      ensures !ok ==> unchanged(ring) && Sums() == old(Sums()).(unhealthy := true)
    {
      ok := ring.capacity <= MAX_DRAIN;
      if ok {
        DrainAll(elapsed, fails);
      } else {
        unhealthy := true;
      }
    }
  }
}
