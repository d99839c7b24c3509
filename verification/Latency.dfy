/** The processing-latency histogram of the worker. */
module Latency {

  const BUCKETS: nat := 7
  const WORD: nat := 0x1_0000_0000_0000_0000  // counters of the source are 64 bits wide

  /** Inclusive upper bounds, in nanoseconds: 1, 5, 10, 25, 50, 100 ms, and no bound. */
  const UPPER: seq<nat> := [1_000_000, 5_000_000, 10_000_000, 25_000_000, 50_000_000, 100_000_000, WORD - 1]

  /** The half-open interval (UPPER[i-1], UPPER[i]] of bucket i; bucket 0 also holds 0. */
  predicate InBucket(ns: nat, i: nat)
    requires i < BUCKETS
  {
    ns <= UPPER[i] && (i == 0 || UPPER[i - 1] < ns)
  }

  /** The buckets by their bounds in nanoseconds. */
  lemma BucketBounds(ns: nat)
    requires ns < WORD
    ensures InBucket(ns, 0) <==> ns <= 1_000_000
    ensures InBucket(ns, 1) <==> 1_000_000 < ns <= 5_000_000
    ensures InBucket(ns, 2) <==> 5_000_000 < ns <= 10_000_000
    ensures InBucket(ns, 3) <==> 10_000_000 < ns <= 25_000_000
    ensures InBucket(ns, 4) <==> 25_000_000 < ns <= 50_000_000
    ensures InBucket(ns, 5) <==> 50_000_000 < ns <= 100_000_000
    ensures InBucket(ns, 6) <==> 100_000_000 < ns
  {
  }

  /** How many of the recorded latencies fall in bucket i. */
  function Tally(seen: seq<nat>, i: nat): nat
    requires i < BUCKETS
  {
    if |seen| == 0 then 0
    else Tally(seen[..|seen| - 1], i) + (if InBucket(seen[|seen| - 1], i) then 1 else 0)
  }

  function Sum(xs: seq<nat>): nat
  {
    if |xs| == 0 then 0 else Sum(xs[..|xs| - 1]) + xs[|xs| - 1]
  }

  function Tallies(seen: seq<nat>): seq<nat>
  {
    seq(BUCKETS, i requires 0 <= i < BUCKETS => Tally(seen, i))
  }

  ghost predicate Words(seen: seq<nat>)
  {
    forall k :: 0 <= k < |seen| ==> seen[k] < WORD
  }

  lemma SumOfSeven(xs: seq<nat>)
    requires |xs| == 7
    ensures Sum(xs) == xs[0] + xs[1] + xs[2] + xs[3] + xs[4] + xs[5] + xs[6]
  {
    assert xs[..6][..5] == xs[..5] && xs[..5][..4] == xs[..4] && xs[..4][..3] == xs[..3];
    assert xs[..3][..2] == xs[..2] && xs[..2][..1] == xs[..1];
    assert Sum(xs) == Sum(xs[..6]) + xs[6];
    assert Sum(xs[..6]) == Sum(xs[..5]) + xs[5];
    assert Sum(xs[..5]) == Sum(xs[..4]) + xs[4];
    assert Sum(xs[..4]) == Sum(xs[..3]) + xs[3];
    assert Sum(xs[..3]) == Sum(xs[..2]) + xs[2];
    assert Sum(xs[..2]) == Sum(xs[..1]) + xs[1];
  }

  /** The buckets are disjoint and cover every latency: no latency is counted
      twice and none is left out. */
  lemma {:induction false} BucketsPartition(seen: seq<nat>)
    requires Words(seen)
    ensures Sum(Tallies(seen)) == |seen|
  {
    SumOfSeven(Tallies(seen));
    if |seen| != 0 {
      var init := seen[..|seen| - 1];
      BucketsPartition(init);
      SumOfSeven(Tallies(init));
    }
  }

  lemma TallyAppend(seen: seq<nat>, ns: nat, i: nat)
    requires i < BUCKETS
    ensures Tally(seen + [ns], i) == Tally(seen, i) + (if InBucket(ns, i) then 1 else 0)
  {
  }

  class Histogram {
    var buckets: array<nat>
    var sumNs: nat
    var count: nat
    ghost var seen: seq<nat>

    ghost predicate Valid()
      reads this, buckets
    {
      buckets.Length == BUCKETS && Words(seen) && buckets[..] == Tallies(seen)
      && count == |seen| && sumNs == Sum(seen) % WORD
    }

    constructor ()
      ensures Valid() && fresh(buckets) && seen == []
    {
      buckets := new nat[BUCKETS](_ => 0);
      sumNs, count, seen := 0, 0, [];
      new;
      assert buckets[..] == Tallies([]);
    }

    /** Records one duration; a negative one fails the source's check and is ignored. */
    method Record(d: int)
      requires Valid() && d < WORD
      modifies this, buckets
      ensures Valid() && buckets == old(buckets)
      ensures seen == if d < 0 then old(seen) else old(seen) + [d]
    {
      if d < 0 {
        return;
      }
      ghost var before := seen;
      if d == 0 {
        count := count + 1;
        buckets[0] := buckets[0] + 1;
      } else {
        var i := 0;
        while i < BUCKETS && d > UPPER[i]
          invariant 0 <= i <= BUCKETS
          invariant forall j :: 0 <= j < i ==> UPPER[j] < d
        {
          i := i + 1;
        }
        assert i < BUCKETS by {
          assert UPPER[6] == WORD - 1;
        }
        buckets[i] := buckets[i] + 1;
        sumNs := (sumNs + d) % WORD;
        count := count + 1;
      }
      seen := seen + [d];
      assert seen[..|before|] == before;
      forall k: nat | k < BUCKETS
        ensures buckets[k] == Tally(seen, k)
      {
        TallyAppend(before, d, k);
      }
      assert buckets[..] == Tallies(seen);
    }

    /** Between records the bucket counts add up to the number of latencies. */
    lemma CountsAddUp()
      requires Valid()
      ensures Sum(buckets[..]) == count
    {
      BucketsPartition(seen);
    }
  }
}
