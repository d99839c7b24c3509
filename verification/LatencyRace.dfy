/** Recording and reading latencies at the same time: each record adds to its bucket and to
    the count in two separate atomic steps, and a reader loads the buckets one by one and
    then the count. */
module LatencyRace {
  import opened Latency

  /** One call of recordLatency: a zero is counted first, any other latency is put in its
      bucket first. */
  datatype Record = Record(ns: nat, inBucket: bool, counted: bool)

  /** loaded is what the reader has loaded so far. */
  datatype State = State(buckets: seq<nat>, count: nat, records: seq<Record>, loaded: seq<nat>)

  datatype Step = Begin(ns: nat) | Advance(record: nat) | Load

  function Init(): State
  {
    State([0, 0, 0, 0, 0, 0, 0], 0, [], [])
  }

  /** The bucket the loop over the bounds ends in. */
  function BucketOf(ns: nat): (i: nat)
    requires ns < WORD
    ensures i < BUCKETS && InBucket(ns, i)
  {
    if ns <= UPPER[0] then 0 else if ns <= UPPER[1] then 1 else if ns <= UPPER[2] then 2
    else if ns <= UPPER[3] then 3 else if ns <= UPPER[4] then 4 else if ns <= UPPER[5] then 5 else 6
  }

  function AddToBucket(s: State, r: nat): State
    requires r < |s.records| && s.records[r].ns < WORD && |s.buckets| == BUCKETS
  {
    var i := BucketOf(s.records[r].ns);
    s.(buckets := s.buckets[i := s.buckets[i] + 1], records := s.records[r := s.records[r].(inBucket := true)])
  }

  function AddToCount(s: State, r: nat): State
    requires r < |s.records|
  {
    s.(count := s.count + 1, records := s.records[r := s.records[r].(counted := true)])
  }

  function Advanced(s: State, r: nat): State
    requires r < |s.records| && s.records[r].ns < WORD && |s.buckets| == BUCKETS
  {
    var rec := s.records[r];
    if rec.inBucket && rec.counted then s
    else if rec.inBucket then AddToCount(s, r)
    else if rec.counted then AddToBucket(s, r)
    else if rec.ns == 0 then AddToCount(s, r)
    else AddToBucket(s, r)
  }

  predicate Shaped(s: State)
  {
    |s.buckets| == BUCKETS && |s.loaded| <= BUCKETS && forall r :: 0 <= r < |s.records| ==> s.records[r].ns < WORD
  }

  function Next(s: State, step: Step): State
    requires Shaped(s)
  {
    match step
    case Begin(ns) => if ns < WORD then s.(records := s.records + [Record(ns, false, false)]) else s
    case Advance(r) => if r < |s.records| then Advanced(s, r) else s
    case Load => if |s.loaded| < BUCKETS then s.(loaded := s.loaded + [s.buckets[|s.loaded|]]) else s
  }

  function RunFrom(s: State, steps: seq<Step>): (s': State)
    requires Shaped(s)
    ensures Shaped(s')
  {
    if |steps| == 0 then s else Next(RunFrom(s, steps[..|steps| - 1]), steps[|steps| - 1])
  }

  function Run(steps: seq<Step>): (s: State)
    ensures Shaped(s)
  {
    RunFrom(Init(), steps)
  }

  // ---------------------------------------------------------------- counting

  function InBuckets(rs: seq<Record>): nat
  {
    if |rs| == 0 then 0 else InBuckets(rs[..|rs| - 1]) + (if rs[|rs| - 1].inBucket then 1 else 0)
  }

  function CountedIn(rs: seq<Record>): nat
  {
    if |rs| == 0 then 0 else CountedIn(rs[..|rs| - 1]) + (if rs[|rs| - 1].counted then 1 else 0)
  }

  /** Records that have done one of their two steps. */
  function InProgress(rs: seq<Record>): nat
  {
    if |rs| == 0 then 0
    else InProgress(rs[..|rs| - 1]) + (if rs[|rs| - 1].inBucket != rs[|rs| - 1].counted then 1 else 0)
  }

  /** Of those, the ones that have been put in their bucket and still have to be counted. */
  function InBucketOnly(rs: seq<Record>): nat
  {
    if |rs| == 0 then 0
    else InBucketOnly(rs[..|rs| - 1]) + (if rs[|rs| - 1].inBucket && !rs[|rs| - 1].counted then 1 else 0)
  }

  /** A zero latency is counted first, any other is put in its bucket first. */
  predicate InOrder(rec: Record)
  {
    rec.inBucket != rec.counted ==> (rec.counted <==> rec.ns == 0)
  }

  lemma {:induction false} CountsUpdate(rs: seq<Record>, r: nat, rec: Record)
    requires r < |rs|
    ensures InBuckets(rs[r := rec]) == InBuckets(rs) - (if rs[r].inBucket then 1 else 0) + (if rec.inBucket then 1 else 0)
    ensures CountedIn(rs[r := rec]) == CountedIn(rs) - (if rs[r].counted then 1 else 0) + (if rec.counted then 1 else 0)
  {
    var n := |rs| - 1;
    if r == n {
      assert rs[r := rec][..n] == rs[..n];
    } else {
      assert rs[r := rec][..n] == rs[..n][r := rec];
      CountsUpdate(rs[..n], r, rec);
    }
  }

  lemma {:induction false} DifferenceBound(rs: seq<Record>)
    ensures InBuckets(rs) <= CountedIn(rs) + InProgress(rs) && CountedIn(rs) <= InBuckets(rs) + InProgress(rs)
  {
    if |rs| != 0 {
      DifferenceBound(rs[..|rs| - 1]);
    }
  }

  lemma {:induction false} DifferenceIs(rs: seq<Record>)
    ensures InBuckets(rs) + (InProgress(rs) - InBucketOnly(rs)) == CountedIn(rs) + InBucketOnly(rs)
  {
    if |rs| != 0 {
      DifferenceIs(rs[..|rs| - 1]);
    }
  }

  lemma SumPlusOne(xs: seq<nat>, i: nat)
    requires |xs| == BUCKETS && i < BUCKETS
    ensures Sum(xs[i := xs[i] + 1]) == Sum(xs) + 1
  {
    SumOfSeven(xs);
    SumOfSeven(xs[i := xs[i] + 1]);
  }

  /** Buckets and count hold exactly the steps done; the reader's values are not ahead. */
  predicate Inv(s: State)
  {
    Shaped(s) && Sum(s.buckets) == InBuckets(s.records) && s.count == CountedIn(s.records)
    && (forall i :: 0 <= i < |s.loaded| ==> s.loaded[i] <= s.buckets[i])
    && forall r :: 0 <= r < |s.records| ==> InOrder(s.records[r])
  }

  lemma InvKeptByAdvance(s: State, r: nat)
    requires Inv(s) && r < |s.records|
    ensures Inv(Advanced(s, r))
  {
    var s' := Advanced(s, r);
    CountsUpdate(s.records, r, s'.records[r]);
    SumPlusOne(s.buckets, BucketOf(s.records[r].ns));
    assert s'.records == s.records[r := s'.records[r]];
  }

  lemma InvKept(s: State, step: Step)
    requires Inv(s)
    ensures Inv(Next(s, step))
  {
    match step {
      case Begin(ns) => assert (s.records + [Record(ns, false, false)])[..|s.records|] == s.records;
      case Advance(r) => if r < |s.records| { InvKeptByAdvance(s, r); }
      case Load =>
    }
  }

  lemma {:induction false} InvRun(s: State, steps: seq<Step>)
    requires Inv(s)
    ensures Inv(RunFrom(s, steps))
  {
    if |steps| != 0 {
      InvRun(s, steps[..|steps| - 1]);
      InvKept(RunFrom(s, steps[..|steps| - 1]), steps[|steps| - 1]);
    }
  }

  lemma Always(steps: seq<Step>)
    ensures Inv(Run(steps))
  {
    SumOfSeven(Init().buckets);
    InvRun(Init(), steps);
  }

  lemma SumMonotone(xs: seq<nat>, ys: seq<nat>)
    requires |xs| == |ys| == BUCKETS && forall i :: 0 <= i < BUCKETS ==> xs[i] <= ys[i]
    ensures Sum(xs) <= Sum(ys)
  {
    SumOfSeven(xs);
    SumOfSeven(ys);
  }

  /** By how much the bucket counts and the latency count differ, exactly: by the records
      that have a latency above zero and are in their bucket only, less the records of zero
      latencies that are counted only. */
  lemma DifferenceExactly(steps: seq<Step>)
    ensures var s := Run(steps);
            Sum(s.buckets) - s.count == InBucketOnly(s.records) - (InProgress(s.records) - InBucketOnly(s.records))
            && forall r :: 0 <= r < |s.records| && s.records[r].inBucket != s.records[r].counted ==>
                 (s.records[r].counted <==> s.records[r].ns == 0)
  {
    Always(steps);
    var s := Run(steps);
    DifferenceIs(s.records);
    forall r | 0 <= r < |s.records|
      ensures InOrder(s.records[r])
    {
    }
  }

  /** At every moment the bucket counts and the latency count differ by at most the records
      that are between their two steps; and a reader that has loaded all buckets and now
      loads the count sees bucket counts that exceed it by at most as many. */
  lemma ReadersView(steps: seq<Step>)
    ensures var s := Run(steps);
            Sum(s.buckets) <= s.count + InProgress(s.records) && s.count <= Sum(s.buckets) + InProgress(s.records)
            && (|s.loaded| == BUCKETS ==> Sum(s.loaded) <= s.count + InProgress(s.records))
  {
    Always(steps);
    var s := Run(steps);
    DifferenceBound(s.records);
    if |s.loaded| == BUCKETS {
      SumMonotone(s.loaded, s.buckets);
    }
  }

  // ---------------------------------------------------------------- when a reader can be misled

  /** The reader has all buckets and loads the count: they do not add up. */
  predicate Disagrees(s: State)
  {
    |s.loaded| == BUCKETS && Sum(s.loaded) != s.count
  }

  predicate NoBegin(steps: seq<Step>)
  {
    forall i :: 0 <= i < |steps| ==> !steps[i].Begin?
  }

  ghost predicate Reaches(s: State, t: State)
    requires Shaped(s)
  {
    exists steps :: NoBegin(steps) && RunFrom(s, steps) == t
  }

  lemma {:induction false} RunOn(s: State, a: seq<Step>, b: seq<Step>)
    requires Shaped(s)
    ensures RunFrom(s, a + b) == RunFrom(RunFrom(s, a), b)
  {
    if |b| == 0 {
      assert a + b == a;
    } else {
      assert (a + b)[..|a + b| - 1] == a + b[..|b| - 1];
      RunOn(s, a, b[..|b| - 1]);
    }
  }

  lemma RunOne(s: State, step: Step)
    requires Shaped(s)
    ensures Shaped(Next(s, step)) && RunFrom(s, [step]) == Next(s, step)
  {
    var one := [step];
    assert one[..0] == [];
    assert RunFrom(s, one) == Next(RunFrom(s, one[..0]), one[0]);
  }

  lemma ReachesSelf(s: State)
    requires Shaped(s)
    ensures Reaches(s, s)
  {
    assert NoBegin([]) && RunFrom(s, []) == s;
  }

  lemma ReachesNext(s: State, t: State, step: Step)
    requires Shaped(s) && Reaches(s, t) && Shaped(t) && !step.Begin?
    ensures Reaches(s, Next(t, step))
  {
    var a :| NoBegin(a) && RunFrom(s, a) == t;
    RunOne(t, step);
    RunOn(s, a, [step]);
    assert NoBegin(a + [step]);
  }

  /** Loads the rest of the buckets. */
  lemma {:induction false} LoadsAll(s: State, t: State) returns (u: State)
    requires Shaped(s) && Reaches(s, t) && Inv(t) && t.loaded == t.buckets[..|t.loaded|]
    ensures Reaches(s, u) && Inv(u) && u.loaded == u.buckets && u == t.(loaded := u.loaded)
    decreases BUCKETS - |t.loaded|
  {
    if |t.loaded| == BUCKETS {
      assert t.buckets[..BUCKETS] == t.buckets;
      u := t;
    } else {
      LoadsOne(t);
      ReachesNext(s, t, Load);
      u := LoadsAll(s, Next(t, Load));
    }
  }

  lemma LoadsOne(t: State)
    requires Inv(t) && |t.loaded| < BUCKETS && t.loaded == t.buckets[..|t.loaded|]
    ensures var v := Next(t, Load);
            Inv(v) && v.loaded == v.buckets[..|v.loaded|] && |v.loaded| == |t.loaded| + 1 && v == t.(loaded := v.loaded)
  {
    InvKept(t, Load);
    OneLonger(t.buckets, |t.loaded|);
  }

  lemma OneLonger(xs: seq<nat>, n: nat)
    requires n < |xs|
    ensures xs[..n] + [xs[n]] == xs[..n + 1]
  {
  }

  /** A record that has not been counted can be: by its next step, or the one after. */
  lemma GetsCounted(s: State, t: State, r: nat) returns (u: State)
    requires Shaped(s) && Reaches(s, t) && Inv(t) && r < |t.records| && !t.records[r].counted
    ensures Reaches(s, u) && u.count == t.count + 1 && u.loaded == t.loaded
  {
    u := Next(t, Advance(r));
    ReachesNext(s, t, Advance(r));
    if u.count == t.count {
      InvKept(t, Advance(r));
      ReachesNext(s, u, Advance(r));
      u := Next(u, Advance(r));
    }
  }

  lemma PutInBucket(t: State, r: nat)
    requires Inv(t) && r < |t.records| && t.records[r].counted && !t.records[r].inBucket
    ensures var u := Next(t, Advance(r)); Sum(u.buckets) == Sum(t.buckets) + 1 && u.count == t.count && u.loaded == t.loaded
  {
    SumPlusOne(t.buckets, BucketOf(t.records[r].ns));
  }

  predicate Unfinished(s: State, r: nat)
  {
    r < |s.records| && !(s.records[r].inBucket && s.records[r].counted)
  }

  lemma CanMislead(s: State, r: nat) returns (u: State)
    requires Inv(s) && s.loaded == [] && Unfinished(s, r)
    ensures Reaches(s, u) && Disagrees(u)
  {
    ReachesSelf(s);
    if !s.records[r].counted {
      u := LoadsAll(s, s);
      if Sum(u.loaded) == u.count {
        u := GetsCounted(s, u, r);
      }
    } else if Sum(s.buckets) != s.count {
      u := LoadsAll(s, s);
    } else {
      PutInBucket(s, r);
      InvKept(s, Advance(r));
      ReachesNext(s, s, Advance(r));
      u := LoadsAll(s, Next(s, Advance(r)));
    }
  }

  /** All records are finished and the reader's values are up to date. */
  predicate Still(s: State)
  {
    Inv(s) && (forall r :: 0 <= r < |s.records| ==> s.records[r].inBucket && s.records[r].counted)
    && s.loaded == s.buckets[..|s.loaded|]
  }

  lemma StillKept(s: State, step: Step)
    requires Still(s) && !step.Begin?
    ensures Still(Next(s, step))
  {
    InvKept(s, step);
  }

  lemma {:induction false} StillStays(s: State, more: seq<Step>)
    requires Still(s) && NoBegin(more)
    ensures Still(RunFrom(s, more))
  {
    if |more| != 0 {
      StillStays(s, more[..|more| - 1]);
      StillKept(RunFrom(s, more[..|more| - 1]), more[|more| - 1]);
    }
  }

  lemma {:induction false} AllFinished(rs: seq<Record>)
    requires forall r :: 0 <= r < |rs| ==> rs[r].inBucket && rs[r].counted
    ensures InBuckets(rs) == CountedIn(rs)
  {
    if |rs| != 0 {
      AllFinished(rs[..|rs| - 1]);
    }
  }

  lemma StillAgrees(s: State)
    requires Still(s)
    ensures !Disagrees(s)
  {
    AllFinished(s.records);
    assert |s.loaded| == BUCKETS ==> s.loaded == s.buckets;
  }

  /** When a reader can see bucket counts that do not add up to the count: starting to read
      in any run, and with no further record beginning, some continuation misleads the
      reader if and only if some record has not done both of its steps. */
  lemma {:induction false} MisleadsExactly(steps: seq<Step>)
    requires Run(steps).loaded == []
    ensures (exists more :: NoBegin(more) && Disagrees(RunFrom(Run(steps), more))) <==> exists r :: Unfinished(Run(steps), r)
  {
    Always(steps);
    MisleadsFrom(Run(steps));
  }

  lemma MisleadsFrom(s: State)
    requires Inv(s) && s.loaded == []
    ensures (exists more :: NoBegin(more) && Disagrees(RunFrom(s, more))) <==> exists r :: Unfinished(s, r)
  {
    if r :| Unfinished(s, r) {
      var u := CanMislead(s, r);
      var more :| NoBegin(more) && RunFrom(s, more) == u;
      assert Disagrees(RunFrom(s, more));
    } else {
      forall r | 0 <= r < |s.records|
        ensures s.records[r].inBucket && s.records[r].counted
      {
        assert !Unfinished(s, r);
      }
      forall more | NoBegin(more)
        ensures !Disagrees(RunFrom(s, more))
      {
        StillStays(s, more);
        StillAgrees(RunFrom(s, more));
      }
    }
  }

  // ---------------------------------------------------------------- two runs

  /** It does happen, whatever the latency, once a single record has begun. */
  lemma MisleadsOnce(ns: nat)
    requires ns < WORD
    ensures exists more :: NoBegin(more) && Disagrees(RunFrom(Run([Begin(ns)]), more))
  {
    RunOne(Init(), Begin(ns));
    assert Unfinished(Run([Begin(ns)]), 0);
    MisleadsExactly([Begin(ns)]);
  }

  /** One whole record of a zero latency. */
  lemma OneRecord(s: State)
    requires Inv(s)
    ensures var r := |s.records|;
            var t := Next(Next(Next(s, Begin(0)), Advance(r)), Advance(r));
            Inv(t) && t.count == s.count + 1 && t.loaded == s.loaded && InProgress(t.records) == InProgress(s.records)
  {
    var r := |s.records|;
    var a := Next(s, Begin(0));
    var b := Next(a, Advance(r));
    InvKept(s, Begin(0));
    InvKept(a, Advance(r));
    InvKept(b, Advance(r));
    var t := Next(b, Advance(r));
    assert t.records[..r] == s.records;
  }

  lemma RunThree(s: State, a: Step, b: Step, c: Step)
    requires Shaped(s)
    ensures RunFrom(s, [a] + [b] + [c]) == Next(Next(Next(s, a), b), c)
  {
    RunOne(s, a);
    RunOne(Next(s, a), b);
    RunOne(Next(Next(s, a), b), c);
    RunOn(s, [a], [b]);
    RunOn(s, [a] + [b], [c]);
  }

  /** The other way round there is no bound: for every n a reader that loaded its buckets
      before can see a count of n and empty buckets, with no record in progress. */
  lemma {:induction false} CountRunsAhead(n: nat) returns (steps: seq<Step>)
    ensures var s := Run(steps);
            Inv(s) && |s.loaded| == BUCKETS && Sum(s.loaded) == 0 && s.count == n && InProgress(s.records) == 0
  {
    if n == 0 {
      var s := Init();
      Always([]);
      ReachesSelf(s);
      var u := LoadsAll(s, s);
      var more :| NoBegin(more) && RunFrom(s, more) == u;
      steps := more;
    } else {
      var before := CountRunsAhead(n - 1);
      var s := Run(before);
      var r := |s.records|;
      OneRecord(s);
      RunThree(s, Begin(0), Advance(r), Advance(r));
      RunOn(Init(), before, [Begin(0)] + [Advance(r)] + [Advance(r)]);
      steps := before + ([Begin(0)] + [Advance(r)] + [Advance(r)]);
    }
  }
}
