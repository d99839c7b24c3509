/** The auditor: re-reads a run and re-checks links, hashes and signatures. */
module Audit {
  import opened Codec
  import opened Events
  import opened Store
  import Doubles

  const MAX_VERIFY: nat := 100_000

  datatype Verdict = Pass | NoSignature | NoHash | HashFailed | HashMismatch | BadSignature

  /** The map the auditor builds to recompute a hash. */
  function AuditPayload(lib: Lib, e: Event): GoValue
  {
    var tsStr := lib.format(e.time);
    GoMap(map[
      "id" := GoString(e.id),
      "run_id" := GoString(e.runID),
      "seq_index" := GoUint(e.seqIndex),
      "timestamp" := GoString(tsStr),
      "actor" := GoString(e.body.actor),
      "event_type" := GoString(e.body.eventType),
      "method" := GoString(e.body.methodName),
      "params" := Value(e.params),
      "response" := Value(e.response),
      "task_id" := GoString(e.body.taskID),
      "task_state" := GoString(e.body.taskState),
      "parent_id" := GoString(e.body.parentID),
      "policy_id" := GoString(e.body.policyID),
      "risk_level" := GoString(e.body.riskLevel)])
  }

  /** The hash the auditor computes is the one the writer computed. */
  function RecomputedHash(lib: Lib, e: Event): (h: Option<string>)
    ensures h == HashOf(lib, e)
  {
    EventHash(lib, e.seal.prevHash, AuditPayload(lib, e))
  }

  function VerifyEvent(lib: Lib, e: Event, publicKey: string): Verdict
  {
    if e.seal.signature == "" then NoSignature
    else if e.seal.currentHash == "" then NoHash
    else match RecomputedHash(lib, e)
      case None => HashFailed
      case Some(h) =>
        if h != e.seal.currentHash then HashMismatch
        else if !lib.verify(publicKey, h, e.seal.signature) then BadSignature
        else Pass
  }

  datatype Failure = NoFailure | NoEvents | BrokenLink | BadEvent(verdict: Verdict)

  datatype Report = Report(valid: bool, totalEvents: nat, failure: Failure, failedAtSeq: nat)

  /** What each verdict says about an event whose previous hash has the right length. */
  lemma VerdictMeaning(lib: Lib, e: Event, publicKey: string)
    requires Lawful(lib) && |e.seal.prevHash| == 64
    ensures var sealed := e.seal.signature != "" && e.seal.currentHash != "";
            var right := Expressible(e) && e.seal.currentHash == lib.sha256(Input(lib, e));
            var v := VerifyEvent(lib, e, publicKey);
            (v == Pass <==> sealed && right && lib.verify(publicKey, e.seal.currentHash, e.seal.signature))
            && (v == BadSignature <==> sealed && right && !lib.verify(publicKey, e.seal.currentHash, e.seal.signature))
            && (v == HashMismatch <==> sealed && Expressible(e) && !right)
            && (v == HashFailed <==> sealed && !Expressible(e))
            && (v == NoSignature <==> e.seal.signature == "")
  {
    HashOfValue(lib, e);
  }

  // ---------------------------------------------------------------- what a report means

  predicate LinkOk(es: seq<Event>, i: nat)
    requires i < |es|
  {
    i == 0 || es[i].seal.prevHash == es[i - 1].seal.currentHash
  }

  predicate Passes(lib: Lib, es: seq<Event>, publicKey: string, i: nat)
    requires i < |es|
  {
    LinkOk(es, i) && VerifyEvent(lib, es[i], publicKey) == Pass
  }

  predicate AllPass(lib: Lib, es: seq<Event>, publicKey: string)
  {
    forall i :: 0 <= i < |es| ==> Passes(lib, es, publicKey, i)
  }

  /** Event k is the first that fails its link, hash or signature check. */
  predicate FailsFirst(lib: Lib, es: seq<Event>, publicKey: string, k: nat)
  {
    k < |es| && !Passes(lib, es, publicKey, k) && forall i :: 0 <= i < k ==> Passes(lib, es, publicKey, i)
  }

  /** The report of a verification of the events es. */
  ghost predicate IsReport(lib: Lib, es: seq<Event>, publicKey: string, r: Report)
  {
    r.totalEvents == |es|
    && (r.valid <==> |es| != 0 && AllPass(lib, es, publicKey))
    && (r.failure.NoFailure? <==> r.valid)
    && (r.failure.NoEvents? <==> |es| == 0)
    && (!r.valid && |es| != 0 ==>
          exists k: nat :: FailsFirst(lib, es, publicKey, k) && Names(lib, es, publicKey, k, r))
  }

  /** The report points at event k and says what failed there. */
  predicate Names(lib: Lib, es: seq<Event>, publicKey: string, k: nat, r: Report)
    requires k < |es|
  {
    r.failedAtSeq == es[k].seqIndex
    && r.failure == if LinkOk(es, k) then BadEvent(VerifyEvent(lib, es[k], publicKey)) else BrokenLink
  }

  /** One event of the loop: its link, then the event itself. */
  method CheckEvent(lib: Lib, events: seq<Event>, publicKey: string, i: nat) returns (failure: Failure)
    requires i < |events|
    ensures failure.NoFailure? <==> Passes(lib, events, publicKey, i)
    ensures !failure.NoFailure? ==> Names(lib, events, publicKey, i, Report(false, |events|, failure, events[i].seqIndex))
  {
    if i > 0 {
      if events[i].seal.prevHash != events[i - 1].seal.currentHash {
        return BrokenLink;
      }
    }
    var verdict := VerifyEvent(lib, events[i], publicKey);
    failure := if verdict == Pass then NoFailure else BadEvent(verdict);
  }

  method CheckEvents(lib: Lib, events: seq<Event>, publicKey: string) returns (r: Report)
    requires 0 < |events| <= MAX_VERIFY
    ensures IsReport(lib, events, publicKey, r)
  {
    var i := 0;
    while i < MAX_VERIFY && i < |events|
      invariant 0 <= i <= |events|
      invariant forall j :: 0 <= j < i ==> Passes(lib, events, publicKey, j)
    {
      var failure := CheckEvent(lib, events, publicKey, i);
      if !failure.NoFailure? {
        assert FailsFirst(lib, events, publicKey, i);
        return Report(false, |events|, failure, events[i].seqIndex);
      }
      i := i + 1;
    }
    r := Report(true, |events|, NoFailure, 0);
  }

  /** VerifyChain over the store. No report only when reading fails: the count
      assertion cannot fire, because reading stops at the same bound. */
  method VerifyChain(lib: Lib, db: DB, run: string, publicKey: string, fault: bool) returns (r: Option<Report>)
    ensures r.None? <==> fault || run == ""
    ensures r.Some? ==> IsReport(lib, ReadRows(lib, Visible(db.rows, run)), publicKey, r.value)
  {
    if run == "" {
      return None;
    }
    var read := db.GetAllEvents(lib, run, fault);
    if read.None? {
      return None;
    }
    var events := read.value;
    if |events| == 0 {
      return Some(Report(false, 0, NoEvents, 0));
    }
    assert |events| <= MAX_VERIFY;
    var report := CheckEvents(lib, events, publicKey);
    r := Some(report);
  }

  /** The report is determined by the events. */
  lemma ReportUnique(lib: Lib, es: seq<Event>, publicKey: string, r: Report, q: Report)
    requires IsReport(lib, es, publicKey, r) && IsReport(lib, es, publicKey, q)
    ensures r.valid == q.valid && r.totalEvents == q.totalEvents && r.failure == q.failure
    ensures !r.valid && |es| != 0 ==> r.failedAtSeq == q.failedAtSeq
  {
  }

  // ---------------------------------------------------------------- what a passed chain commits to

  /** Two different inputs with the same SHA-256 value. */
  predicate Collision(lib: Lib, x: string, y: string)
  {
    x != y && lib.sha256(x) == lib.sha256(y)
  }

  predicate Starts(es: seq<Event>)
  {
    |es| != 0 && es[0].seal.prevHash == ZeroHash()
  }

  /** In a passed chain that starts from the zero hash every previous hash has 64
      characters, and every event hashes to its own hash. */
  lemma {:induction false} PassedHashes(lib: Lib, es: seq<Event>, publicKey: string, i: nat)
    requires Lawful(lib) && AllPass(lib, es, publicKey) && Starts(es) && i < |es|
    ensures |es[i].seal.prevHash| == 64 && Expressible(es[i])
    ensures es[i].seal.currentHash == lib.sha256(Input(lib, es[i]))
  {
    if i > 0 {
      PassedHashes(lib, es, publicKey, i - 1);
      assert Passes(lib, es, publicKey, i - 1);
    }
    assert Passes(lib, es, publicKey, i);
    HashOfValue(lib, es[i]);
  }

  /** Two events agree on everything the hash covers. */
  predicate Agree(lib: Lib, e: Event, f: Event)
  {
    SameHashed(lib, e, f) && e.seal.prevHash == f.seal.prevHash && e.seal.currentHash == f.seal.currentHash
  }

  /** Equal hashes mean agreement, or a collision. */
  lemma EqualHashes(lib: Lib, e: Event, f: Event)
    requires Lawful(lib) && |e.seal.prevHash| == |f.seal.prevHash| == 64
    requires e.seal.currentHash == lib.sha256(Input(lib, e)) && f.seal.currentHash == lib.sha256(Input(lib, f))
    requires e.seal.currentHash == f.seal.currentHash
    ensures Agree(lib, e, f) || Collision(lib, Input(lib, e), Input(lib, f))
  {
    InputBinds(lib, e, f);
  }

  /** Two passed chains from the zero hash with the same last hash. */
  predicate Twins(lib: Lib, es: seq<Event>, fs: seq<Event>, p: string, q: string)
  {
    AllPass(lib, es, p) && AllPass(lib, fs, q) && Starts(es) && Starts(fs)
    && es[|es| - 1].seal.currentHash == fs[|fs| - 1].seal.currentHash
  }

  /** The hash inputs of an event of es and one of fs collide. */
  ghost predicate Collide(lib: Lib, es: seq<Event>, fs: seq<Event>)
  {
    exists i: nat, j: nat :: CollideAt(lib, es, fs, i, j)
  }

  predicate CollideAt(lib: Lib, es: seq<Event>, fs: seq<Event>, i: nat, j: nat)
  {
    i < |es| && j < |fs| && Collision(lib, Input(lib, es[i]), Input(lib, fs[j]))
  }

  /** Some event hashes to 64 zeros. */
  predicate ZeroHashed(es: seq<Event>)
  {
    exists i :: 0 <= i < |es| && es[i].seal.currentHash == ZeroHash()
  }

  lemma AgreeFromHash(lib: Lib, es: seq<Event>, fs: seq<Event>, p: string, q: string, i: nat, j: nat)
    requires Lawful(lib) && Twins(lib, es, fs, p, q) && !Collide(lib, es, fs) && i < |es| && j < |fs|
    requires es[i].seal.currentHash == fs[j].seal.currentHash
    ensures Agree(lib, es[i], fs[j])
  {
    PassedHashes(lib, es, p, i);
    PassedHashes(lib, fs, q, j);
    EqualHashes(lib, es[i], fs[j]);
    assert !CollideAt(lib, es, fs, i, j);
  }

  /** Equal previous hashes of two events are equal hashes of their predecessors. */
  lemma StepBack(lib: Lib, es: seq<Event>, fs: seq<Event>, p: string, q: string, i: nat, j: nat)
    requires AllPass(lib, es, p) && AllPass(lib, fs, q) && 0 < i < |es| && 0 < j < |fs|
    requires es[i].seal.prevHash == fs[j].seal.prevHash
    ensures es[i - 1].seal.currentHash == fs[j - 1].seal.currentHash
  {
    assert Passes(lib, es, p, i) && Passes(lib, fs, q, j);
  }

  /** Backwards from the last events, with the shorter chain at the end of the longer. */
  lemma {:induction false} CommitsAt(lib: Lib, es: seq<Event>, fs: seq<Event>, p: string, q: string, i: nat)
    requires Lawful(lib) && Twins(lib, es, fs, p, q) && !Collide(lib, es, fs) && i < |es| <= |fs|
    ensures Agree(lib, es[i], fs[i + |fs| - |es|])
    decreases |es| - i
  {
    var j := i + |fs| - |es|;
    if i + 1 < |es| {
      CommitsAt(lib, es, fs, p, q, i + 1);
      StepBack(lib, es, fs, p, q, i + 1, j + 1);
    }
    AgreeFromHash(lib, es, fs, p, q, i, j);
  }

  lemma SameLength(lib: Lib, es: seq<Event>, fs: seq<Event>, p: string, q: string)
    requires Lawful(lib) && Twins(lib, es, fs, p, q) && !Collide(lib, es, fs) && |es| <= |fs|
    ensures |es| == |fs| || ZeroHashed(fs)
  {
    var d := |fs| - |es|;
    CommitsAt(lib, es, fs, p, q, 0);
    if d > 0 {
      assert Passes(lib, fs, q, d);
      assert fs[d - 1].seal.currentHash == ZeroHash();
    }
  }

  lemma ShorterCommits(lib: Lib, es: seq<Event>, fs: seq<Event>, p: string, q: string)
    requires Lawful(lib) && Twins(lib, es, fs, p, q) && !Collide(lib, es, fs) && !ZeroHashed(fs) && |es| <= |fs|
    ensures |es| == |fs| && forall i :: 0 <= i < |es| ==> Agree(lib, es[i], fs[i])
  {
    SameLength(lib, es, fs, p, q);
    forall i | 0 <= i < |es|
      ensures Agree(lib, es[i], fs[i])
    {
      CommitsHere(lib, es, fs, p, q, i);
    }
  }

  lemma CommitsHere(lib: Lib, es: seq<Event>, fs: seq<Event>, p: string, q: string, i: nat)
    requires Lawful(lib) && Twins(lib, es, fs, p, q) && !Collide(lib, es, fs) && i < |es| == |fs|
    ensures Agree(lib, es[i], fs[i])
  {
    CommitsAt(lib, es, fs, p, q, i);
  }

  lemma CollideBothWays(lib: Lib, es: seq<Event>, fs: seq<Event>)
    requires Collide(lib, fs, es)
    ensures Collide(lib, es, fs)
  {
    var i: nat, j: nat :| CollideAt(lib, fs, es, i, j);
    assert CollideAt(lib, es, fs, j, i);
  }

  /** The last hash commits to the whole history: two passed chains from the zero hash
      with the same last hash have the same length and agree on every hashed field at
      every position, or SHA-256 has a collision or hashes some event to 64 zeros. */
  lemma LastHashCommits(lib: Lib, es: seq<Event>, fs: seq<Event>, p: string, q: string)
    requires Lawful(lib) && Twins(lib, es, fs, p, q)
    ensures (|es| == |fs| && forall i :: 0 <= i < |es| ==> Agree(lib, es[i], fs[i]))
            || Collide(lib, es, fs) || ZeroHashed(es) || ZeroHashed(fs)
  {
    if !Collide(lib, es, fs) && !ZeroHashed(es) && !ZeroHashed(fs) {
      if |es| <= |fs| {
        ShorterCommits(lib, es, fs, p, q);
      } else {
        if Collide(lib, fs, es) {
          CollideBothWays(lib, es, fs);
        }
        ShorterCommits(lib, fs, es, q, p);
      }
    }
  }

  /** The events are the same in everything the hash covers; the index unless both
      share their double with others. */
  predicate SameRecord(lib: Lib, e: Event, f: Event)
  {
    e.id == f.id && e.runID == f.runID && e.body == f.body && e.params == f.params && e.response == f.response
    && lib.format(e.time) == lib.format(f.time)
    && e.seal.prevHash == f.seal.prevHash && e.seal.currentHash == f.seal.currentHash
    && (!Doubles.Ambiguous(e.seqIndex) || !Doubles.Ambiguous(f.seqIndex) ==> e.seqIndex == f.seqIndex)
  }

  lemma AgreeingRowsSame(lib: Lib, r: Row, q: Row)
    requires Agree(lib, ReadRow(lib, r), ReadRow(lib, q))
    ensures SameRecord(lib, ReadRow(lib, r), ReadRow(lib, q))
  {
    ReadFieldsFromJson(lib, r.params);
    ReadFieldsFromJson(lib, q.params);
    ReadFieldsFromJson(lib, r.response);
    ReadFieldsFromJson(lib, q.response);
    SameHashedIsSame(lib, ReadRow(lib, r), ReadRow(lib, q));
  }

  /** For stored histories agreement is equality: two tables whose events pass, start from
      the zero hash and end in the same hash hold the same events. */
  lemma StoredHistoriesAgree(lib: Lib, rs: seq<Row>, qs: seq<Row>, p: string, q: string)
    requires Lawful(lib) && Twins(lib, ReadRows(lib, rs), ReadRows(lib, qs), p, q)
    ensures var es, fs := ReadRows(lib, rs), ReadRows(lib, qs);
            (|es| == |fs| && forall i :: 0 <= i < |es| ==> SameRecord(lib, es[i], fs[i]))
            || Collide(lib, es, fs) || ZeroHashed(es) || ZeroHashed(fs)
  {
    var es, fs := ReadRows(lib, rs), ReadRows(lib, qs);
    LastHashCommits(lib, es, fs, p, q);
    if |es| == |fs| && forall i :: 0 <= i < |es| ==> Agree(lib, es[i], fs[i]) {
      forall i | 0 <= i < |es|
        ensures SameRecord(lib, es[i], fs[i])
      {
        AgreeingRowsSame(lib, rs[i], qs[i]);
      }
    }
  }

  lemma EarlierStillPass(lib: Lib, es: seq<Event>, publicKey: string, k: nat, fs: seq<Event>)
    requires AllPass(lib, es, publicKey) && k <= |es| == |fs| && fs[..k] == es[..k]
    ensures forall i :: 0 <= i < k ==> Passes(lib, fs, publicKey, i)
  {
    assert forall i :: 0 <= i < k ==> fs[i] == fs[..k][i] == es[..k][i] == es[i];
    forall i | 0 <= i < k
      ensures Passes(lib, fs, publicKey, i)
    {
      assert Passes(lib, es, publicKey, i);
    }
  }

  /** Edit detection: replacing event k by one that differs in a hashed field or in its
      previous hash, but keeps its hash, fails verification exactly at k. */
  lemma EditDetected(lib: Lib, es: seq<Event>, publicKey: string, k: nat, e: Event)
    requires Lawful(lib) && AllPass(lib, es, publicKey) && Starts(es) && k < |es|
    requires e.seal.currentHash == es[k].seal.currentHash
    requires !SameHashed(lib, e, es[k]) || e.seal.prevHash != es[k].seal.prevHash
    requires k == 0 && |e.seal.prevHash| != 64 ==> ObjectTexts(lib)
    ensures FailsFirst(lib, es[k := e], publicKey, k) || Collision(lib, Input(lib, e), Input(lib, es[k]))
  {
    var fs := es[k := e];
    EarlierStillPass(lib, es, publicKey, k, fs);
    PassedHashes(lib, es, publicKey, k);
    assert Passes(lib, es, publicKey, k);
    if Passes(lib, fs, publicKey, k) {
      InputBinds(lib, e, es[k]);
      assert Collision(lib, Input(lib, e), Input(lib, es[k]));
    }
  }

  /** Even an event re-hashed and re-signed with the right key: whatever replaces an event
      that is not the last and differs in a hashed field or in its previous hash, the first
      failure is there or at the link of its successor. */
  lemma ChangeDetected(lib: Lib, es: seq<Event>, publicKey: string, k: nat, e: Event)
    requires Lawful(lib) && AllPass(lib, es, publicKey) && Starts(es) && k + 1 < |es|
    requires !SameHashed(lib, e, es[k]) || e.seal.prevHash != es[k].seal.prevHash
    requires k == 0 && |e.seal.prevHash| != 64 ==> ObjectTexts(lib)
    ensures var fs := es[k := e];
            FailsFirst(lib, fs, publicKey, k) || (FailsFirst(lib, fs, publicKey, k + 1) && !LinkOk(fs, k + 1))
            || Collision(lib, Input(lib, e), Input(lib, es[k]))
  {
    var fs := es[k := e];
    EarlierStillPass(lib, es, publicKey, k, fs);
    if Passes(lib, fs, publicKey, k) {
      if e.seal.currentHash == es[k].seal.currentHash {
        EditDetected(lib, es, publicKey, k, e);
      } else {
        assert Passes(lib, es, publicKey, k + 1) && !LinkOk(fs, k + 1);
      }
    }
  }

  // ---------------------------------------------------------------- removed events

  /** idx picks some of n events, in order. */
  predicate Rising(idx: seq<nat>, n: nat)
  {
    (forall i :: 0 <= i < |idx| ==> idx[i] < n) && forall i, j :: 0 <= i < j < |idx| ==> idx[i] < idx[j]
  }

  function Picked(es: seq<Event>, idx: seq<nat>): (fs: seq<Event>)
    requires Rising(idx, |es|)
    ensures |fs| == |idx| && forall i :: 0 <= i < |fs| ==> fs[i] == es[idx[i]]
  {
    seq(|idx|, i requires 0 <= i < |idx| => es[idx[i]])
  }

  predicate Adjacent(idx: seq<nat>, i: nat)
    requires 0 < i < |idx|
  {
    idx[i] == idx[i - 1] + 1
  }

  /** The picked events are one block. */
  predicate Contiguous(idx: seq<nat>)
  {
    forall i :: 0 < i < |idx| ==> Adjacent(idx, i)
  }

  /** The picked event i still fits on the one before: nothing was removed between them,
      or the last event removed there has the same hash. */
  predicate StillFits(es: seq<Event>, idx: seq<nat>, i: nat)
    requires Rising(idx, |es|) && 0 < i < |idx|
  {
    Adjacent(idx, i) || es[idx[i] - 1].seal.currentHash == es[idx[i - 1]].seal.currentHash
  }

  lemma PickedPasses(lib: Lib, es: seq<Event>, publicKey: string, idx: seq<nat>, i: nat)
    requires AllPass(lib, es, publicKey) && Rising(idx, |es|) && i < |idx|
    ensures Passes(lib, Picked(es, idx), publicKey, i) <==> i == 0 || StillFits(es, idx, i)
  {
    assert Passes(lib, es, publicKey, idx[i]);
    if i > 0 {
      assert idx[i - 1] < idx[i];
      assert Picked(es, idx)[i - 1] == es[idx[i - 1]];
    }
  }

  predicate DistinctIds(es: seq<Event>)
  {
    forall i, j :: 0 <= i < j < |es| ==> es[i].id != es[j].id
  }

  /** Events with different ids and the same hash collide. */
  lemma GapCollides(lib: Lib, es: seq<Event>, publicKey: string, idx: seq<nat>, i: nat)
    requires Lawful(lib) && AllPass(lib, es, publicKey) && Starts(es) && DistinctIds(es)
    requires Rising(idx, |es|) && 0 < i < |idx| && !Adjacent(idx, i) && StillFits(es, idx, i)
    ensures Collide(lib, es, es)
  {
    var a, b := idx[i - 1], idx[i] - 1;
    assert idx[i - 1] < idx[i];
    PassedHashes(lib, es, publicKey, a);
    PassedHashes(lib, es, publicKey, b);
    EqualHashes(lib, es[a], es[b]);
    assert CollideAt(lib, es, es, a, b);
  }

  lemma {:induction false} ContiguousAt(idx: seq<nat>, i: nat)
    requires Contiguous(idx) && i < |idx|
    ensures idx[i] == idx[0] + i
  {
    if i > 0 {
      ContiguousAt(idx, i - 1);
      assert Adjacent(idx, i);
    }
  }

  lemma ContiguousIsBlock(es: seq<Event>, idx: seq<nat>)
    requires Rising(idx, |es|) && Contiguous(idx) && |idx| != 0
    ensures idx[0] + |idx| <= |es| && Picked(es, idx) == es[idx[0]..idx[0] + |idx|]
  {
    ContiguousAt(idx, |idx| - 1);
    forall i | 0 <= i < |idx|
      ensures idx[i] == idx[0] + i
    {
      ContiguousAt(idx, i);
    }
  }

  /** Which removals go undetected: of a passed chain, a selection of its events passes if
      and only if it is one block. So the newest events can go, and the oldest, genesis
      included, because the first link is not checked; a gap between two kept events fails
      at the second of them. Otherwise SHA-256 has a collision. */
  lemma RemovalDetectedExactly(lib: Lib, es: seq<Event>, publicKey: string, idx: seq<nat>)
    requires Lawful(lib) && AllPass(lib, es, publicKey) && Starts(es) && DistinctIds(es) && Rising(idx, |es|)
    ensures (AllPass(lib, Picked(es, idx), publicKey) <==> Contiguous(idx)) || Collide(lib, es, es)
    ensures Contiguous(idx) ==> AllPass(lib, Picked(es, idx), publicKey)
    ensures Contiguous(idx) && |idx| != 0 ==>
              idx[0] + |idx| <= |es| && Picked(es, idx) == es[idx[0]..idx[0] + |idx|]
    ensures forall k :: 0 < k < |idx| && !Adjacent(idx, k) && (forall i :: 0 < i < k ==> Adjacent(idx, i)) ==>
              FailsFirst(lib, Picked(es, idx), publicKey, k) || Collide(lib, es, es)
  {
    forall i | 0 <= i < |idx|
      ensures Passes(lib, Picked(es, idx), publicKey, i) <==> i == 0 || StillFits(es, idx, i)
    {
      PickedPasses(lib, es, publicKey, idx, i);
    }
    forall i | 0 < i < |idx| && !Adjacent(idx, i) && StillFits(es, idx, i)
      ensures Collide(lib, es, es)
    {
      GapCollides(lib, es, publicKey, idx, i);
    }
    if Contiguous(idx) && |idx| != 0 {
      ContiguousIsBlock(es, idx);
    }
  }

  /** A block of a passed chain is reported as Valid. */
  lemma BlockUndetected(lib: Lib, es: seq<Event>, publicKey: string, a: nat, b: nat, r: Report)
    requires AllPass(lib, es, publicKey) && a < b <= |es| && IsReport(lib, es[a..b], publicKey, r)
    ensures r.valid && r.totalEvents == b - a
  {
    forall i | 0 <= i < b - a
      ensures Passes(lib, es[a..b], publicKey, i)
    {
      assert Passes(lib, es, publicKey, a + i);
    }
  }

  // ---------------------------------------------------------------- unread events

  lemma {:induction false} InsertBeyond(sorted: seq<Row>, r: Row, n: nat)
    requires Sorted(sorted) && 0 < n <= |sorted| && sorted[n - 1].seqIndex <= r.seqIndex
    ensures n <= |Insert(sorted, r)| && Insert(sorted, r)[..n] == sorted[..n]
  {
    if sorted[|sorted| - 1].seqIndex > r.seqIndex {
      InsertBeyond(sorted[..|sorted| - 1], r, n);
    }
  }

  /** The auditor's page is full, and r comes after it. */
  predicate AfterPage(rows: seq<Row>, run: string, r: Row)
  {
    |OfRun(rows, run)| >= MAX_ROWS
    && |Visible(rows, run)| == MAX_ROWS && (r.runID == run ==> Visible(rows, run)[MAX_ROWS - 1].seqIndex <= r.seqIndex)
  }

  lemma LateRowUnread(rows: seq<Row>, run: string, r: Row)
    requires AfterPage(rows, run, r)
    ensures Visible(rows + [r], run) == Visible(rows, run) && |OfRun(rows + [r], run)| >= MAX_ROWS
  {
    OfRunAppend(rows, r, run);
    var mine := OfRun(rows, run);
    AscendingIsOrderBy(mine);
    assert |multiset(Ascending(mine))| == |multiset(mine)|;
    if r.runID == run {
      assert (mine + [r])[..|mine|] == mine;
      InsertBeyond(Ascending(mine), r, MAX_ROWS);
    }
  }

  /** Once a run has 100000 rows, rows with later indices do not reach the auditor, whatever
      the order in which the table holds them. */
  lemma {:induction false} RowsBeyondBoundUnread(rows: seq<Row>, run: string, more: seq<Row>)
    requires |OfRun(rows, run)| >= MAX_ROWS && forall i :: 0 <= i < |more| ==> AfterPage(rows, run, more[i])
    ensures Visible(rows + more, run) == Visible(rows, run) && |OfRun(rows + more, run)| >= MAX_ROWS
  {
    if |more| == 0 {
      assert rows + more == rows;
    } else {
      var init, r := more[..|more| - 1], more[|more| - 1];
      RowsBeyondBoundUnread(rows, run, init);
      assert AfterPage(rows, run, r);
      LateRowUnread(rows + init, run, r);
      assert rows + more == (rows + init) + [r];
    }
  }
}
