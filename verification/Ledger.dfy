/** Whole lives of a ledger: starts and restarts, processed events, key rotations and
    failures, in any order, by a single writer. */
module Ledger {
  import opened Codec
  import opened Events
  import opened Store
  import opened Chain
  import opened Processor
  import opened Audit

  // ---------------------------------------------------------------- genesis

  datatype Anchor = Anchor(source: string, height: nat, hash: string, time: Time)

  /** What the id generator, the clock, the caller, the anchor service and the event
      pool supply for a genesis event. */
  datatype Genesis = Genesis(
    id: string, runID: string, time: Time, agentName: string, anchor: Option<Anchor>, response: Fields)

  function GenesisEvent(lib: Lib, key: Key, g: Genesis): Event
  {
    var known := map["public_key" := GoString(lib.publicKey(key)), "agent_name" := GoString(g.agentName),
                     "version" := GoString("1.0.0")];
    var params := match g.anchor
      case None => known
      case Some(a) => known["anchor_source" := GoString(a.source)]["anchor_height" := GoUint(a.height)]
                           ["anchor_hash" := GoString(a.hash)]["anchor_time" := GoTime(a.time)];
    Event(g.id, g.runID, 0, g.time, Body("system", "genesis", "logryph:init", "", "", "", "", ""),
          Some(params), g.response, Seal(ZeroHash(), "", ""))
  }

  /** The map that is hashed for a genesis event. */
  function GenesisPayload(lib: Lib, e: Event): GoValue
  {
    GoMap(map[
      "id" := GoString(e.id),
      "run_id" := GoString(e.runID),
      "seq_index" := GoUint(e.seqIndex),
      "timestamp" := GoString(lib.format(e.time)),
      "actor" := GoString(e.body.actor),
      "event_type" := GoString(e.body.eventType),
      "method" := GoString(e.body.methodName),
      "params" := Value(e.params),
      "response" := Value(e.response),
      "task_id" := GoString(e.body.taskID),
      "task_state" := GoString(e.body.taskState),
      "parent_id" := GoString(e.body.parentID),
      "policy_id" := GoString(e.body.policyID),
      "risk_level" := GoString(e.body.riskLevel)])
  }

  /** The genesis hash is computed as every other hash is. */
  function GenesisHash(lib: Lib, e: Event): (h: Option<string>)
    ensures h == HashOf(lib, e)
  {
    EventHash(lib, e.seal.prevHash, GenesisPayload(lib, e))
  }

  /** Both tables after CreateGenesisBlock, and whether it succeeded. */
  datatype Created = Created(runs: seq<RunRecord>, rows: seq<Row>, ok: bool)

  function CreatedGenesis(lib: Lib, runs: seq<RunRecord>, rows: seq<Row>, key: Key, g: Genesis,
                          runFault: bool, eventFault: bool): Created
  {
    match Signed(lib, key, GenesisEvent(lib, key, g))
    case None => Created(runs, rows, false)
    case Some(s) =>
      var r := RunRecord(g.runID, g.agentName, s.seal.currentHash, lib.publicKey(key));
      if runFault || !GoodRun(runs, r) then Created(runs, rows, false)
      else if eventFault || !Expressible(s) || !Admissible(rows, RowOf(lib, s)) then Created(runs + [r], rows, false)
      else Created(runs + [r], rows + [RowOf(lib, s)], true)
  }

  /** Hashes and signs the genesis event, then inserts the run record and the event; a
      failure in between leaves the run record without its event. */
  method CreateGenesisBlock(lib: Lib, db: DB, signer: Signer, g: Genesis, runFault: bool, eventFault: bool)
    returns (ok: bool)
    modifies db
    ensures Created(db.runs, db.rows, ok)
            == CreatedGenesis(lib, old(db.runs), old(db.rows), signer.key, g, runFault, eventFault)
  {
    var e := GenesisEvent(lib, signer.key, g);
    var hash := GenesisHash(lib, e);
    if hash.None? {
      return false;
    }
    var signature := signer.SignHash(lib, hash.value);
    e := e.(seal := Seal(e.seal.prevHash, hash.value, signature));
    var inserted := db.InsertRun(RunRecord(g.runID, g.agentName, hash.value, lib.publicKey(signer.key)), runFault);
    if !inserted {
      return false;
    }
    ok := db.StoreEvent(lib, e, eventFault);
  }

  // ---------------------------------------------------------------- lives

  datatype Running = Running(runID: string, tasks: map<string, string>)

  /** keys, start and log are history: the key each row was signed with, the number of
      rows when the processor started, and the reports stored since. */
  datatype World = World(
    runs: seq<RunRecord>, rows: seq<Row>, key: Key, proc: Option<Running>, keys: seq<Key>, start: nat, log: seq<Entry>)

  datatype Op =
    | Start(g: Genesis, hasRunsFault: bool, runFault: bool, eventFault: bool, getRunFault: bool)
    | Handle(e: Event, f: Faults, supply: Fresh, h: Faults)
    | Rotate(newKey: Key, saved: bool)

  function Empty(key: Key): World
  {
    World([], [], key, None, [], 0, [])
  }

  /** Worker.Start: the first run ever gets a genesis block, later starts continue the
      latest run; the task map starts empty. */
  function Started(lib: Lib, w: World, op: Op): World
    requires op.Start?
  {
    var idle := w.(proc := None, start := |w.rows|, log := []);
    if op.hasRunsFault then idle
    else if |w.runs| == 0 then
      var c := CreatedGenesis(lib, w.runs, w.rows, w.key, op.g, op.runFault, op.eventFault);
      if c.ok then World(c.runs, c.rows, w.key, Some(Running(op.g.runID, map[])), w.keys + [w.key], |c.rows|, [])
      else idle.(runs := c.runs)
    else if op.getRunFault then idle
    else idle.(proc := Some(Running(w.runs[|w.runs| - 1].id, map[])))
  }

  function Handled(lib: Lib, w: World, op: Op): World
    requires op.Handle? && w.proc.Some?
  {
    var p := Process(lib, w.rows, w.proc.value.runID, w.proc.value.tasks, w.key, op.e, op.f, op.supply, op.h);
    World(w.runs, p.rows, w.key, Some(w.proc.value.(tasks := p.tasks)),
          w.keys + (if p.stored.Some? then [w.key] else []) + (if p.completion.Some? then [w.key] else []),
          w.start,
          if p.stored.Some? && IsTracked(op.e) then w.log + [EntryOf(w, op, p)] else w.log)
  }

  function EntryOf(w: World, op: Op, p: Processed): Entry
    requires op.Handle?
  {
    Entry(op.e.body.taskID, op.e.body.taskState, |w.rows|, w.start, p.emitted, p.completion.Some?)
  }

  function Do(lib: Lib, w: World, op: Op): World
  {
    match op
    case Start(_, _, _, _, _) => Started(lib, w, op)
    case Handle(_, _, _, _) => if w.proc.Some? then Handled(lib, w, op) else w
    case Rotate(newKey, saved) => if saved then w.(key := newKey) else w
  }

  function Life(lib: Lib, key: Key, ops: seq<Op>): World
  {
    if |ops| == 0 then Empty(key) else Do(lib, Life(lib, key, ops[..|ops| - 1]), ops[|ops| - 1])
  }

  /** The ledger part of Worker.Start, on the objects: opens the run and makes a
      processor for it; null when Start reports an error. */
  method StartWorker(lib: Lib, db: DB, signer: Signer, op: Op) returns (p: EventProcessor?)
    requires op.Start?
    modifies db
    ensures var w := Started(lib, World(old(db.runs), old(db.rows), signer.key, None, [], 0, []), op);
            db.runs == w.runs && db.rows == w.rows && (p == null <==> w.proc.None?)
            && (p != null ==> fresh(p) && p.db == db && p.signer == signer
                              && w.proc == Some(Running(p.runID, p.taskStates)))
  {
    if op.hasRunsFault {
      return null;
    }
    if |db.runs| == 0 {
      var ok := CreateGenesisBlock(lib, db, signer, op.g, op.runFault, op.eventFault);
      if !ok {
        return null;
      }
      p := new EventProcessor(db, signer, op.g.runID);
    } else {
      if op.getRunFault {
        return null;
      }
      p := new EventProcessor(db, signer, db.runs[|db.runs| - 1].id);
    }
  }

  /** The objects hold what the world says. */
  ghost predicate Stores(w: World, db: DB, signer: Signer, p: EventProcessor?)
    reads db, signer, p
  {
    db.runs == w.runs && db.rows == w.rows && signer.key == w.key && (p == null <==> w.proc.None?)
    && (p != null ==> p.db == db && p.signer == signer && w.proc == Some(Running(p.runID, p.taskStates)))
  }

  lemma StartIgnoresHistory(lib: Lib, w: World, op: Op)
    requires op.Start?
    ensures var u, v := Started(lib, w, op), Started(lib, World(w.runs, w.rows, w.key, None, [], 0, []), op);
            u.runs == v.runs && u.rows == v.rows && u.proc == v.proc && u.key == w.key
  {
  }

  /** One operation on the objects. */
  method Perform(lib: Lib, ghost w: World, db: DB, signer: Signer, p: EventProcessor?, op: Op) returns (q: EventProcessor?)
    requires Stores(w, db, signer, p)
    modifies db, signer, p
    ensures Stores(Do(lib, w, op), db, signer, q) && (q == p || q == null || fresh(q))
  {
    q := p;
    match op {
      case Start(_, _, _, _, _) =>
        StartIgnoresHistory(lib, w, op);
        q := StartWorker(lib, db, signer, op);
      case Handle(e, f, supply, h) =>
        if p != null {
          var stored, emitted, completion := p.ProcessEvent(lib, e, f, supply, h);
        }
      case Rotate(newKey, saved) =>
        var keys := signer.RotateKey(lib, newKey, saved);
    }
  }

  /** A whole life on the objects: database, signer and processor end up as Life says. */
  method Live(lib: Lib, key: Key, ops: seq<Op>) returns (db: DB, signer: Signer, p: EventProcessor?)
    ensures Stores(Life(lib, key, ops), db, signer, p)
  {
    db := new DB();
    signer := new Signer(key);
    p := null;
    for i := 0 to |ops|
      invariant fresh(db) && fresh(signer) && (p != null ==> fresh(p))
      invariant Stores(Life(lib, key, ops[..i]), db, signer, p)
    {
      assert ops[..i + 1][..i] == ops[..i];
      p := Perform(lib, Life(lib, key, ops[..i]), db, signer, p, ops[i]);
    }
    assert ops[..|ops|] == ops;
  }

  // ---------------------------------------------------------------- what every life keeps

  predicate OneRun(lib: Lib, w: World)
  {
    |w.runs| <= 1
    && (|w.runs| == 0 ==> w.rows == [] && w.proc.None?)
    && (|w.runs| == 1 ==> w.runs[0].id != "" && InRun(w.rows, w.runs[0].id))
    && (w.proc.Some? ==> w.proc.value.runID == w.runs[0].id)
    && ValidChain(lib, w.rows, w.keys)
  }

  ghost predicate Tasks(w: World)
  {
    EmittedRight(w.log) && (w.proc.Some? ==> Agrees(w.proc.value.tasks, w.log))
  }

  lemma {:induction false} OfRunAll(rows: seq<Row>, run: string)
    requires InRun(rows, run)
    ensures OfRun(rows, run) == rows
  {
    if |rows| != 0 {
      OfRunAll(rows[..|rows| - 1], run);
    }
  }

  lemma FirstLink(lib: Lib, key: Key, e: Event)
    requires Lawful(lib) && e.seqIndex == 0 && e.seal.prevHash == ZeroHash() && Signed(lib, key, e).Some?
    ensures var r := RowOf(lib, Signed(lib, key, e).value);
            ValidChain(lib, [r], [key]) && r.runID == e.runID
  {
    SealedRow(lib, key, e);
    var r := RowOf(lib, Signed(lib, key, e).value);
    ExtendChain(lib, [], [], r, key);
    assert [] + [r] == [r] && [] + [key] == [key];
  }

  lemma GenesisKeeps(lib: Lib, key: Key, g: Genesis, runFault: bool, eventFault: bool)
    requires Lawful(lib)
    ensures var c := CreatedGenesis(lib, [], [], key, g, runFault, eventFault);
            |c.runs| <= 1 && (|c.runs| == 1 ==> c.runs[0].id == g.runID && g.runID != "")
            && (!c.ok ==> c.rows == [])
            && (c.ok ==> |c.runs| == 1 && |c.rows| == 1 && c.rows[0].runID == g.runID && ValidChain(lib, c.rows, [key]))
  {
    var e := GenesisEvent(lib, key, g);
    assert e.seqIndex == 0 && e.seal.prevHash == ZeroHash() && e.runID == g.runID;
    if Signed(lib, key, e).Some? {
      FirstLink(lib, key, e);
      var c, r := CreatedGenesis(lib, [], [], key, g, runFault, eventFault), RowOf(lib, Signed(lib, key, e).value);
      assert c.ok ==> c.rows == [r];
    }
  }

  /** The run record of a successful genesis matches the stored event: same hash, and a
      public key under which the event, read back, verifies. */
  lemma GenesisMatchesRecord(lib: Lib, key: Key, g: Genesis)
    requires Lawful(lib)
    ensures var c := CreatedGenesis(lib, [], [], key, g, false, false);
            c.ok ==> |c.runs| == 1 && |c.rows| == 1 && c.rows[0].body.eventType == "genesis"
                     && c.runs[0].genesisHash == c.rows[0].seal.currentHash
                     && VerifyEvent(lib, ReadRow(lib, c.rows[0]), c.runs[0].publicKey) == Pass
  {
    var e := GenesisEvent(lib, key, g);
    SealedRow(lib, key, e);
    if Signed(lib, key, e).Some? {
      var r := RowOf(lib, Signed(lib, key, e).value);
      SealedVerifies(lib, r, key);
      var c := CreatedGenesis(lib, [], [], key, g, false, false);
      assert c.ok ==> c.rows == [r];
    }
  }

  lemma SealedVerifies(lib: Lib, r: Row, key: Key)
    requires Lawful(lib) && SealedBy(lib, r, key)
    ensures VerifyEvent(lib, ReadRow(lib, r), lib.publicKey(key)) == Pass
  {
    HashOfValue(lib, ReadRow(lib, r));
  }

  lemma StartKeeps(lib: Lib, w: World, op: Op)
    requires Lawful(lib) && OneRun(lib, w) && op.Start?
    ensures OneRun(lib, Started(lib, w, op))
  {
    if !op.hasRunsFault && |w.runs| == 0 {
      GenesisKeeps(lib, w.key, op.g, op.runFault, op.eventFault);
      assert w.runs == [] && w.keys == [] && [] + [w.key] == [w.key];
    }
  }

  /** s is e, sealed and numbered. */
  predicate Fits(s: Event, e: Event, index: nat, run: string)
  {
    s == e.(seqIndex := index, runID := run, seal := s.seal)
  }

  /** Whether persisting e can succeed: no fault, a JSON form, and a new id. */
  predicate Storable(rows: seq<Row>, e: Event, f: Faults)
  {
    !f.stats && !f.last && !f.insert && Expressible(e) && e.id != "" && forall i :: 0 <= i < |rows| ==> rows[i].id != e.id
  }

  /** persistEvent in a ledger of one run. */
  lemma PersistInRun(lib: Lib, rows: seq<Row>, run: string, key: Key, e: Event, f: Faults, keys: seq<Key>)
    requires Lawful(lib) && run != "" && ValidChain(lib, rows, keys)
    requires InRun(rows, run)
    ensures var p := Persist(lib, rows, run, key, e, f);
            (p.event.Some? <==> Storable(rows, e, f)) && (p.event.None? ==> p.rows == rows)
            && (p.event.Some? ==> p.rows == rows + [RowOf(lib, p.event.value)] && Fits(p.event.value, e, |rows|, run))
            && ValidChain(lib, p.rows, if p.event.Some? then keys + [key] else keys)
            && InRun(p.rows, run)
  {
    OfRunAll(rows, run);
    PersistExtends(lib, rows, run, key, e, f, keys);
    OfRunAll(Persist(lib, rows, run, key, e, f).rows, run);
  }

  /** What processing one event comes to: its row if it can be stored, and after it its
      completion if one is due and can be stored. */
  predicate ProcessedInRun(lib: Lib, rows: seq<Row>, run: string, tasks: map<string, string>,
                           e: Event, f: Faults, n: Fresh, g: Faults, p: Processed)
  {
    (p.stored.Some? <==> Storable(rows, e, f))
    && (p.stored.None? ==> p.rows == rows && p.tasks == tasks && !p.emitted && p.completion.None?)
    && (p.emitted <==> p.stored.Some? && IsTracked(e) && Completes(tasks, e))
    && (p.completion.Some? <==>
          p.emitted && Storable(rows + [RowOf(lib, p.stored.value)], Completion(n, e.body.taskID, e.body.taskState), g))
    && (p.stored.Some? ==>
          Fits(p.stored.value, e, |rows|, run)
          && p.rows == rows + [RowOf(lib, p.stored.value)]
                       + (if p.completion.Some? then [RowOf(lib, p.completion.value)] else [])
          && p.tasks == if IsTracked(e) then Tracked(tasks, e) else tasks)
    && (p.completion.Some? ==>
          Fits(p.completion.value, Completion(n, e.body.taskID, e.body.taskState), |rows| + 1, run))
  }

  /** Processing one event: what is stored, where, and with which completion. */
  lemma ProcessInRun(lib: Lib, rows: seq<Row>, run: string, tasks: map<string, string>, key: Key,
                     e: Event, f: Faults, n: Fresh, g: Faults, keys: seq<Key>)
    requires Lawful(lib) && run != "" && ValidChain(lib, rows, keys)
    requires InRun(rows, run)
    ensures ProcessedInRun(lib, rows, run, tasks, e, f, n, g, Process(lib, rows, run, tasks, key, e, f, n, g))
    ensures var p := Process(lib, rows, run, tasks, key, e, f, n, g);
            ValidChain(lib, p.rows, keys + (if p.stored.Some? then [key] else []) + (if p.completion.Some? then [key] else []))
            && InRun(p.rows, run)
  {
    PersistInRun(lib, rows, run, key, e, f, keys);
    var p := Persist(lib, rows, run, key, e, f);
    if p.event.None? {
      assert keys + [] + [] == keys;
    } else {
      assert keys + [key] + [] == keys + [key];
      assert rows + [RowOf(lib, p.event.value)] + [] == p.rows;
      if IsTracked(e) && Completes(tasks, e) {
        PersistInRun(lib, p.rows, run, key, Completion(n, e.body.taskID, e.body.taskState), g, keys + [key]);
      }
    }
  }

  lemma HandleKeeps(lib: Lib, w: World, op: Op)
    requires Lawful(lib) && OneRun(lib, w) && op.Handle? && w.proc.Some?
    ensures OneRun(lib, Handled(lib, w, op))
  {
    ProcessInRun(lib, w.rows, w.proc.value.runID, w.proc.value.tasks, w.key, op.e, op.f, op.supply, op.h, w.keys);
  }

  lemma ProcessTracks(lib: Lib, w: World, op: Op)
    requires Lawful(lib) && OneRun(lib, w) && op.Handle? && w.proc.Some?
    ensures var w' := Handled(lib, w, op);
            var tasks := w.proc.value.tasks;
            w'.proc.Some?
            && ((w'.proc.value.tasks == tasks && w'.log == w.log)
                || (w'.proc.value.tasks == Tracked(tasks, op.e)
                    && |w'.log| == |w.log| + 1 && w'.log == w.log + [w'.log[|w.log|]]
                    && w'.log[|w.log|].task == op.e.body.taskID && w'.log[|w.log|].state == op.e.body.taskState
                    && w'.log[|w.log|].emitted == Completes(tasks, op.e)))
  {
    ProcessInRun(lib, w.rows, w.proc.value.runID, w.proc.value.tasks, w.key, op.e, op.f, op.supply, op.h, w.keys);
  }

  lemma TasksKept(lib: Lib, w: World, op: Op)
    requires Lawful(lib) && OneRun(lib, w) && Tasks(w)
    ensures Tasks(Do(lib, w, op))
  {
    if op.Handle? && w.proc.Some? {
      ProcessTracks(lib, w, op);
      var w' := Handled(lib, w, op);
      if w'.log != w.log {
        TrackKeepsAgreement(w.proc.value.tasks, w.log, op.e, w'.log[|w.log|]);
      }
    }
  }

  lemma DoKeeps(lib: Lib, w: World, op: Op)
    requires Lawful(lib) && OneRun(lib, w)
    ensures OneRun(lib, Do(lib, w, op))
  {
    if op.Start? {
      StartKeeps(lib, w, op);
    } else if op.Handle? && w.proc.Some? {
      HandleKeeps(lib, w, op);
    }
  }

  lemma {:induction false} LifeKeeps(lib: Lib, key: Key, ops: seq<Op>)
    requires Lawful(lib)
    ensures OneRun(lib, Life(lib, key, ops)) && Tasks(Life(lib, key, ops))
  {
    if |ops| != 0 {
      var w := Life(lib, key, ops[..|ops| - 1]);
      LifeKeeps(lib, key, ops[..|ops| - 1]);
      DoKeeps(lib, w, ops[|ops| - 1]);
      TasksKept(lib, w, ops[|ops| - 1]);
    }
  }
}
