/** The event processor: persisting events and following task states. */
module Processor {
  import opened Codec
  import opened Events
  import opened Store
  import opened Chain

  predicate IsTerminal(state: string)
  {
    state == "completed" || state == "failed" || state == "cancelled"
  }

  /** Reports on a task, whose state is followed. */
  predicate IsReportOn(b: Body)
  {
    (b.eventType == "tool_call" || b.eventType == "tool_response") && b.taskID != ""
  }

  predicate IsTracked(e: Event)
  {
    IsReportOn(e.body)
  }

  /** What the id generator, the clock and the event pool supply for a completion
      event; a pooled event's response is nil or a cleared map. */
  datatype Fresh = Fresh(id: string, time: Time, response: Fields)

  function CompletionBody(task: string, state: string): Body
  {
    Body("", "task_terminal", "logryph:task_state", task, state, "", "", "")
  }

  function Completion(n: Fresh, task: string, state: string): Event
  {
    Event(n.id, "", 0, n.time, CompletionBody(task, state),
          Some(map["task_id" := GoString(task), "state" := GoString(state)]), n.response, Seal("", "", ""))
  }

  /** The outcome of ProcessEvent. */
  datatype Processed = Processed(
    rows: seq<Row>, tasks: map<string, string>, stored: Option<Event>, emitted: bool, completion: Option<Event>)

  predicate Completes(tasks: map<string, string>, e: Event)
  {
    e.body.taskID in tasks && tasks[e.body.taskID] != e.body.taskState && IsTerminal(e.body.taskState)
  }

  function Tracked(tasks: map<string, string>, e: Event): map<string, string>
  {
    var tasks' := if Completes(tasks, e) then tasks - {e.body.taskID} else tasks;
    if IsTerminal(e.body.taskState) then tasks' else tasks'[e.body.taskID := e.body.taskState]
  }

  function Process(lib: Lib, rows: seq<Row>, run: string, tasks: map<string, string>, key: Key,
                   e: Event, f: Faults, n: Fresh, g: Faults): Processed
  {
    var p := Persist(lib, rows, run, key, e, f);
    if p.event.None? then Processed(p.rows, tasks, None, false, None)
    else if !IsTracked(e) then Processed(p.rows, tasks, p.event, false, None)
    else if Completes(tasks, e) then
      var q := Persist(lib, p.rows, run, key, Completion(n, e.body.taskID, e.body.taskState), g);
      Processed(q.rows, Tracked(tasks, e), p.event, true, q.event)
    else Processed(p.rows, Tracked(tasks, e), p.event, false, None)
  }

  // ---------------------------------------------------------------- the objects

  class Signer {
    var key: Key

    constructor (key: Key)
      ensures this.key == key
    {
      this.key := key;
    }

    /** newKey is what the key generator returns; saved says whether the key file was written. */
    method RotateKey(lib: Lib, newKey: Key, saved: bool) returns (keys: Option<(string, string)>)
      modifies this
      ensures key == if saved then newKey else old(key)
      ensures keys == if saved then Some((lib.publicKey(old(key)), lib.publicKey(newKey))) else None
    {
      var oldPub := lib.publicKey(key);
      if !saved {
        return None;
      }
      key := newKey;
      keys := Some((oldPub, lib.publicKey(key)));
    }

    method SignHash(lib: Lib, hash: string) returns (signature: string)
      ensures signature == lib.sign(key, hash)
    {
      signature := lib.sign(key, hash);
    }
  }

  class EventProcessor {
    const db: DB
    const signer: Signer
    const runID: string
    var taskStates: map<string, string>

    constructor (db: DB, signer: Signer, runID: string)
      ensures this.db == db && this.signer == signer && this.runID == runID && taskStates == map[]
    {
      this.db, this.signer, this.runID := db, signer, runID;
      taskStates := map[];
    }

    /** Assigns index and previous hash, hashes, signs and stores. */
    method PersistEvent(lib: Lib, event: Event, f: Faults) returns (stored: Option<Event>)
      modifies db`rows
      ensures Persisted(db.rows, stored) == Persist(lib, old(db.rows), runID, signer.key, event, f)
    {
      if f.stats || f.last {
        return None;
      }
      var e := event.(seqIndex := |OfRun(db.rows, runID)|, runID := runID);
      var lastIndex, lastHash := db.GetLastEvent(runID);
      if e.seqIndex == 0 {
        if lastHash != "" {
          return None;
        }
        e := e.(seal := e.seal.(prevHash := ZeroHash()));
      } else {
        if lastHash == "" {
          return None;
        }
        if e.seqIndex != lastIndex + 1 {
          return None;
        }
        e := e.(seal := e.seal.(prevHash := lastHash));
      }
      if e.seal.prevHash == "" {
        return None;
      }
      var hash := HashOf(lib, e);
      if hash.None? {
        return None;
      }
      var signature := signer.SignHash(lib, hash.value);
      e := e.(seal := Seal(e.seal.prevHash, hash.value, signature));
      var ok := db.StoreEvent(lib, e, f.insert);
      stored := if ok then Some(e) else None;
    }

    /** Follows the state of a task; emits a completion event when a followed task
        reports a terminal state. A completion that cannot be stored is given up. */
    method TrackTaskState(lib: Lib, event: Event, n: Fresh, g: Faults) returns (emitted: bool, completion: Option<Event>)
      modifies this`taskStates, db`rows
      ensures taskStates == Tracked(old(taskStates), event)
      ensures emitted == Completes(old(taskStates), event)
      ensures Persisted(db.rows, completion)
              == if emitted
                 then Persist(lib, old(db.rows), runID, signer.key, Completion(n, event.body.taskID, event.body.taskState), g)
                 else Persisted(old(db.rows), None)
    {
      emitted, completion := false, None;
      var task, state := event.body.taskID, event.body.taskState;
      if task in taskStates && taskStates[task] != state {
        if IsTerminal(state) {
          emitted := true;
          completion := PersistEvent(lib, Completion(n, task, state), g);
          taskStates := taskStates - {task};
        }
      }
      if !IsTerminal(state) {
        taskStates := taskStates[task := state];
      }
    }

    method ProcessEvent(lib: Lib, event: Event, f: Faults, n: Fresh, g: Faults)
      returns (stored: Option<Event>, emitted: bool, completion: Option<Event>)
      modifies this`taskStates, db`rows
      ensures Processed(db.rows, taskStates, stored, emitted, completion)
              == Process(lib, old(db.rows), runID, old(taskStates), signer.key, event, f, n, g)
    {
      emitted, completion := false, None;
      stored := PersistEvent(lib, event, f);
      if stored.None? {
        return;
      }
      if IsTracked(event) {
        emitted, completion := TrackTaskState(lib, event, n, g);
      }
    }
  }

  // ---------------------------------------------------------------- the task map agrees with the ledger

  /** One stored report: its task, its state, its row and the first row since the start,
      whether a completion was emitted and whether that was stored too. */
  datatype Entry = Entry(task: string, state: string, index: nat, from: nat, emitted: bool, completed: bool)

  /** The state last reported for a task. */
  function LastState(log: seq<Entry>, task: string): Option<string>
  {
    if |log| == 0 then None
    else if log[|log| - 1].task == task then Some(log[|log| - 1].state)
    else LastState(log[..|log| - 1], task)
  }

  predicate Open(log: seq<Entry>, task: string)
  {
    LastState(log, task).Some? && !IsTerminal(LastState(log, task).value)
  }

  /** The map holds, for exactly the tasks whose last reported state is not terminal, that state. */
  ghost predicate Agrees(tasks: map<string, string>, log: seq<Entry>)
  {
    forall t :: (t in tasks <==> Open(log, t)) && (t in tasks ==> Some(tasks[t]) == LastState(log, t))
  }

  /** A completion was emitted exactly for the terminal reports on open tasks. */
  predicate EmittedRight(log: seq<Entry>)
  {
    forall i :: 0 <= i < |log| ==>
      (log[i].emitted <==> IsTerminal(log[i].state) && Open(log[..i], log[i].task))
  }

  lemma TrackKeepsAgreement(tasks: map<string, string>, log: seq<Entry>, e: Event, entry: Entry)
    requires Agrees(tasks, log) && EmittedRight(log)
    requires entry.task == e.body.taskID && entry.state == e.body.taskState && entry.emitted == Completes(tasks, e)
    ensures Agrees(Tracked(tasks, e), log + [entry]) && EmittedRight(log + [entry])
  {
    var log' := log + [entry];
    assert log'[..|log|] == log;
    forall t
      ensures LastState(log', t) == if t == entry.task then Some(entry.state) else LastState(log, t)
    {
    }
    forall i | 0 <= i < |log'|
      ensures log'[i].emitted <==> IsTerminal(log'[i].state) && Open(log'[..i], log'[i].task)
    {
      if i < |log| {
        assert log'[..i] == log[..i];
      }
    }
  }

  lemma {:induction false} LastStateIndex(log: seq<Entry>, task: string) returns (k: nat)
    requires LastState(log, task).Some?
    ensures k < |log| && log[k].task == task && log[k].state == LastState(log, task).value
    ensures forall i :: k < i < |log| ==> log[i].task != task
  {
    if log[|log| - 1].task == task {
      k := |log| - 1;
    } else {
      k := LastStateIndex(log[..|log| - 1], task);
    }
  }

  /** Between two completions of one task there is a non-terminal report on that task. */
  lemma CompletionsSeparated(log: seq<Entry>, i: nat, j: nat)
    requires EmittedRight(log) && i < j < |log| && log[i].task == log[j].task && log[i].emitted && log[j].emitted
    ensures exists k :: i < k < j && log[k].task == log[i].task && !IsTerminal(log[k].state)
  {
    assert Open(log[..j], log[j].task) && IsTerminal(log[i].state);
    var k := LastStateIndex(log[..j], log[j].task);
    assert log[..j][i] == log[i];
    assert i < k < j && log[k].task == log[i].task && !IsTerminal(log[k].state);
  }
}
