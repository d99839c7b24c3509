/** The task map against the stored rows: what the processor keeps in memory is the replay
    of the reports stored since it started, and completions stand where they belong. */
module TaskRows {
  import opened Codec
  import opened Events
  import opened Store
  import opened Chain
  import opened Processor
  import opened Ledger

  // ---------------------------------------------------------------- reading the table

  /** The state last reported on a task by the rows from some row on. */
  function LastReported(rows: seq<Row>, from: nat, task: string): Option<string>
  {
    if |rows| <= from then None
    else
      var b := rows[|rows| - 1].body;
      if IsReportOn(b) && b.taskID == task then Some(b.taskState) else LastReported(rows[..|rows| - 1], from, task)
  }

  /** The task has been reported on, and not as finished. */
  predicate OpenTask(rows: seq<Row>, from: nat, task: string)
  {
    var s := LastReported(rows, from, task);
    s.Some? && !IsTerminal(s.value)
  }

  /** Where the reports are. */
  function ReportsIn(rows: seq<Row>, from: nat): seq<nat>
  {
    if |rows| <= from then []
    else ReportsIn(rows[..|rows| - 1], from) + (if IsReportOn(rows[|rows| - 1].body) then [|rows| - 1] else [])
  }

  /** Where the completions are. */
  function CompletionsIn(rows: seq<Row>, from: nat): seq<nat>
  {
    if |rows| <= from then []
    else
      CompletionsIn(rows[..|rows| - 1], from)
      + (if rows[|rows| - 1].body.eventType == "task_terminal" then [|rows| - 1] else [])
  }

  function Indices(log: seq<Entry>): seq<nat>
  {
    if |log| == 0 then [] else Indices(log[..|log| - 1]) + [log[|log| - 1].index]
  }

  /** Where the log says that completions were stored: right after their reports. */
  function Completed(log: seq<Entry>): seq<nat>
  {
    if |log| == 0 then []
    else Completed(log[..|log| - 1]) + (if log[|log| - 1].completed then [log[|log| - 1].index + 1] else [])
  }

  /** An entry is a row of the table, with its completion in the next row; a completion was
      emitted exactly for a terminal report on a task open in the rows since the start. */
  predicate EntryInRows(rows: seq<Row>, entry: Entry)
  {
    entry.from <= entry.index < |rows|
    && IsReportOn(rows[entry.index].body)
    && rows[entry.index].body.taskID == entry.task && rows[entry.index].body.taskState == entry.state
    && (entry.completed ==>
          entry.emitted && entry.index + 1 < |rows| && rows[entry.index + 1].body == CompletionBody(entry.task, entry.state))
    && (entry.emitted <==> IsTerminal(entry.state) && OpenTask(rows[..entry.index], entry.from, entry.task))
  }

  /** The entries stand for all reports in the table. */
  predicate Stands(rows: seq<Row>, log: seq<Entry>)
  {
    Indices(log) == ReportsIn(rows, 0) && forall i :: 0 <= i < |log| ==> EntryInRows(rows, log[i])
  }

  ghost predicate SameStates(rows: seq<Row>, from: nat, log: seq<Entry>)
  {
    from <= |rows| && forall t :: LastState(log, t) == LastReported(rows, from, t)
  }

  // ---------------------------------------------------------------- one row more

  lemma OneRowMore(rows: seq<Row>, r: Row, from: nat)
    requires from <= |rows|
    ensures ReportsIn(rows + [r], from) == ReportsIn(rows, from) + (if IsReportOn(r.body) then [|rows|] else [])
    ensures CompletionsIn(rows + [r], from)
            == CompletionsIn(rows, from) + (if r.body.eventType == "task_terminal" then [|rows|] else [])
    ensures forall t :: LastReported(rows + [r], from, t)
                        == if IsReportOn(r.body) && r.body.taskID == t then Some(r.body.taskState)
                           else LastReported(rows, from, t)
  {
    assert (rows + [r])[..|rows|] == rows;
  }

  lemma EntryStays(rows: seq<Row>, r: Row, entry: Entry)
    requires EntryInRows(rows, entry)
    ensures EntryInRows(rows + [r], entry)
  {
    assert (rows + [r])[..entry.index] == rows[..entry.index];
  }

  lemma EntriesStay(rows: seq<Row>, r: Row, log: seq<Entry>)
    requires forall i :: 0 <= i < |log| ==> EntryInRows(rows, log[i])
    ensures forall i :: 0 <= i < |log| ==> EntryInRows(rows + [r], log[i])
  {
    forall i | 0 <= i < |log|
      ensures EntryInRows(rows + [r], log[i])
    {
      EntryStays(rows, r, log[i]);
    }
  }

  lemma LogOneMore(log: seq<Entry>, entry: Entry)
    ensures Indices(log + [entry]) == Indices(log) + [entry.index]
    ensures Completed(log + [entry]) == Completed(log) + (if entry.completed then [entry.index + 1] else [])
    ensures forall t :: LastState(log + [entry], t) == if t == entry.task then Some(entry.state) else LastState(log, t)
  {
    assert (log + [entry])[..|log|] == log;
  }

  lemma OtherRowAdded(rows: seq<Row>, log: seq<Entry>, r: Row)
    requires Stands(rows, log) && !IsReportOn(r.body)
    ensures Stands(rows + [r], log)
  {
    OneRowMore(rows, r, 0);
    EntriesStay(rows, r, log);
  }

  lemma ReportAdded(rows: seq<Row>, log: seq<Entry>, r: Row, entry: Entry)
    requires Stands(rows, log) && IsReportOn(r.body) && entry.index == |rows| && entry.from <= |rows| && !entry.completed
    requires entry.task == r.body.taskID && entry.state == r.body.taskState
    requires entry.emitted <==> IsTerminal(entry.state) && OpenTask(rows, entry.from, entry.task)
    ensures Stands(rows + [r], log + [entry])
  {
    OneRowMore(rows, r, 0);
    LogOneMore(log, entry);
    EntriesStay(rows, r, log);
    assert (rows + [r])[..|rows|] == rows;
    assert EntryInRows(rows + [r], entry);
  }

  lemma CompletionAdded(rows: seq<Row>, log: seq<Entry>, entry: Entry, c: Row)
    requires Stands(rows, log + [entry]) && entry.index + 1 == |rows| && entry.emitted
    requires c.body == CompletionBody(entry.task, entry.state)
    ensures Stands(rows + [c], log + [entry.(completed := true)])
  {
    var all, done := log + [entry], entry.(completed := true);
    OtherRowAdded(rows, all, c);
    LogOneMore(log, entry);
    LogOneMore(log, done);
    assert all[|log|] == entry && EntryInRows(rows + [c], entry);
    forall i | 0 <= i < |log + [done]|
      ensures EntryInRows(rows + [c], (log + [done])[i])
    {
      if i < |log| {
        assert all[i] == log[i];
      }
    }
  }

  // ---------------------------------------------------------------- one operation

  /** What handling an event adds: nothing, its row, or its row and a completion. */
  predicate Adds(w: World, w': World, op: Op, added: seq<Row>)
    requires op.Handle? && w.proc.Some?
  {
    var b := op.e.body;
    w'.rows == w.rows + added && w'.start == w.start && |added| <= 2
    && (|added| == 0 ==> w'.log == w.log)
    && (|added| >= 1 ==> added[0].body == b)
    && (|added| >= 1 && !IsReportOn(b) ==> |added| == 1 && w'.log == w.log)
    && (|added| >= 1 && IsReportOn(b) ==>
          w'.log == w.log + [Entry(b.taskID, b.taskState, |w.rows|, w.start, Completes(w.proc.value.tasks, op.e), |added| == 2)])
    && (|added| == 2 ==> Completes(w.proc.value.tasks, op.e) && added[1].body == CompletionBody(b.taskID, b.taskState))
  }

  function AddedRows(lib: Lib, p: Processed): seq<Row>
  {
    if p.stored.None? then []
    else if p.completion.None? then [RowOf(lib, p.stored.value)]
    else [RowOf(lib, p.stored.value), RowOf(lib, p.completion.value)]
  }

  /** p is what processing the event of op comes to in w. */
  predicate Comes(lib: Lib, w: World, op: Op, p: Processed)
    requires op.Handle? && w.proc.Some?
  {
    ProcessedInRun(lib, w.rows, w.proc.value.runID, w.proc.value.tasks, op.e, op.f, op.supply, op.h, p)
  }

  lemma ProcessAdds(lib: Lib, w: World, op: Op, p: Processed)
    requires Lawful(lib) && OneRun(lib, w) && op.Handle? && w.proc.Some?
    requires var proc := w.proc.value;
             p == Process(lib, w.rows, proc.runID, proc.tasks, w.key, op.e, op.f, op.supply, op.h)
    ensures Comes(lib, w, op, p) && p.rows == w.rows + AddedRows(lib, p)
  {
    var proc := w.proc.value;
    ProcessInRun(lib, w.rows, proc.runID, proc.tasks, w.key, op.e, op.f, op.supply, op.h, w.keys);
    RowsAre(lib, w, op, p);
  }

  lemma RowsAre(lib: Lib, w: World, op: Op, p: Processed)
    requires op.Handle? && w.proc.Some? && Comes(lib, w, op, p)
    ensures p.rows == w.rows + AddedRows(lib, p)
  {
  }

  lemma HandleAdds(lib: Lib, w: World, op: Op) returns (added: seq<Row>)
    requires Lawful(lib) && OneRun(lib, w) && op.Handle? && w.proc.Some?
    ensures Adds(w, Handled(lib, w, op), op, added)
  {
    var proc := w.proc.value;
    var p := Process(lib, w.rows, proc.runID, proc.tasks, w.key, op.e, op.f, op.supply, op.h);
    ProcessAdds(lib, w, op, p);
    added := AddedRows(lib, p);
    HandledAdds(lib, w, Handled(lib, w, op), op, p);
  }

  lemma HandledAdds(lib: Lib, w: World, w': World, op: Op, p: Processed)
    requires op.Handle? && w.proc.Some?
    requires w'.rows == p.rows == w.rows + AddedRows(lib, p) && w'.start == w.start
    requires w'.log == if p.stored.Some? && IsTracked(op.e) then w.log + [EntryOf(w, op, p)] else w.log
    requires Comes(lib, w, op, p)
    ensures Adds(w, w', op, AddedRows(lib, p))
  {
  }

  lemma CompletesIfOpen(tasks: map<string, string>, rows: seq<Row>, from: nat, log: seq<Entry>, e: Event)
    requires Agrees(tasks, log) && SameStates(rows, from, log)
    ensures Completes(tasks, e) <==> IsTerminal(e.body.taskState) && OpenTask(rows, from, e.body.taskID)
  {
    assert LastState(log, e.body.taskID) == LastReported(rows, from, e.body.taskID);
    assert e.body.taskID in tasks <==> Open(log, e.body.taskID);
  }

  /** The states in the log and in the rows since the start stay the same. */
  lemma StatesKeptByHandle(w: World, w': World, op: Op, added: seq<Row>)
    requires op.Handle? && w.proc.Some? && Adds(w, w', op, added) && SameStates(w.rows, w.start, w.log)
    ensures SameStates(w'.rows, w'.start, w'.log)
  {
    if |added| == 0 {
      assert w'.rows == w.rows;
    } else {
      OneRowMore(w.rows, added[0], w.start);
      if |added| == 2 {
        OneRowMore(w.rows + [added[0]], added[1], w.start);
        assert w.rows + added == w.rows + [added[0]] + [added[1]];
      } else {
        assert added == [added[0]];
      }
      if w'.log != w.log {
        LogOneMore(w.log, w'.log[|w.log|]);
      }
    }
  }

  lemma StatesKept(lib: Lib, w: World, op: Op)
    requires Lawful(lib) && OneRun(lib, w) && SameStates(w.rows, w.start, w.log)
    ensures var w' := Do(lib, w, op); SameStates(w'.rows, w'.start, w'.log)
  {
    if op.Handle? && w.proc.Some? {
      var added := HandleAdds(lib, w, op);
      StatesKeptByHandle(w, Handled(lib, w, op), op, added);
    } else if op.Start? {
      StartsEmpty(lib, w, op);
    }
  }

  lemma StartsEmpty(lib: Lib, w: World, op: Op)
    requires op.Start?
    ensures var w' := Started(lib, w, op); w'.log == [] && w'.start == |w'.rows|
  {
  }

  lemma {:induction false} LifeStates(lib: Lib, key: Key, ops: seq<Op>)
    requires Lawful(lib)
    ensures var w := Life(lib, key, ops); SameStates(w.rows, w.start, w.log)
  {
    if |ops| != 0 {
      LifeStates(lib, key, ops[..|ops| - 1]);
      LifeKeeps(lib, key, ops[..|ops| - 1]);
      StatesKept(lib, Life(lib, key, ops[..|ops| - 1]), ops[|ops| - 1]);
    }
  }

  // ---------------------------------------------------------------- the whole history

  /** The entries of all starts, one after the other. */
  function History(lib: Lib, key: Key, ops: seq<Op>): seq<Entry>
  {
    if |ops| == 0 then []
    else History(lib, key, ops[..|ops| - 1]) + NewEntries(lib, Life(lib, key, ops[..|ops| - 1]), ops[|ops| - 1])
  }

  function NewEntries(lib: Lib, w: World, op: Op): seq<Entry>
  {
    if op.Handle? && w.proc.Some? && |Handled(lib, w, op).log| > |w.log| then Handled(lib, w, op).log[|w.log|..] else []
  }

  lemma NewEntriesAre(lib: Lib, w: World, op: Op, added: seq<Row>)
    requires op.Handle? && w.proc.Some? && Adds(w, Handled(lib, w, op), op, added)
    ensures NewEntries(lib, w, op)
            == if |added| >= 1 && IsReportOn(op.e.body)
               then [Entry(op.e.body.taskID, op.e.body.taskState, |w.rows|, w.start, Completes(w.proc.value.tasks, op.e), |added| == 2)]
               else []
  {
  }

  lemma ReportStands(w: World, op: Op, added: seq<Row>, log: seq<Entry>)
    requires op.Handle? && w.proc.Some? && IsReportOn(op.e.body) && 1 <= |added| <= 2 && added[0].body == op.e.body
    requires |added| == 2 ==> Completes(w.proc.value.tasks, op.e)
                              && added[1].body == CompletionBody(op.e.body.taskID, op.e.body.taskState)
    requires SameStates(w.rows, w.start, w.log) && Agrees(w.proc.value.tasks, w.log) && Stands(w.rows, log)
    ensures Stands(w.rows + added,
                   log + [Entry(op.e.body.taskID, op.e.body.taskState, |w.rows|, w.start, Completes(w.proc.value.tasks, op.e), |added| == 2)])
  {
    var b := op.e.body;
    CompletesIfOpen(w.proc.value.tasks, w.rows, w.start, w.log, op.e);
    var entry := Entry(b.taskID, b.taskState, |w.rows|, w.start, Completes(w.proc.value.tasks, op.e), false);
    ReportAdded(w.rows, log, added[0], entry);
    if |added| == 1 {
      assert added == [added[0]];
    } else {
      CompletionAdded(w.rows + [added[0]], log, entry, added[1]);
      assert w.rows + added == w.rows + [added[0]] + [added[1]];
    }
  }

  lemma HandleStands(lib: Lib, w: World, op: Op, log: seq<Entry>)
    requires Lawful(lib) && OneRun(lib, w) && Tasks(w) && SameStates(w.rows, w.start, w.log) && Stands(w.rows, log)
    requires op.Handle? && w.proc.Some?
    ensures Stands(Handled(lib, w, op).rows, log + NewEntries(lib, w, op))
  {
    var added := HandleAdds(lib, w, op);
    NewEntriesAre(lib, w, op, added);
    if |added| == 0 {
      assert w.rows + added == w.rows && log + [] == log;
    } else if IsReportOn(op.e.body) {
      ReportStands(w, op, added, log);
    } else {
      OtherRowAdded(w.rows, log, added[0]);
      assert added == [added[0]] && log + [] == log;
    }
  }

  /** A start adds at most the genesis row. */
  lemma StartAdds(lib: Lib, w: World, op: Op)
    requires op.Start?
    ensures var rows := Started(lib, w, op).rows;
            rows == w.rows || (|rows| == |w.rows| + 1 && rows == w.rows + [rows[|w.rows|]] && rows[|w.rows|].body.eventType == "genesis")
  {
  }

  lemma {:induction false} HistoryStands(lib: Lib, key: Key, ops: seq<Op>)
    requires Lawful(lib)
    ensures Stands(Life(lib, key, ops).rows, History(lib, key, ops))
  {
    if |ops| != 0 {
      var init, op := ops[..|ops| - 1], ops[|ops| - 1];
      var w, log := Life(lib, key, init), History(lib, key, init);
      HistoryStands(lib, key, init);
      LifeKeeps(lib, key, init);
      LifeStates(lib, key, init);
      StandsStep(lib, w, op, log);
    }
  }

  lemma StandsStep(lib: Lib, w: World, op: Op, log: seq<Entry>)
    requires Lawful(lib) && OneRun(lib, w) && Tasks(w) && SameStates(w.rows, w.start, w.log) && Stands(w.rows, log)
    ensures Stands(Do(lib, w, op).rows, log + NewEntries(lib, w, op))
  {
    if op.Handle? && w.proc.Some? {
      HandleStands(lib, w, op, log);
    } else {
      assert log + [] == log;
      if op.Start? {
        StartAdds(lib, w, op);
        var rows := Started(lib, w, op).rows;
        if rows != w.rows {
          OtherRowAdded(w.rows, log, rows[|w.rows|]);
        }
      }
    }
  }

  // ---------------------------------------------------------------- theorems

  /** The task map is the replay of the reports stored since the last start: it holds a
      task exactly when the last stored report on it is not terminal, with that state. */
  lemma {:induction false} TaskMapIsReplay(lib: Lib, key: Key, ops: seq<Op>)
    requires Lawful(lib)
    ensures var w := Life(lib, key, ops);
            w.proc.Some? ==>
              forall t :: (t in w.proc.value.tasks <==> OpenTask(w.rows, w.start, t))
                          && (t in w.proc.value.tasks ==> Some(w.proc.value.tasks[t]) == LastReported(w.rows, w.start, t))
  {
    LifeKeeps(lib, key, ops);
    LifeStates(lib, key, ops);
    var w := Life(lib, key, ops);
    if w.proc.Some? {
      forall t
        ensures LastState(w.log, t) == LastReported(w.rows, w.start, t)
      {
      }
    }
  }

  /** No event handed to the ledger poses as a completion. */
  predicate NoForeign(ops: seq<Op>)
  {
    forall i :: 0 <= i < |ops| ==> ops[i].Handle? ==> ops[i].e.body.eventType != "task_terminal"
  }

  lemma RowsCompletions(rows: seq<Row>, added: seq<Row>)
    requires |added| <= 2 && (|added| >= 1 ==> added[0].body.eventType != "task_terminal")
    requires |added| == 2 ==> added[1].body.eventType == "task_terminal"
    ensures CompletionsIn(rows + added, 0) == CompletionsIn(rows, 0) + (if |added| == 2 then [|rows| + 1] else [])
  {
    if |added| == 0 {
      assert rows + added == rows;
    } else {
      OneRowMore(rows, added[0], 0);
      if |added| == 1 {
        assert added == [added[0]];
      } else {
        OneRowMore(rows + [added[0]], added[1], 0);
        assert rows + added == rows + [added[0]] + [added[1]];
      }
    }
  }

  lemma LogCompletions(log: seq<Entry>, entries: seq<Entry>)
    requires |entries| <= 1
    ensures Completed(log + entries)
            == Completed(log) + (if |entries| == 1 && entries[0].completed then [entries[0].index + 1] else [])
  {
    if |entries| == 0 {
      assert log + entries == log;
    } else {
      LogOneMore(log, entries[0]);
      assert entries == [entries[0]];
    }
  }

  lemma CompletionsKeptByHandle(lib: Lib, w: World, op: Op, added: seq<Row>, log: seq<Entry>)
    requires op.Handle? && w.proc.Some? && Adds(w, Handled(lib, w, op), op, added) && op.e.body.eventType != "task_terminal"
    requires CompletionsIn(w.rows, 0) == Completed(log)
    ensures CompletionsIn(w.rows + added, 0) == Completed(log + NewEntries(lib, w, op))
  {
    NewEntriesAre(lib, w, op, added);
    RowsCompletions(w.rows, added);
    LogCompletions(log, NewEntries(lib, w, op));
  }

  lemma CompletionsKept(lib: Lib, w: World, op: Op, log: seq<Entry>)
    requires Lawful(lib) && OneRun(lib, w) && CompletionsIn(w.rows, 0) == Completed(log)
    requires op.Handle? ==> op.e.body.eventType != "task_terminal"
    ensures CompletionsIn(Do(lib, w, op).rows, 0) == Completed(log + NewEntries(lib, w, op))
  {
    if op.Handle? && w.proc.Some? {
      var added := HandleAdds(lib, w, op);
      CompletionsKeptByHandle(lib, w, op, added, log);
    } else {
      assert log + [] == log;
      if op.Start? {
        StartAdds(lib, w, op);
        var rows := Started(lib, w, op).rows;
        if rows != w.rows {
          OneRowMore(w.rows, rows[|w.rows|], 0);
        }
      }
    }
  }

  /** The whole table against the history of reports, over all starts: the reports in the
      table are exactly the entries, in order; a completion was emitted exactly for a
      terminal report on a task that was open in the rows since the start; and the
      completions in the table are exactly those that were emitted and stored, each in the
      row after its report. */
  lemma {:induction false} CompletionsInPlace(lib: Lib, key: Key, ops: seq<Op>)
    requires Lawful(lib) && NoForeign(ops)
    ensures var rows, log := Life(lib, key, ops).rows, History(lib, key, ops);
            Stands(rows, log) && CompletionsIn(rows, 0) == Completed(log)
  {
    HistoryStands(lib, key, ops);
    if |ops| != 0 {
      var init := ops[..|ops| - 1];
      assert ops[|ops| - 1].Handle? ==> ops[|ops| - 1].e.body.eventType != "task_terminal";
      CompletionsInPlace(lib, key, init);
      LifeKeeps(lib, key, init);
      CompletionsKept(lib, Life(lib, key, init), ops[|ops| - 1], History(lib, key, init));
    }
  }

  lemma {:induction false} CompletedMember(log: seq<Entry>, j: nat) returns (i: nat)
    requires j in Completed(log)
    ensures i < |log| && log[i].completed && log[i].index + 1 == j
  {
    var n := |log| - 1;
    if j in Completed(log[..n]) {
      i := CompletedMember(log[..n], j);
    } else {
      i := n;
    }
  }

  lemma {:induction false} CompletionMember(rows: seq<Row>, from: nat, j: nat)
    requires from <= j < |rows| && rows[j].body.eventType == "task_terminal"
    ensures j in CompletionsIn(rows, from)
  {
    if j < |rows| - 1 {
      CompletionMember(rows[..|rows| - 1], from, j);
    }
  }

  /** Where the report is that leaves a task open: no later one is on that task. */
  lemma {:induction false} OpenedBy(rows: seq<Row>, from: nat, task: string) returns (m: nat)
    requires LastReported(rows, from, task).Some?
    ensures from <= m < |rows| && IsReportOn(rows[m].body) && rows[m].body.taskID == task
            && rows[m].body.taskState == LastReported(rows, from, task).value
    ensures forall k :: m < k < |rows| ==> !(IsReportOn(rows[k].body) && rows[k].body.taskID == task)
  {
    var n := |rows| - 1;
    if IsReportOn(rows[n].body) && rows[n].body.taskID == task {
      m := n;
    } else {
      m := OpenedBy(rows[..n], from, task);
      assert forall k :: 0 <= k < n ==> rows[..n][k] == rows[k];
    }
  }

  /** A completion in the table stands after a terminal report on its task, which was open:
      after its last non-terminal report came no other before that one. */
  lemma CompletionEntry(rows: seq<Row>, log: seq<Entry>, k: nat) returns (m: nat)
    requires Stands(rows, log) && CompletionsIn(rows, 0) == Completed(log)
    requires k < |rows| && rows[k].body.eventType == "task_terminal"
    ensures m < k - 1 && IsReportOn(rows[k - 1].body) && rows[k - 1].body.taskID == rows[k].body.taskID
            && IsTerminal(rows[k - 1].body.taskState)
    ensures IsReportOn(rows[m].body) && rows[m].body.taskID == rows[k].body.taskID && !IsTerminal(rows[m].body.taskState)
    ensures forall i :: m < i < k - 1 ==> !(IsReportOn(rows[i].body) && rows[i].body.taskID == rows[k].body.taskID)
  {
    CompletionMember(rows, 0, k);
    var a := CompletedMember(log, k);
    assert EntryInRows(rows, log[a]);
    m := OpenedBy(rows[..k - 1], log[a].from, log[a].task);
    assert forall i :: 0 <= i < k - 1 ==> rows[..k - 1][i] == rows[i];
  }

  /** Two completions of one task, wherever in the table and whatever restarts lie between
      them, have a non-terminal report on that task between them. */
  lemma {:induction false} CompletionRowsSeparated(lib: Lib, key: Key, ops: seq<Op>, j: nat, k: nat)
    requires Lawful(lib) && NoForeign(ops)
    requires var rows := Life(lib, key, ops).rows;
             j < k < |rows| && rows[j].body.eventType == rows[k].body.eventType == "task_terminal"
             && rows[j].body.taskID == rows[k].body.taskID
    ensures var rows := Life(lib, key, ops).rows;
            exists m :: j < m < k && IsReportOn(rows[m].body) && rows[m].body.taskID == rows[j].body.taskID
                        && !IsTerminal(rows[m].body.taskState)
  {
    CompletionsInPlace(lib, key, ops);
    SeparatedIn(Life(lib, key, ops).rows, History(lib, key, ops), j, k);
  }

  lemma SeparatedIn(rows: seq<Row>, log: seq<Entry>, j: nat, k: nat)
    requires Stands(rows, log) && CompletionsIn(rows, 0) == Completed(log)
    requires j < k < |rows| && rows[j].body.eventType == rows[k].body.eventType == "task_terminal"
    requires rows[j].body.taskID == rows[k].body.taskID
    ensures exists m :: j < m < k && IsReportOn(rows[m].body) && rows[m].body.taskID == rows[j].body.taskID
                        && !IsTerminal(rows[m].body.taskState)
  {
    var l := CompletionEntry(rows, log, j);
    var m := CompletionEntry(rows, log, k);
    assert m != j - 1 && m != j && j - 1 < k - 1;
    assert j < m < k;
  }

  // ---------------------------------------------------------------- states and types by name

  /** Row m is a tool call or response on the task, in a state that is not final, and the
      rows after it hold no other on that task. */
  predicate LeftOpen(rows: seq<Row>, from: nat, task: string, m: nat)
  {
    from <= m < |rows| && task != "" && ToolEventOn(rows[m].body, task)
    && rows[m].body.taskState !in {"completed", "failed", "cancelled"}
    && forall k :: m < k < |rows| ==> !ToolEventOn(rows[k].body, task)
  }

  predicate ToolEventOn(b: Body, task: string)
  {
    b.eventType in {"tool_call", "tool_response"} && b.taskID == task
  }

  lemma {:induction false} LastReportedIs(rows: seq<Row>, from: nat, task: string, m: nat)
    requires LeftOpen(rows, from, task, m)
    ensures LastReported(rows, from, task) == Some(rows[m].body.taskState)
  {
    var n := |rows| - 1;
    if m < n {
      assert !ToolEventOn(rows[n].body, task);
      assert forall k :: 0 <= k < n ==> rows[..n][k] == rows[k];
      LastReportedIs(rows[..n], from, task, m);
    }
  }

  lemma OpenByName(rows: seq<Row>, from: nat, task: string)
    ensures OpenTask(rows, from, task) <==> exists m: nat :: LeftOpen(rows, from, task, m)
    ensures OpenTask(rows, from, task) ==>
              exists m: nat :: LeftOpen(rows, from, task, m)
                               && LastReported(rows, from, task) == Some(rows[m].body.taskState)
  {
    if OpenTask(rows, from, task) {
      var m := OpenedBy(rows, from, task);
      assert LeftOpen(rows, from, task, m);
    }
    if m: nat :| LeftOpen(rows, from, task, m) {
      LastReportedIs(rows, from, task, m);
    }
  }

  /** The task map, by name: it holds exactly the tasks that a stored tool event has left
      open since the start, with the state that event reported. */
  lemma {:induction false} TaskMapByName(lib: Lib, key: Key, ops: seq<Op>, task: string)
    requires Lawful(lib) && Life(lib, key, ops).proc.Some?
    ensures var w := Life(lib, key, ops);
            (task in w.proc.value.tasks <==> exists m: nat :: LeftOpen(w.rows, w.start, task, m))
            && (task in w.proc.value.tasks ==>
                  exists m: nat :: LeftOpen(w.rows, w.start, task, m) && w.proc.value.tasks[task] == w.rows[m].body.taskState)
  {
    TaskMapIsReplay(lib, key, ops);
    var w := Life(lib, key, ops);
    OpenByName(w.rows, w.start, task);
  }

  /** What a stored completion tells a reader. */
  predicate TellsCompletion(lib: Lib, r: Row, task: string, state: string)
  {
    r.body.eventType == "task_terminal" && r.body.methodName == "logryph:task_state"
    && r.body.taskID == task && r.body.taskState == state
    && Normal(lib.format, Value(ReadRow(lib, r).params)) == JObject(map["task_id" := JString(task), "state" := JString(state)])
  }

  lemma CompletionParams(lib: Lib, task: string, state: string)
    ensures var m := map["task_id" := GoString(task), "state" := GoString(state)];
            Normal(lib.format, GoMap(m)) == JObject(map["task_id" := JString(task), "state" := JString(state)])
  {
    var m := map["task_id" := GoString(task), "state" := GoString(state)];
    NormalKeys(lib, m);
    NormalAt(lib, m, "task_id");
    NormalAt(lib, m, "state");
    assert Normal(lib.format, GoMap(m)).m == map["task_id" := JString(task), "state" := JString(state)];
  }

  lemma CompletionTells(lib: Lib, c: Event, n: Fresh, task: string, state: string, index: nat, run: string)
    requires Lawful(lib) && Fits(c, Completion(n, task, state), index, run) && Expressible(c)
    ensures TellsCompletion(lib, RowOf(lib, c), task, state)
  {
    StoreRoundTrip(lib, c);
    CompletionParams(lib, task, state);
  }

  /** Completions by name: a stored event is followed by a completion exactly when it is a
      tool call or response with state "completed", "failed" or "cancelled" on a task left
      open since the start, and the completion can be stored; the completion carries that
      task and that state. */
  lemma {:induction false} CompletedExactly(lib: Lib, key: Key, ops: seq<Op>, e: Event, f: Faults, n: Fresh, h: Faults)
    requires Lawful(lib)
    requires var w := Life(lib, key, ops); w.proc.Some? && Storable(w.rows, e, f)
    ensures var w := Life(lib, key, ops);
            var rows, k, b := Do(lib, w, Handle(e, f, n, h)).rows, |w.rows|, e.body;
            k < |rows| <= k + 2 && rows[..k] == w.rows && rows[k].body == b
            && (|rows| == k + 2 <==>
                  b.eventType in {"tool_call", "tool_response"} && b.taskState in {"completed", "failed", "cancelled"}
                  && (exists m: nat :: LeftOpen(w.rows, w.start, b.taskID, m))
                  && Storable(rows[..k + 1], Completion(n, b.taskID, b.taskState), h))
            && (|rows| == k + 2 ==> TellsCompletion(lib, rows[k + 1], b.taskID, b.taskState))
  {
    LifeKeeps(lib, key, ops);
    LifeStates(lib, key, ops);
    CompletedFrom(lib, Life(lib, key, ops), e, f, n, h);
  }

  lemma CompletedFrom(lib: Lib, w: World, e: Event, f: Faults, n: Fresh, h: Faults)
    requires Lawful(lib) && OneRun(lib, w) && w.proc.Some? && Storable(w.rows, e, f)
    requires Agrees(w.proc.value.tasks, w.log) && SameStates(w.rows, w.start, w.log)
    ensures var rows, k, b := Do(lib, w, Handle(e, f, n, h)).rows, |w.rows|, e.body;
            k < |rows| <= k + 2 && rows[..k] == w.rows && rows[k].body == b
            && (|rows| == k + 2 <==>
                  b.eventType in {"tool_call", "tool_response"} && b.taskState in {"completed", "failed", "cancelled"}
                  && (exists m: nat :: LeftOpen(w.rows, w.start, b.taskID, m))
                  && Storable(rows[..k + 1], Completion(n, b.taskID, b.taskState), h))
            && (|rows| == k + 2 ==> TellsCompletion(lib, rows[k + 1], b.taskID, b.taskState))
  {
    var op, proc, b := Handle(e, f, n, h), w.proc.value, e.body;
    var p := Process(lib, w.rows, proc.runID, proc.tasks, w.key, e, f, n, h);
    ProcessAdds(lib, w, op, p);
    CompletesIfOpen(proc.tasks, w.rows, w.start, w.log, e);
    OpenByName(w.rows, w.start, b.taskID);
    TwoRows(lib, w, op, p);
  }

  lemma TwoRows(lib: Lib, w: World, op: Op, p: Processed)
    requires Lawful(lib) && op.Handle? && w.proc.Some? && Comes(lib, w, op, p) && Storable(w.rows, op.e, op.f)
    ensures var rows, k, b := w.rows + AddedRows(lib, p), |w.rows|, op.e.body;
            k < |rows| <= k + 2 && rows[..k] == w.rows && rows[k].body == b
            && rows[..k + 1] == w.rows + [RowOf(lib, p.stored.value)]
            && (|rows| == k + 2 <==> p.completion.Some?)
            && (|rows| == k + 2 ==> TellsCompletion(lib, rows[k + 1], b.taskID, b.taskState))
  {
    var b := op.e.body;
    if p.completion.Some? {
      CompletionTells(lib, p.completion.value, op.supply, b.taskID, b.taskState, |w.rows| + 1, w.proc.value.runID);
    }
  }
}
