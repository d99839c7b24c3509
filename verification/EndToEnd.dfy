/** From Submit to the audit: the worker's schedule and the ledger's life joined. */
module EndToEnd {
  import opened Codec
  import opened Events
  import opened Store
  import opened Chain
  import opened Processor
  import opened Audit
  import opened Ledger
  import opened LedgerTheorems
  import TaskRows
  import Worker
  import WorkerTheorems

  /** One call of ProcessEvent: the event, the faults it meets, and what its completion gets. */
  datatype Work = Work(e: Event, f: Faults, supply: Fresh, h: Faults)

  /** The life of a ledger that is started and then handed these events one after the other. */
  function Ops(start: Op, works: seq<Work>): (ops: seq<Op>)
    ensures |ops| == |works| + 1 && ops[0] == start
    ensures forall i :: 0 <= i < |works| ==> ops[i + 1] == Handle(works[i].e, works[i].f, works[i].supply, works[i].h)
  {
    [start] + seq(|works|, i requires 0 <= i < |works| => Handle(works[i].e, works[i].f, works[i].supply, works[i].h))
  }

  /** What the events that a worker handles stand for. */
  function WorksOf(work: Worker.EventId -> Work, ids: seq<Worker.EventId>): seq<Work>
  {
    seq(|ids|, i requires 0 <= i < |ids| => work(ids[i]))
  }

  /** The row stores e, whatever number and seal it got. */
  predicate Holds(lib: Lib, r: Row, e: Event)
  {
    r == RowOf(lib, e.(seqIndex := r.seqIndex, runID := r.runID, seal := r.seal))
  }

  /** What one event handled after the rows before leaves: nothing if it cannot be stored,
      else its row; and its completion exactly if it reports the end of a task that is open
      in the rows after genesis and the completion can be stored. */
  predicate Leaves(lib: Lib, before: seq<Row>, rows: seq<Row>, w: Work)
  {
    var b := w.e.body;
    var completion := Completion(w.supply, b.taskID, b.taskState);
    (|rows| == 0 <==> !Storable(before, w.e, w.f)) && |rows| <= 2
    && (|rows| >= 1 ==> Holds(lib, rows[0], w.e))
    && (|rows| >= 1 ==>
          (|rows| == 2 <==> IsReportOn(b) && IsTerminal(b.taskState) && TaskRows.OpenTask(before, 1, b.taskID)
                            && Storable(before + [rows[0]], completion, w.h)))
    && (|rows| == 2 ==> Holds(lib, rows[1], completion))
  }

  /** The table holds the genesis event and then what the handled events left, in order. */
  ghost predicate Written(lib: Lib, rows: seq<Row>, works: seq<Work>)
    decreases |works|
  {
    if |works| == 0 then |rows| == 1 && rows[0].body.eventType == "genesis"
    else exists init, last :: rows == init + last && Written(lib, init, works[..|works| - 1])
                              && Leaves(lib, init, last, works[|works| - 1])
  }

  lemma StartsWithGenesis(lib: Lib, key: Key, start: Op)
    requires start.Start? && Life(lib, key, [start]).proc.Some?
    ensures var w := Life(lib, key, [start]); |w.rows| == 1 && w.start == 1 && w.rows[0].body.eventType == "genesis"
  {
    assert Life(lib, key, [start]) == Started(lib, Empty(key), start);
  }

  /** The processor is running, has followed every task since genesis, and can go on. */
  ghost predicate Ready(lib: Lib, w: World)
  {
    OneRun(lib, w) && w.proc.Some? && w.start == 1 && Agrees(w.proc.value.tasks, w.log)
    && TaskRows.SameStates(w.rows, w.start, w.log)
  }

  lemma ProcessLeaves(lib: Lib, w: World, work: Work, p: Processed)
    requires Lawful(lib) && Ready(lib, w)
    requires var proc := w.proc.value;
             p == Process(lib, w.rows, proc.runID, proc.tasks, w.key, work.e, work.f, work.supply, work.h)
    ensures p.rows == w.rows + TaskRows.AddedRows(lib, p) && Leaves(lib, w.rows, TaskRows.AddedRows(lib, p), work)
  {
    var op := Handle(work.e, work.f, work.supply, work.h);
    TaskRows.ProcessAdds(lib, w, op, p);
    TaskRows.CompletesIfOpen(w.proc.value.tasks, w.rows, w.start, w.log, work.e);
  }

  lemma HandleLeaves(lib: Lib, w: World, work: Work) returns (added: seq<Row>)
    requires Lawful(lib) && Ready(lib, w)
    ensures var w' := Do(lib, w, Handle(work.e, work.f, work.supply, work.h));
            w'.proc.Some? && w'.start == 1 && w'.rows == w.rows + added && Leaves(lib, w.rows, added, work)
  {
    var proc := w.proc.value;
    var p := Process(lib, w.rows, proc.runID, proc.tasks, w.key, work.e, work.f, work.supply, work.h);
    ProcessLeaves(lib, w, work, p);
    added := TaskRows.AddedRows(lib, p);
  }

  lemma OpsInit(start: Op, works: seq<Work>)
    requires |works| != 0
    ensures Ops(start, works)[..|works|] == Ops(start, works[..|works| - 1])
  {
  }

  lemma {:induction false} LastOp(lib: Lib, key: Key, ops: seq<Op>, init: seq<Op>)
    requires |ops| != 0 && init == ops[..|ops| - 1]
    ensures Life(lib, key, ops) == Do(lib, Life(lib, key, init), ops[|ops| - 1])
  {
  }

  lemma {:induction false} LastWork(lib: Lib, key: Key, start: Op, works: seq<Work>)
    requires |works| != 0
    ensures var last := works[|works| - 1];
            Life(lib, key, Ops(start, works))
            == Do(lib, Life(lib, key, Ops(start, works[..|works| - 1])), Handle(last.e, last.f, last.supply, last.h))
  {
    OpsInit(start, works);
    LastOp(lib, key, Ops(start, works), Ops(start, works[..|works| - 1]));
  }

  lemma {:induction false} LifeWrites(lib: Lib, key: Key, start: Op, works: seq<Work>)
    requires Lawful(lib) && start.Start? && Life(lib, key, [start]).proc.Some?
    ensures var w := Life(lib, key, Ops(start, works)); w.proc.Some? && w.start == 1 && |w.rows| != 0 && Written(lib, w.rows, works)
  {
    if |works| == 0 {
      assert Ops(start, works) == [start];
      StartsWithGenesis(lib, key, start);
    } else {
      var init := works[..|works| - 1];
      LifeWrites(lib, key, start, init);
      LifeKeeps(lib, key, Ops(start, init));
      TaskRows.LifeStates(lib, key, Ops(start, init));
      LastWork(lib, key, start, works);
      var added := HandleLeaves(lib, Life(lib, key, Ops(start, init)), works[|works| - 1]);
    }
  }

  lemma OnlyHandles(start: Op, works: seq<Work>)
    requires start.Start?
    ensures NoRotation(Ops(start, works))
  {
    var ops := Ops(start, works);
    forall i | 0 <= i < |ops|
      ensures !ops[i].Rotate?
    {
      if i > 0 {
        assert ops[(i - 1) + 1].Handle?;
      }
    }
  }

  lemma {:induction false} LifeVerifies(lib: Lib, key: Key, start: Op, works: seq<Work>, r: Report)
    requires Lawful(lib) && start.Start? && Life(lib, key, [start]).proc.Some?
    requires var w := Life(lib, key, Ops(start, works));
             IsReport(lib, ReadRows(lib, Visible(w.rows, RunID(w))), lib.publicKey(key), r)
    ensures var w := Life(lib, key, Ops(start, works));
            Written(lib, w.rows, works) && r.valid && r.totalEvents == Counted(w.rows)
  {
    LifeWrites(lib, key, start, works);
    OnlyHandles(start, works);
    WriteThenVerify(lib, key, Ops(start, works), r);
  }

  /** End to end: when a worker was shut down quietly and its wait succeeded, the table holds
      the genesis event and then exactly the accepted events in the order of acceptance, less
      those whose store failed, each report followed by its completion if it had one; and
      verification of the table is Valid. */
  lemma {:induction false} DeliveredAndVerified(
      cap: nat, blocking: bool, steps: seq<Worker.Step>,
      lib: Lib, key: Key, start: Op, work: Worker.EventId -> Work, r: Report)
    requires 0 < cap && Lawful(lib) && start.Start? && Life(lib, key, [start]).proc.Some?
    requires var s := Worker.Run(Worker.Init(cap, blocking), steps);
             s.shutdown == Worker.Finished(true) && s.past.quiet && !s.past.together
    requires var s := Worker.Run(Worker.Init(cap, blocking), steps);
             var w := Life(lib, key, Ops(start, WorksOf(work, s.flow.handled)));
             IsReport(lib, ReadRows(lib, Visible(w.rows, RunID(w))), lib.publicKey(key), r)
    ensures var s := Worker.Run(Worker.Init(cap, blocking), steps);
            var w := Life(lib, key, Ops(start, WorksOf(work, s.flow.handled)));
            Written(lib, w.rows, WorksOf(work, s.flow.accepted)) && r.valid && r.totalEvents == Counted(w.rows)
  {
    WorkerTheorems.ShutdownDelivers(cap, blocking, steps);
    LifeVerifies(lib, key, start, WorksOf(work, Worker.Run(Worker.Init(cap, blocking), steps).flow.handled), r);
  }
}
