/** The SQLite store as two append-only tables, and the queries the ledger makes. */
module Store {
  import opened Codec
  import opened Events

  const MAX_ROWS: nat := 100_000

  datatype RunRecord = RunRecord(id: string, agentName: string, genesisHash: string, publicKey: string)

  // ---------------------------------------------------------------- queries

  /** WHERE run_id = run */
  function OfRun(rows: seq<Row>, run: string): seq<Row>
  {
    if |rows| == 0 then []
    else
      var rest := OfRun(rows[..|rows| - 1], run);
      if rows[|rows| - 1].runID == run then rest + [rows[|rows| - 1]] else rest
  }

  /** Every row belongs to the run. */
  predicate InRun(rows: seq<Row>, run: string)
  {
    forall i :: 0 <= i < |rows| ==> rows[i].runID == run
  }

  /** ORDER BY seq_index ASC; rows with equal indices stay in insertion order. */
  function Ascending(rows: seq<Row>): seq<Row>
  {
    if |rows| == 0 then [] else Insert(Ascending(rows[..|rows| - 1]), rows[|rows| - 1])
  }

  function Insert(sorted: seq<Row>, r: Row): seq<Row>
  {
    if |sorted| == 0 || sorted[|sorted| - 1].seqIndex <= r.seqIndex then sorted + [r]
    else Insert(sorted[..|sorted| - 1], r) + [sorted[|sorted| - 1]]
  }

  predicate Sorted(rows: seq<Row>)
  {
    forall i, j :: 0 <= i < j < |rows| ==> rows[i].seqIndex <= rows[j].seqIndex
  }

  lemma {:induction false} InsertKeeps(sorted: seq<Row>, r: Row)
    ensures multiset(Insert(sorted, r)) == multiset(sorted) + multiset{r}
  {
    if |sorted| != 0 && sorted[|sorted| - 1].seqIndex > r.seqIndex {
      var init, last := sorted[..|sorted| - 1], sorted[|sorted| - 1];
      InsertKeeps(init, r);
      assert sorted == init + [last];
    }
  }

  lemma {:induction false} InsertSorts(sorted: seq<Row>, r: Row, top: nat)
    requires Sorted(sorted) && r.seqIndex <= top && forall i :: 0 <= i < |sorted| ==> sorted[i].seqIndex <= top
    ensures Sorted(Insert(sorted, r)) && forall i :: 0 <= i < |Insert(sorted, r)| ==> Insert(sorted, r)[i].seqIndex <= top
  {
    if |sorted| != 0 && sorted[|sorted| - 1].seqIndex > r.seqIndex {
      InsertSorts(sorted[..|sorted| - 1], r, sorted[|sorted| - 1].seqIndex);
    }
  }

  function Top(sorted: seq<Row>, r: Row): (n: nat)
    requires Sorted(sorted)
    ensures r.seqIndex <= n && forall i :: 0 <= i < |sorted| ==> sorted[i].seqIndex <= n
  {
    if |sorted| != 0 && sorted[|sorted| - 1].seqIndex > r.seqIndex then sorted[|sorted| - 1].seqIndex else r.seqIndex
  }

  /** The ordered result is a sorted permutation of the selected rows. */
  lemma {:induction false} AscendingIsOrderBy(rows: seq<Row>)
    ensures Sorted(Ascending(rows)) && multiset(Ascending(rows)) == multiset(rows)
  {
    if |rows| != 0 {
      var init, last := rows[..|rows| - 1], rows[|rows| - 1];
      AscendingIsOrderBy(init);
      InsertKeeps(Ascending(init), last);
      InsertSorts(Ascending(init), last, Top(Ascending(init), last));
      assert rows == init + [last];
    }
  }

  /** Rows written in index order come back as they are. */
  lemma {:induction false} AscendingOfSorted(rows: seq<Row>)
    requires Sorted(rows)
    ensures Ascending(rows) == rows
  {
    if |rows| != 0 {
      AscendingOfSorted(rows[..|rows| - 1]);
    }
  }

  /** GetLastEvent: index and hash of the row with the highest index, or (0, ""). */
  function LastEvent(rows: seq<Row>, run: string): (nat, string)
  {
    var sorted := Ascending(OfRun(rows, run));
    if |sorted| == 0 then (0, "")
    else (sorted[|sorted| - 1].seqIndex, sorted[|sorted| - 1].seal.currentHash)
  }

  lemma {:induction false} OfRunMember(rows: seq<Row>, run: string, r: Row)
    ensures r in OfRun(rows, run) <==> r in rows && r.runID == run
  {
    if |rows| != 0 {
      assert rows == rows[..|rows| - 1] + [rows[|rows| - 1]];
      OfRunMember(rows[..|rows| - 1], run, r);
    }
  }

  lemma AscendingMember(rows: seq<Row>, r: Row)
    ensures r in Ascending(rows) <==> r in rows
  {
    AscendingIsOrderBy(rows);
    assert r in multiset(Ascending(rows)) <==> r in multiset(rows);
  }

  /** The last event of a run is one of its rows, given with its own hash, and no row of
      the run has a higher index; a run without rows has none. */
  lemma LastEventIsHighest(rows: seq<Row>, run: string)
    ensures (forall r :: r in rows ==> r.runID != run) ==> LastEvent(rows, run) == (0, "")
    ensures (exists r :: r in rows && r.runID == run) ==>
              exists last :: last in rows && last.runID == run
                             && LastEvent(rows, run) == (last.seqIndex, last.seal.currentHash)
                             && forall r :: r in rows && r.runID == run ==> r.seqIndex <= last.seqIndex
  {
    var mine := OfRun(rows, run);
    var sorted := Ascending(mine);
    AscendingIsOrderBy(mine);
    forall r
      ensures r in sorted <==> r in rows && r.runID == run
    {
      OfRunMember(rows, run, r);
      AscendingMember(mine, r);
    }
    if |sorted| == 0 {
      assert forall r :: r !in sorted;
    } else {
      var last := sorted[|sorted| - 1];
      assert last in sorted;
      forall r | r in rows && r.runID == run
        ensures r.seqIndex <= last.seqIndex
      {
        assert r in sorted;
      }
    }
  }

  function ReadRows(lib: Lib, rows: seq<Row>): (es: seq<Event>)
    ensures |es| == |rows| && forall i :: 0 <= i < |es| ==> es[i] == ReadRow(lib, rows[i])
  {
    if |rows| == 0 then [] else ReadRows(lib, rows[..|rows| - 1]) + [ReadRow(lib, rows[|rows| - 1])]
  }

  lemma ReadOneMore(lib: Lib, rows: seq<Row>, i: nat)
    requires i < |rows|
    ensures ReadRows(lib, rows[..i + 1]) == ReadRows(lib, rows[..i]) + [ReadRow(lib, rows[i])]
  {
    assert rows[..i + 1][..i] == rows[..i];
  }

  /** The rows GetAllEvents gets to see. */
  function Visible(rows: seq<Row>, run: string): seq<Row>
  {
    Page(Ascending(OfRun(rows, run)))
  }

  function Page(rows: seq<Row>): seq<Row>
  {
    if |rows| <= MAX_ROWS then rows else rows[..MAX_ROWS]
  }

  /** The constraints on a new run record. */
  predicate GoodRun(runs: seq<RunRecord>, r: RunRecord)
  {
    r.id != "" && r.agentName != "" && r.genesisHash != "" && r.publicKey != ""
    && forall i :: 0 <= i < |runs| ==> runs[i].id != r.id
  }

  /** The constraints on a new row: the checks of InsertEvent and the primary key. */
  predicate Admissible(rows: seq<Row>, r: Row)
  {
    r.id != "" && r.runID != "" && r.seal.currentHash != "" && r.seal.signature != ""
    && forall i :: 0 <= i < |rows| ==> rows[i].id != r.id
  }

  lemma OfRunAppend(rows: seq<Row>, r: Row, run: string)
    ensures OfRun(rows + [r], run) == OfRun(rows, run) + (if r.runID == run then [r] else [])
  {
  }

  // ---------------------------------------------------------------- the database object

  class DB {
    var runs: seq<RunRecord>
    var rows: seq<Row>

    constructor ()
      ensures runs == [] && rows == []
    {
      runs, rows := [], [];
    }

    /** fault stands for any error of the database itself. */
    method InsertRun(r: RunRecord, fault: bool) returns (ok: bool)
      modifies this`runs
      ensures ok <==> !fault && GoodRun(old(runs), r)
      ensures runs == if ok then old(runs) + [r] else old(runs)
    {
      ok := !fault && GoodRun(runs, r);
      if ok {
        runs := runs + [r];
      }
    }

    /** StoreEvent and InsertEvent: maps and times become text. */
    method StoreEvent(lib: Lib, e: Event, fault: bool) returns (ok: bool)
      modifies this`rows
      ensures ok <==> !fault && Expressible(e) && Admissible(old(rows), RowOf(lib, e))
      ensures rows == if ok then old(rows) + [RowOf(lib, e)] else old(rows)
    {
      if !Expressible(e) {
        return false;
      }
      ok := !fault && Admissible(rows, RowOf(lib, e));
      if ok {
        rows := rows + [RowOf(lib, e)];
      }
    }

    method GetLastEvent(run: string) returns (index: nat, hash: string)
      ensures (index, hash) == LastEvent(rows, run)
    {
      var last := LastEvent(rows, run);
      index, hash := last.0, last.1;
    }

    /** Reads the rows of a run in index order, at most MAX_ROWS of them. */
    method GetAllEvents(lib: Lib, run: string, fault: bool) returns (events: Option<seq<Event>>)
      ensures events.None? <==> fault || run == ""
      ensures events.Some? ==> events.value == ReadRows(lib, Visible(rows, run))
    {
      if run == "" || fault {
        return None;
      }
      var cursor := Ascending(OfRun(rows, run));
      var es: seq<Event> := [];
      var i := 0;
      while i < MAX_ROWS && i < |cursor|
        invariant 0 <= i <= |cursor| && i <= MAX_ROWS
        invariant es == ReadRows(lib, cursor[..i])
      {
        ReadOneMore(lib, cursor, i);
        es := es + [ReadRow(lib, cursor[i])];
        i := i + 1;
      }
      assert cursor[..|cursor|] == cursor;
      events := Some(es);
    }
  }
}
