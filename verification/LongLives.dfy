/** Lives of any length, and what verification makes of a long one. */
module LongLives {
  import opened Codec
  import opened Events
  import opened Store
  import opened Chain
  import opened Processor
  import opened Audit
  import opened Ledger
  import opened LedgerTheorems
  import Consistency

  const FIRST: Op := Start(Genesis("a", "run", ZERO_TIME, "agent", None, None), false, false, false, false)

  /** An event with an id of n characters. */
  function Note(n: nat): Event
  {
    Event(Repeat('a', n), "", 0, ZERO_TIME, Body("", "note", "", "", "", "", "", ""), None, None, Seal("", "", ""))
  }

  function HandleNote(n: nat): Op
  {
    var ok := Faults(false, false, false);
    Handle(Note(n), ok, Fresh("", ZERO_TIME, None), ok)
  }

  /** Genesis and n - 1 notes. */
  function LongOps(n: nat): seq<Op>
    requires n >= 1
  {
    if n == 1 then [FIRST] else LongOps(n - 1) + [HandleNote(n)]
  }

  /** n rows with ids of 1, 2, ..., n characters, and a running processor. */
  predicate Long(w: World, n: nat)
  {
    w.proc.Some? && |w.rows| == n && forall i :: 0 <= i < n ==> |w.rows[i].id| == i + 1
  }

  lemma GenesisSucceeds(lib: Lib, key: Key)
    requires Lawful(lib) && lib.publicKey(key) != ""
    ensures Long(Life(lib, key, [FIRST]), 1)
  {
    var e := GenesisEvent(lib, key, FIRST.g);
    assert Expressible(e);
    SealedRow(lib, key, e);
    assert Life(lib, key, [FIRST]) == Started(lib, Empty(key), FIRST);
  }

  lemma NoteSucceeds(lib: Lib, w: World, n: nat)
    requires Lawful(lib) && OneRun(lib, w) && n >= 1 && Long(w, n)
    ensures Long(Do(lib, w, HandleNote(n + 1)), n + 1)
  {
    var op, proc := HandleNote(n + 1), w.proc.value;
    assert Storable(w.rows, op.e, op.f);
    ProcessInRun(lib, w.rows, proc.runID, proc.tasks, w.key, op.e, op.f, op.supply, op.h, w.keys);
  }

  /** For every n there is a life whose table has n rows. */
  lemma {:induction false} LongLife(lib: Lib, key: Key, n: nat)
    requires Lawful(lib) && lib.publicKey(key) != "" && n >= 1
    ensures Long(Life(lib, key, LongOps(n)), n) && NoRotation(LongOps(n))
  {
    if n == 1 {
      GenesisSucceeds(lib, key);
    } else {
      LongLife(lib, key, n - 1);
      LifeKeeps(lib, key, LongOps(n - 1));
      NoteSucceeds(lib, Life(lib, key, LongOps(n - 1)), n - 1);
      assert LongOps(n)[..|LongOps(n)| - 1] == LongOps(n - 1);
    }
  }

  /** So a table can be longer than what verification looks at: it then reports Valid with
      100000 events. */
  lemma {:induction false} LongLifeCutShort(lib: Lib, key: Key, n: nat, r: Report)
    requires Lawful(lib) && lib.publicKey(key) != "" && n > 100_000
    requires var w := Life(lib, key, LongOps(n)); IsReport(lib, ReadRows(lib, Visible(w.rows, RunID(w))), lib.publicKey(key), r)
    ensures |Life(lib, key, LongOps(n)).rows| == n && r.valid && r.totalEvents == 100_000
  {
    LongLife(lib, key, n);
    WriteThenVerify(lib, key, LongOps(n), r);
  }

  /** And a library for which all this holds exists. */
  lemma {:induction false} LongLifeExists(n: nat)
    requires n >= 1
    ensures Lawful(Consistency.Simple()) && |Life(Consistency.Simple(), 0, LongOps(n)).rows| == n
  {
    Consistency.LawsAreConsistent();
    LongLife(Consistency.Simple(), 0, n);
  }
}
