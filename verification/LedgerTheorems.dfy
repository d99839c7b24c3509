/** What the ledger guarantees over whole lives, from the first write to the audit. */
module LedgerTheorems {
  import opened Codec
  import opened Events
  import opened Store
  import opened Chain
  import opened Processor
  import opened Audit
  import opened Ledger

  /** GetRunID: the latest run, or "" when there is none. */
  function RunID(w: World): string
  {
    if |w.runs| == 0 then "" else w.runs[|w.runs| - 1].id
  }

  /** No gap after any mix of starts, events, failures, restarts and key rotations, also
      when a start failed between the run record and the genesis event: there is at most
      one run, and its rows have indices 0..n-1, start from the zero hash and link each
      to its predecessor. */
  lemma {:induction false} GapFree(lib: Lib, key: Key, ops: seq<Op>)
    requires Lawful(lib)
    ensures var w := Life(lib, key, ops); |w.runs| <= 1 && InRun(w.rows, RunID(w)) && Linked(w.rows)
  {
    LifeKeeps(lib, key, ops);
    OneRunLinks(lib, Life(lib, key, ops));
  }

  lemma OneRunLinks(lib: Lib, w: World)
    requires OneRun(lib, w)
    ensures |w.runs| <= 1 && InRun(w.rows, RunID(w)) && Linked(w.rows)
  {
  }

  lemma CanAssign(lib: Lib, rows: seq<Row>, keys: seq<Key>, run: string, next: Event)
    requires ValidChain(lib, rows, keys) && InRun(rows, run)
    ensures OfRun(rows, run) == rows && Assigned(rows, run, next).Some?
  {
    OfRunAll(rows, run);
    GapAssertionsHold(rows, run, next);
  }

  /** So whatever event comes next can be numbered and linked: the row count is one more
      than the last index, and the gap assertions do not fire. */
  lemma {:induction false} GapAssertionsNeverFire(lib: Lib, key: Key, ops: seq<Op>, next: Event)
    requires Lawful(lib) && Life(lib, key, ops).proc.Some?
    ensures var w := Life(lib, key, ops); Assigned(w.rows, w.proc.value.runID, next).Some?
  {
    LifeKeeps(lib, key, ops);
    OneRunAssigns(lib, Life(lib, key, ops), next);
  }

  lemma OneRunAssigns(lib: Lib, w: World, next: Event)
    requires OneRun(lib, w) && w.proc.Some?
    ensures Assigned(w.rows, w.proc.value.runID, next).Some?
  {
    CanAssign(lib, w.rows, w.keys, w.proc.value.runID, next);
  }

  /** Of a chain signed row by row with keys, exactly the rows signed under publicKey pass. */
  lemma RowPasses(lib: Lib, rows: seq<Row>, keys: seq<Key>, publicKey: string, i: nat)
    requires Lawful(lib) && ValidChain(lib, rows, keys) && i < |rows|
    ensures Passes(lib, ReadRows(lib, rows), publicKey, i) <==> publicKey == lib.publicKey(keys[i])
  {
    var es := ReadRows(lib, rows);
    assert SealedAt(lib, rows, keys, i);
    HashOfValue(lib, es[i]);
    assert es[i].seal == rows[i].seal;
    if i > 0 {
      assert es[i - 1].seal == rows[i - 1].seal;
    }
    assert LinkedAt(rows, i) && LinkOk(es, i);
  }

  lemma ChainPrefix(lib: Lib, rows: seq<Row>, keys: seq<Key>, n: nat)
    requires ValidChain(lib, rows, keys) && n <= |rows|
    ensures ValidChain(lib, rows[..n], keys[..n])
  {
    var page, ks := rows[..n], keys[..n];
    forall i | 0 <= i < n
      ensures SealedAt(lib, page, ks, i) && LinkedAt(page, i)
    {
      assert SealedAt(lib, rows, keys, i) && LinkedAt(rows, i);
    }
  }

  lemma VisiblePage(lib: Lib, rows: seq<Row>, keys: seq<Key>, run: string)
    requires ValidChain(lib, rows, keys) && InRun(rows, run)
    ensures Visible(rows, run) == rows[..Counted(rows)]
  {
    OfRunAll(rows, run);
    LinkedIsSorted(rows);
    assert rows == rows[..|rows|];
  }

  /** How many rows the auditor counts. */
  function Counted(rows: seq<Row>): (n: nat)
    ensures n <= |rows|
  {
    if |rows| <= MAX_ROWS then |rows| else MAX_ROWS
  }

  /** The first n rows were all signed under publicKey. */
  predicate SignedUnder(lib: Lib, keys: seq<Key>, n: nat, publicKey: string)
  {
    n <= |keys| && forall i :: 0 <= i < n ==> publicKey == lib.publicKey(keys[i])
  }

  lemma ChainPasses(lib: Lib, rows: seq<Row>, keys: seq<Key>, publicKey: string)
    requires Lawful(lib) && ValidChain(lib, rows, keys)
    ensures AllPass(lib, ReadRows(lib, rows), publicKey) <==> SignedUnder(lib, keys, |rows|, publicKey)
  {
    var es := ReadRows(lib, rows);
    forall i | 0 <= i < |rows|
      ensures Passes(lib, es, publicKey, i) <==> publicKey == lib.publicKey(keys[i])
    {
      RowPasses(lib, rows, keys, publicKey, i);
    }
  }

  lemma SignedPrefix(lib: Lib, keys: seq<Key>, n: nat, publicKey: string)
    requires n <= |keys|
    ensures SignedUnder(lib, keys[..n], n, publicKey) <==> SignedUnder(lib, keys, n, publicKey)
  {
  }

  lemma ChainOutcome(lib: Lib, rows: seq<Row>, keys: seq<Key>, run: string, publicKey: string, r: Report)
    requires Lawful(lib) && ValidChain(lib, rows, keys) && |rows| != 0
    requires InRun(rows, run)
    requires IsReport(lib, ReadRows(lib, Visible(rows, run)), publicKey, r)
    ensures r.totalEvents == Counted(rows) && (r.valid <==> SignedUnder(lib, keys, Counted(rows), publicKey))
  {
    VisiblePage(lib, rows, keys, run);
    ChainPrefix(lib, rows, keys, Counted(rows));
    ChainPasses(lib, rows[..Counted(rows)], keys[..Counted(rows)], publicKey);
    SignedPrefix(lib, keys, Counted(rows), publicKey);
  }

  /** Verifying a ledger this code has written, with any public key: the report counts
      the rows (at most 100000), and is Valid exactly when every counted row was signed
      under that key. */
  lemma {:induction false} VerifyOutcome(lib: Lib, key: Key, ops: seq<Op>, publicKey: string, r: Report)
    requires Lawful(lib)
    requires var w := Life(lib, key, ops);
             |w.rows| != 0 && IsReport(lib, ReadRows(lib, Visible(w.rows, RunID(w))), publicKey, r)
    ensures var w := Life(lib, key, ops);
            r.totalEvents == Counted(w.rows) && (r.valid <==> SignedUnder(lib, w.keys, Counted(w.rows), publicKey))
  {
    LifeKeeps(lib, key, ops);
    WorldOutcome(lib, Life(lib, key, ops), publicKey, r);
  }

  lemma WorldOutcome(lib: Lib, w: World, publicKey: string, r: Report)
    requires Lawful(lib) && OneRun(lib, w) && |w.rows| != 0
    requires IsReport(lib, ReadRows(lib, Visible(w.rows, RunID(w))), publicKey, r)
    ensures r.totalEvents == Counted(w.rows) && (r.valid <==> SignedUnder(lib, w.keys, Counted(w.rows), publicKey))
  {
    ChainOutcome(lib, w.rows, w.keys, RunID(w), publicKey, r);
  }

  predicate NoRotation(ops: seq<Op>)
  {
    forall i :: 0 <= i < |ops| ==> !(ops[i].Rotate? && ops[i].saved)
  }

  lemma {:induction false} OneKey(lib: Lib, key: Key, ops: seq<Op>)
    requires Lawful(lib) && NoRotation(ops)
    ensures var w := Life(lib, key, ops);
            w.key == key && forall i :: 0 <= i < |w.keys| ==> w.keys[i] == key
  {
    if |ops| != 0 {
      var init := ops[..|ops| - 1];
      assert NoRotation(init);
      OneKey(lib, key, init);
      assert !(ops[|ops| - 1].Rotate? && ops[|ops| - 1].saved);
      OneKeyStep(lib, key, Life(lib, key, init), ops[|ops| - 1]);
    }
  }

  lemma OneKeyStep(lib: Lib, key: Key, w: World, op: Op)
    requires w.key == key && (forall i :: 0 <= i < |w.keys| ==> w.keys[i] == key) && !(op.Rotate? && op.saved)
    ensures var w' := Do(lib, w, op); w'.key == key && forall i :: 0 <= i < |w'.keys| ==> w'.keys[i] == key
  {
  }

  /** Write, then verify: whatever was processed, failed or restarted under one key,
      verification with that key is Valid and counts the stored events. */
  lemma {:induction false} WriteThenVerify(lib: Lib, key: Key, ops: seq<Op>, r: Report)
    requires Lawful(lib) && NoRotation(ops)
    requires var w := Life(lib, key, ops);
             |w.rows| != 0 && IsReport(lib, ReadRows(lib, Visible(w.rows, RunID(w))), lib.publicKey(key), r)
    ensures r.valid && r.totalEvents == Counted(Life(lib, key, ops).rows)
  {
    LifeKeeps(lib, key, ops);
    OneKey(lib, key, ops);
    VerifyOutcome(lib, key, ops, lib.publicKey(key), r);
  }

  /** Every stored event passes its own hash and signature check under the key in force
      when it was signed, whatever rotations came before or after. */
  lemma {:induction false} PassesUnderItsOwnKey(lib: Lib, key: Key, ops: seq<Op>, i: nat)
    requires Lawful(lib) && i < |Life(lib, key, ops).rows|
    ensures var w := Life(lib, key, ops);
            |w.keys| == |w.rows| && VerifyEvent(lib, ReadRow(lib, w.rows[i]), lib.publicKey(w.keys[i])) == Pass
  {
    LifeKeeps(lib, key, ops);
    var w := Life(lib, key, ops);
    RowPasses(lib, w.rows, w.keys, lib.publicKey(w.keys[i]), i);
  }

  lemma EditedPage(lib: Lib, rows: seq<Row>, keys: seq<Key>, run: string, k: nat, row: Row)
    requires ValidChain(lib, rows, keys) && InRun(rows, run)
    requires k < |rows| <= MAX_ROWS && row.runID == run && row.seqIndex == k
    ensures Visible(rows, run) == rows && Visible(rows[k := row], run) == rows[k := row]
  {
    VisiblePage(lib, rows, keys, run);
    OfRunAll(rows[k := row], run);
    AscendingOfSorted(rows[k := row]);
  }

  /** row takes the place of the stored row at index k: same run, index and hash, but some
      other hashed field, or the previous hash, reads back differently. */
  predicate IsEdit(lib: Lib, stored: Row, k: nat, row: Row)
  {
    row.runID == stored.runID && row.seqIndex == k && row.seal.currentHash == stored.seal.currentHash
    && (!SameHashed(lib, ReadRow(lib, row), ReadRow(lib, stored)) || row.seal.prevHash != stored.seal.prevHash)
  }

  /** From writing to catching: in a ledger written under one key, with at most 100000
      rows, edit row k while keeping its index and hash. Verification of the edited table
      then fails and names k, or a SHA-256 collision has been found. */
  lemma {:induction false} EditedLedgerDetected(lib: Lib, key: Key, ops: seq<Op>, k: nat, row: Row, r: Report)
    requires Lawful(lib) && NoRotation(ops) && k < |Life(lib, key, ops).rows| <= MAX_ROWS
    requires IsEdit(lib, Life(lib, key, ops).rows[k], k, row) && (k == 0 && |row.seal.prevHash| != 64 ==> ObjectTexts(lib))
    requires IsReport(lib, ReadRows(lib, Visible(Life(lib, key, ops).rows[k := row], row.runID)), lib.publicKey(key), r)
    ensures (!r.valid && r.failedAtSeq == k)
            || Collision(lib, Input(lib, ReadRow(lib, row)), Input(lib, ReadRow(lib, Life(lib, key, ops).rows[k])))
  {
    LifeKeeps(lib, key, ops);
    OneKey(lib, key, ops);
    var w := Life(lib, key, ops);
    EditedPage(lib, w.rows, w.keys, row.runID, k, row);
    EditCaught(lib, w.rows, w.keys, key, k, row, r);
  }

  lemma EditCaught(lib: Lib, rows: seq<Row>, keys: seq<Key>, key: Key, k: nat, row: Row, r: Report)
    requires Lawful(lib) && ValidChain(lib, rows, keys) && (forall i :: 0 <= i < |keys| ==> keys[i] == key)
    requires k < |rows| && IsEdit(lib, rows[k], k, row) && (k == 0 && |row.seal.prevHash| != 64 ==> ObjectTexts(lib))
    requires IsReport(lib, ReadRows(lib, rows[k := row]), lib.publicKey(key), r)
    ensures (!r.valid && r.failedAtSeq == k)
            || Collision(lib, Input(lib, ReadRow(lib, row)), Input(lib, ReadRow(lib, rows[k])))
  {
    var es, fs, pub := ReadRows(lib, rows), ReadRows(lib, rows[k := row]), lib.publicKey(key);
    ChainPasses(lib, rows, keys, pub);
    StartsAtZeros(lib, rows);
    assert fs == es[k := ReadRow(lib, row)];
    EditDetected(lib, es, pub, k, ReadRow(lib, row));
    if FailsFirst(lib, fs, pub, k) {
      FailureNamed(lib, fs, pub, k, r);
    }
  }

  lemma StartsAtZeros(lib: Lib, rows: seq<Row>)
    requires Linked(rows) && |rows| != 0
    ensures Starts(ReadRows(lib, rows))
  {
    assert LinkedAt(rows, 0) && ReadRows(lib, rows)[0].seal == rows[0].seal;
  }

  /** A report names the first failing event. */
  lemma FailureNamed(lib: Lib, es: seq<Event>, publicKey: string, k: nat, r: Report)
    requires IsReport(lib, es, publicKey, r) && FailsFirst(lib, es, publicKey, k)
    ensures !r.valid && r.failedAtSeq == es[k].seqIndex
  {
  }
}
