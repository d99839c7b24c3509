/** The hash chain: how an event is numbered, sealed and stored, and what the rows
    of a run look like when only this code has written them. */
module Chain {
  import opened Codec
  import opened Events
  import opened Store

  /** Which database calls of one persist fail. */
  datatype Faults = Faults(stats: bool, last: bool, insert: bool)

  /** assignSequenceAndPrevHash without database errors; None is a failed assertion. */
  function Assigned(rows: seq<Row>, run: string, e: Event): Option<Event>
  {
    var n := |OfRun(rows, run)|;
    var (lastIndex, lastHash) := LastEvent(rows, run);
    var e' := e.(seqIndex := n, runID := run);
    if n == 0 then
      if lastHash != "" then None else Some(e'.(seal := e.seal.(prevHash := ZeroHash())))
    else if lastHash == "" || n != lastIndex + 1 then None
    else Some(e'.(seal := e.seal.(prevHash := lastHash)))
  }

  /** hashAndSignEvent */
  function Signed(lib: Lib, key: Key, e: Event): Option<Event>
  {
    if e.seal.prevHash == "" then None
    else match HashOf(lib, e)
      case None => None
      case Some(h) => Some(e.(seal := Seal(e.seal.prevHash, h, lib.sign(key, h))))
  }

  /** The outcome of persistEvent: the table and, on success, the stored event. */
  datatype Persisted = Persisted(rows: seq<Row>, event: Option<Event>)

  /** Numbered, linked, hashed and signed; None when a check or the hash fails. */
  function Prepared(lib: Lib, rows: seq<Row>, run: string, key: Key, e: Event): Option<Event>
  {
    match Assigned(rows, run, e)
    case None => None
    case Some(a) => Signed(lib, key, a)
  }

  function Stored(lib: Lib, rows: seq<Row>, s: Option<Event>, fault: bool): Persisted
  {
    if s.None? || fault || !Expressible(s.value) || !Admissible(rows, RowOf(lib, s.value)) then Persisted(rows, None)
    else Persisted(rows + [RowOf(lib, s.value)], s)
  }

  function Persist(lib: Lib, rows: seq<Row>, run: string, key: Key, e: Event, f: Faults): Persisted
  {
    if f.stats || f.last then Persisted(rows, None)
    else Stored(lib, rows, Prepared(lib, rows, run, key, e), f.insert)
  }

  // ---------------------------------------------------------------- the shape of a run

  /** Indices 0, 1, 2, ... without gap; the first previous hash is all zeros and each
      later one is its predecessor's hash. */
  predicate Linked(rows: seq<Row>)
  {
    (forall i :: 0 <= i < |rows| ==> rows[i].seqIndex == i && |rows[i].seal.currentHash| == 64)
    && forall i :: 0 <= i < |rows| ==> LinkedAt(rows, i)
  }

  predicate LinkedAt(rows: seq<Row>, i: nat)
    requires i < |rows|
  {
    rows[i].seal.prevHash == if i == 0 then ZeroHash() else rows[i - 1].seal.currentHash
  }

  /** The row, read back, hashes to its own hash and is signed by key. */
  predicate SealedBy(lib: Lib, r: Row, key: Key)
  {
    |r.seal.prevHash| == 64 && Expressible(ReadRow(lib, r))
    && r.seal.currentHash == lib.sha256(Input(lib, ReadRow(lib, r)))
    && r.seal.signature == lib.sign(key, r.seal.currentHash)
  }

  predicate SealedAt(lib: Lib, rows: seq<Row>, keys: seq<Key>, i: nat)
    requires i < |rows| == |keys|
  {
    SealedBy(lib, rows[i], keys[i])
  }

  /** keys[i] is the key in force when row i was signed. */
  predicate ValidChain(lib: Lib, rows: seq<Row>, keys: seq<Key>)
  {
    |keys| == |rows| && Linked(rows) && forall i :: 0 <= i < |rows| ==> SealedAt(lib, rows, keys, i)
  }

  lemma LinkedIsSorted(rows: seq<Row>)
    requires Linked(rows)
    ensures Ascending(rows) == rows
  {
    assert Sorted(rows);
    AscendingOfSorted(rows);
  }

  /** In a linked run the gap assertions hold: the count of rows is one more than the
      last index, and the last hash is empty exactly when there is no row. */
  lemma GapAssertionsHold(rows: seq<Row>, run: string, e: Event)
    requires Linked(OfRun(rows, run))
    ensures var n := |OfRun(rows, run)|;
            var (lastIndex, lastHash) := LastEvent(rows, run);
            (n == 0 ==> lastHash == "") && (n != 0 ==> lastHash != "" && n == lastIndex + 1)
    ensures var n := |OfRun(rows, run)|;
            Assigned(rows, run, e) == Some(e.(seqIndex := n, runID := run, seal := e.seal.(prevHash :=
              if n == 0 then ZeroHash() else OfRun(rows, run)[n - 1].seal.currentHash)))
  {
    LinkedIsSorted(OfRun(rows, run));
  }

  /** Sealing an expressible event always works and gives a row that reads back sealed. */
  lemma SealedRow(lib: Lib, key: Key, e: Event)
    requires Lawful(lib) && |e.seal.prevHash| == 64
    ensures Signed(lib, key, e).Some? <==> Expressible(e)
    ensures Expressible(e) ==>
              var s := Signed(lib, key, e).value;
              s == e.(seal := s.seal) && s.seal.prevHash == e.seal.prevHash && Expressible(s)
              && |s.seal.currentHash| == 64 && s.seal.signature != "" && SealedBy(lib, RowOf(lib, s), key)
  {
    HashOfValue(lib, e);
    if Expressible(e) {
      var s := Signed(lib, key, e).value;
      assert Input(lib, s) == Input(lib, e);
      StoreRoundTrip(lib, s);
      InputBinds(lib, s, ReadRow(lib, RowOf(lib, s)));
    }
  }

  /** s is e, numbered and linked after rows, and sealed with key. */
  predicate FitsAfter(lib: Lib, rows: seq<Row>, run: string, key: Key, e: Event, s: Event)
  {
    s == e.(seqIndex := |rows|, runID := run, seal := s.seal)
    && s.seal.prevHash == (if |rows| == 0 then ZeroHash() else rows[|rows| - 1].seal.currentHash)
    && |s.seal.currentHash| == 64 && s.seal.signature != "" && SealedBy(lib, RowOf(lib, s), key)
  }

  lemma PreparedFits(lib: Lib, rows: seq<Row>, run: string, key: Key, e: Event)
    requires Lawful(lib) && Linked(OfRun(rows, run))
    ensures var s := Prepared(lib, rows, run, key, e);
            (s.Some? <==> Expressible(e)) && (s.Some? ==> FitsAfter(lib, OfRun(rows, run), run, key, e, s.value))
  {
    GapAssertionsHold(rows, run, e);
    SealedRow(lib, key, Assigned(rows, run, e).value);
  }

  /** persistEvent on a valid chain: it fails exactly when the database does, when the
      event has no JSON form, or when its id is empty or taken, and then changes
      nothing; otherwise it extends the chain by one row signed with the current key. */
  lemma PersistExtends(lib: Lib, rows: seq<Row>, run: string, key: Key, e: Event, f: Faults, keys: seq<Key>)
    requires Lawful(lib) && run != "" && ValidChain(lib, OfRun(rows, run), keys)
    ensures var p := Persist(lib, rows, run, key, e, f);
            p.event.Some? <==> !f.stats && !f.last && !f.insert && Expressible(e) && e.id != ""
                               && forall i :: 0 <= i < |rows| ==> rows[i].id != e.id
    ensures var p := Persist(lib, rows, run, key, e, f);
            p.event.None? ==> p.rows == rows
    ensures var p := Persist(lib, rows, run, key, e, f);
            p.event.Some? ==>
              p.event.value == e.(seqIndex := |OfRun(rows, run)|, runID := run, seal := p.event.value.seal)
              && p.rows == rows + [RowOf(lib, p.event.value)]
              && ValidChain(lib, OfRun(p.rows, run), keys + [key])
  {
    PreparedFits(lib, rows, run, key, e);
    StoredExtends(lib, rows, run, key, e, Prepared(lib, rows, run, key, e), f.insert, keys);
  }

  lemma StoredExtends(lib: Lib, rows: seq<Row>, run: string, key: Key, e: Event, s: Option<Event>, fault: bool, keys: seq<Key>)
    requires run != "" && ValidChain(lib, OfRun(rows, run), keys) && (s.Some? <==> Expressible(e))
    requires s.Some? ==> FitsAfter(lib, OfRun(rows, run), run, key, e, s.value)
    ensures var p := Stored(lib, rows, s, fault);
            (p.event.Some? <==> !fault && Expressible(e) && e.id != "" && forall i :: 0 <= i < |rows| ==> rows[i].id != e.id)
            && (p.event.None? ==> p.rows == rows)
            && (p.event.Some? ==> p.event == s && p.rows == rows + [RowOf(lib, s.value)]
                                  && ValidChain(lib, OfRun(p.rows, run), keys + [key]))
  {
    if s.Some? {
      OfRunAppend(rows, RowOf(lib, s.value), run);
      ExtendChain(lib, OfRun(rows, run), keys, RowOf(lib, s.value), key);
    }
  }

  lemma ExtendChain(lib: Lib, rows: seq<Row>, keys: seq<Key>, r: Row, key: Key)
    requires ValidChain(lib, rows, keys) && SealedBy(lib, r, key) && |r.seal.currentHash| == 64
    requires r.seqIndex == |rows| && r.seal.prevHash == if |rows| == 0 then ZeroHash() else rows[|rows| - 1].seal.currentHash
    ensures ValidChain(lib, rows + [r], keys + [key])
  {
    var all := rows + [r];
    forall i | 0 <= i < |all|
      ensures SealedAt(lib, all, keys + [key], i) && LinkedAt(all, i)
    {
      if i < |rows| {
        assert SealedAt(lib, rows, keys, i) && LinkedAt(rows, i);
      }
    }
  }
}
