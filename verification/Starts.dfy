/** What genesis, a start, a restart and a key rotation achieve. */
module Starts {
  import opened Codec
  import opened Events
  import opened Store
  import opened Chain
  import opened Processor
  import opened Audit
  import opened Ledger
  import opened LedgerTheorems
  import TaskRows

  // ---------------------------------------------------------------- genesis

  /** The run record can be inserted. */
  predicate RunAdmissible(lib: Lib, runs: seq<RunRecord>, key: Key, g: Genesis)
  {
    g.runID != "" && g.agentName != "" && lib.publicKey(key) != "" && forall i :: 0 <= i < |runs| ==> runs[i].id != g.runID
  }

  predicate IdAdmissible(rows: seq<Row>, id: string)
  {
    id != "" && forall i :: 0 <= i < |rows| ==> rows[i].id != id
  }

  lemma GenesisSigned(lib: Lib, key: Key, g: Genesis)
    requires Lawful(lib)
    ensures var e := GenesisEvent(lib, key, g);
            (Signed(lib, key, e).Some? <==> Supported(Value(g.response)))
            && (Signed(lib, key, e).Some? ==>
                  var s := Signed(lib, key, e).value;
                  s == e.(seal := s.seal) && s.seal.prevHash == ZeroHash() && Expressible(s)
                  && s.seal.currentHash != "" && s.seal.signature != "")
  {
    var e := GenesisEvent(lib, key, g);
    assert Supported(Value(e.params));
    SealedRow(lib, key, e);
  }

  /** Genesis succeeds exactly when the response of the pooled event has a JSON form, the
      database does not fail, and run record and event have new, non-empty ids and a name
      and key; it inserts the run record even when the event then fails. */
  lemma GenesisExactly(lib: Lib, runs: seq<RunRecord>, rows: seq<Row>, key: Key, g: Genesis, runFault: bool, eventFault: bool)
    requires Lawful(lib)
    ensures var c := CreatedGenesis(lib, runs, rows, key, g, runFault, eventFault);
            var recorded := Supported(Value(g.response)) && !runFault && RunAdmissible(lib, runs, key, g);
            (c.ok <==> recorded && !eventFault && IdAdmissible(rows, g.id))
            && (|c.runs| == |runs| + (if recorded then 1 else 0)) && (|c.rows| == |rows| + (if c.ok then 1 else 0))
            && runs <= c.runs && rows <= c.rows
            && (recorded ==> c.runs[|runs|].id == g.runID && c.runs[|runs|].agentName == g.agentName
                             && c.runs[|runs|].publicKey == lib.publicKey(key))
            && (c.ok ==> c.rows[|rows|].id == g.id && c.rows[|rows|].runID == g.runID && c.rows[|rows|].seqIndex == 0
                         && c.rows[|rows|].seal.prevHash == ZeroHash()
                         && c.rows[|rows|].seal.currentHash == c.runs[|runs|].genesisHash)
  {
    GenesisSigned(lib, key, g);
  }

  /** What a stored genesis event tells a reader. */
  predicate Tells(lib: Lib, m: map<string, Json>, key: Key, g: Genesis)
  {
    m.Keys == {"public_key", "agent_name", "version"}
              + (if g.anchor.Some? then {"anchor_source", "anchor_height", "anchor_hash", "anchor_time"} else {})
    && m["public_key"] == JString(lib.publicKey(key)) && m["agent_name"] == JString(g.agentName)
    && m["version"] == JString("1.0.0")
    && (g.anchor.Some? ==>
          var a := g.anchor.value;
          m["anchor_source"] == JString(a.source) && m["anchor_height"] == JNumber(Whole(ToDouble(a.height)))
          && m["anchor_hash"] == JString(a.hash) && m["anchor_time"] == JString(lib.format(a.time)))
  }

  lemma KnownParams(lib: Lib, m: map<string, GoValue>, key: Key, g: Genesis)
    requires m == GenesisEvent(lib, key, g).params.value
    ensures var j := Normal(lib.format, GoMap(m)).m;
            "public_key" in j && "agent_name" in j && "version" in j && j["public_key"] == JString(lib.publicKey(key))
            && j["agent_name"] == JString(g.agentName) && j["version"] == JString("1.0.0")
  {
    NormalAt(lib, m, "public_key");
    NormalAt(lib, m, "agent_name");
    NormalAt(lib, m, "version");
  }

  lemma AnchorParams(lib: Lib, m: map<string, GoValue>, key: Key, g: Genesis)
    requires m == GenesisEvent(lib, key, g).params.value && g.anchor.Some?
    ensures var j, a := Normal(lib.format, GoMap(m)).m, g.anchor.value;
            "anchor_source" in j && "anchor_height" in j && "anchor_hash" in j && "anchor_time" in j
            && j["anchor_source"] == JString(a.source) && j["anchor_height"] == JNumber(Whole(ToDouble(a.height)))
            && j["anchor_hash"] == JString(a.hash) && j["anchor_time"] == JString(lib.format(a.time))
  {
    NormalAt(lib, m, "anchor_source");
    NormalAt(lib, m, "anchor_height");
    NormalAt(lib, m, "anchor_hash");
    NormalAt(lib, m, "anchor_time");
  }

  lemma GenesisParams(lib: Lib, key: Key, g: Genesis)
    ensures var j := Normal(lib.format, Value(GenesisEvent(lib, key, g).params)); j.JObject? && Tells(lib, j.m, key, g)
  {
    var m := GenesisEvent(lib, key, g).params.value;
    NormalKeys(lib, m);
    KnownParams(lib, m, key, g);
    if g.anchor.Some? {
      AnchorParams(lib, m, key, g);
    }
  }

  /** Reading the genesis event back gives the public key, the agent and the anchor. */
  lemma GenesisReadsBack(lib: Lib, runs: seq<RunRecord>, rows: seq<Row>, key: Key, g: Genesis)
    requires Lawful(lib) && CreatedGenesis(lib, runs, rows, key, g, false, false).ok
    ensures var c := CreatedGenesis(lib, runs, rows, key, g, false, false);
            |c.rows| == |rows| + 1
            && var e := ReadRow(lib, c.rows[|rows|]);
               e.body.actor == "system" && e.body.eventType == "genesis" && e.body.methodName == "logryph:init"
               && var j := Normal(lib.format, Value(e.params)); j.JObject? && Tells(lib, j.m, key, g)
  {
    GenesisSigned(lib, key, g);
    GenesisParams(lib, key, g);
    StoreRoundTrip(lib, Signed(lib, key, GenesisEvent(lib, key, g)).value);
  }

  // ---------------------------------------------------------------- starts and restarts

  /** A start without faults: on an empty ledger it runs genesis; on a ledger with a run it
      goes on with that run and leaves the tables alone. Otherwise there is no processor. */
  lemma {:induction false} StartOutcome(lib: Lib, key: Key, ops: seq<Op>, start: Op)
    requires Lawful(lib) && start.Start?
    ensures var w := Life(lib, key, ops);
            var u := Do(lib, w, start);
            u.key == w.key && u.start == |u.rows| && w.rows <= u.rows
            && (|w.runs| != 0 || start.hasRunsFault ==> u.runs == w.runs && u.rows == w.rows && u.keys == w.keys)
            && (start.hasRunsFault ==> u.proc.None?)
            && (|w.runs| != 0 && !start.hasRunsFault ==>
                  u.proc == if start.getRunFault then None else Some(Running(w.runs[0].id, map[])))
            && (|w.runs| == 0 && !start.hasRunsFault ==>
                  (u.proc.Some? <==> CreatedGenesis(lib, [], [], w.key, start.g, start.runFault, start.eventFault).ok)
                  && (u.proc.Some? ==> u.proc == Some(Running(start.g.runID, map[])) && |u.rows| == 1))
  {
    LifeKeeps(lib, key, ops);
    StartFrom(lib, Life(lib, key, ops), start);
  }

  lemma StartFrom(lib: Lib, w: World, start: Op)
    requires Lawful(lib) && OneRun(lib, w) && start.Start?
    ensures var u := Started(lib, w, start);
            u.key == w.key && u.start == |u.rows| && w.rows <= u.rows
            && (|w.runs| != 0 || start.hasRunsFault ==> u.runs == w.runs && u.rows == w.rows && u.keys == w.keys)
            && (start.hasRunsFault ==> u.proc.None?)
            && (|w.runs| != 0 && !start.hasRunsFault ==>
                  u.proc == if start.getRunFault then None else Some(Running(w.runs[0].id, map[])))
            && (|w.runs| == 0 && !start.hasRunsFault ==>
                  (u.proc.Some? <==> CreatedGenesis(lib, [], [], w.key, start.g, start.runFault, start.eventFault).ok)
                  && (u.proc.Some? ==> u.proc == Some(Running(start.g.runID, map[])) && |u.rows| == 1))
  {
    if |w.runs| == 0 {
      assert w.runs == [];
    }
  }

  lemma HandledRow(lib: Lib, w: World, e: Event, f: Faults, n: Fresh, h: Faults)
    requires Lawful(lib) && OneRun(lib, w) && w.proc.Some? && Storable(w.rows, e, f)
    ensures var u := Do(lib, w, Handle(e, f, n, h));
            |u.rows| > |w.rows| && u.rows[..|w.rows|] == w.rows && |u.keys| > |w.rows| && u.keys[|w.rows|] == w.key
            && u.runs == w.runs && u.proc.Some?
            && var r := u.rows[|w.rows|];
               r.id == e.id && r.seqIndex == |w.rows| && r.runID == w.proc.value.runID && r.body == e.body
  {
    var op, proc := Handle(e, f, n, h), w.proc.value;
    var p := Process(lib, w.rows, proc.runID, proc.tasks, w.key, e, f, n, h);
    TaskRows.ProcessAdds(lib, w, op, p);
    FirstAdded(lib, w, op, p);
    assert Handled(lib, w, op).keys[|w.keys|] == w.key;
  }

  lemma FirstAdded(lib: Lib, w: World, op: Op, p: Processed)
    requires op.Handle? && w.proc.Some? && TaskRows.Comes(lib, w, op, p) && Storable(w.rows, op.e, op.f)
    ensures var added := TaskRows.AddedRows(lib, p);
            |added| >= 1 && (w.rows + added)[..|w.rows|] == w.rows && (w.rows + added)[|w.rows|] == added[0]
            && added[0].id == op.e.id && added[0].seqIndex == |w.rows| && added[0].runID == w.proc.value.runID
            && added[0].body == op.e.body
  {
  }

  lemma OnlyThisKey(lib: Lib, w: World, i: nat, publicKey: string)
    requires Lawful(lib) && OneRun(lib, w) && i < |w.rows|
    ensures VerifyEvent(lib, ReadRow(lib, w.rows[i]), publicKey) == Pass <==> publicKey == lib.publicKey(w.keys[i])
  {
    assert SealedAt(lib, w.rows, w.keys, i);
    HashOfValue(lib, ReadRow(lib, w.rows[i]));
  }

  /** A restart resumes the run: after any life with a run record, a start without faults
      and then a storable event put that event at the next index of the same run. */
  lemma {:induction false} RestartResumes(lib: Lib, key: Key, ops: seq<Op>, start: Op, e: Event, f: Faults, n: Fresh, h: Faults)
    requires Lawful(lib) && start.Start? && !start.hasRunsFault && !start.getRunFault
    requires var w := Life(lib, key, ops); |w.runs| != 0 && Storable(w.rows, e, f)
    ensures var w := Life(lib, key, ops);
            var u := Do(lib, Do(lib, w, start), Handle(e, f, n, h));
            u.proc.Some? && u.runs == w.runs && |u.rows| > |w.rows| && u.rows[..|w.rows|] == w.rows
            && u.rows[|w.rows|].id == e.id && u.rows[|w.rows|].seqIndex == |w.rows| && u.rows[|w.rows|].runID == w.runs[0].id
  {
    var w := Life(lib, key, ops);
    LifeKeeps(lib, key, ops);
    StartFrom(lib, w, start);
    DoKeeps(lib, w, start);
    HandledRow(lib, Do(lib, w, start), e, f, n, h);
  }

  // ---------------------------------------------------------------- key rotation

  /** A rotation takes effect: the tables stay, and the next event that is stored verifies
      under exactly the public key of the new key; if the new key could not be saved, of
      the old one. */
  lemma {:induction false} RotationTakesEffect(lib: Lib, key: Key, ops: seq<Op>, newKey: Key, saved: bool,
                                               e: Event, f: Faults, n: Fresh, h: Faults, publicKey: string)
    requires Lawful(lib)
    requires var w := Life(lib, key, ops); w.proc.Some? && Storable(w.rows, e, f)
    ensures var w := Life(lib, key, ops);
            var v := Do(lib, w, Rotate(newKey, saved));
            var u := Do(lib, v, Handle(e, f, n, h));
            v.rows == w.rows && v.runs == w.runs && v.proc == w.proc && |u.rows| > |w.rows|
            && (VerifyEvent(lib, ReadRow(lib, u.rows[|w.rows|]), publicKey) == Pass
                <==> publicKey == lib.publicKey(if saved then newKey else w.key))
  {
    var w := Life(lib, key, ops);
    var v := Do(lib, w, Rotate(newKey, saved));
    LifeKeeps(lib, key, ops);
    DoKeeps(lib, w, Rotate(newKey, saved));
    HandledRow(lib, v, e, f, n, h);
    var u := Do(lib, v, Handle(e, f, n, h));
    DoKeeps(lib, v, Handle(e, f, n, h));
    OnlyThisKey(lib, u, |w.rows|, publicKey);
  }
}
