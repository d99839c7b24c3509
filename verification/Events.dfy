/** Events, the payload that is hashed, and their form as rows of the store. */
module Events {
  import opened Codec
  import Doubles

  /** A Go map[string]interface{}: None is the nil map. */
  type Fields = Option<map<string, GoValue>>

  datatype Event = Event(
    id: string, runID: string, seqIndex: nat, time: Time, body: Body,
    params: Fields, response: Fields, seal: Seal)

  datatype Body = Body(
    actor: string, eventType: string, methodName: string, taskID: string, taskState: string,
    parentID: string, policyID: string, riskLevel: string)

  datatype Seal = Seal(prevHash: string, currentHash: string, signature: string)

  function Value(f: Fields): GoValue
  {
    if f.None? then GoNil else GoMap(f.value)
  }

  /** The fourteen hashed fields, in the map the writer builds. */
  function Payload(lib: Lib, e: Event): GoValue
  {
    GoMap(map[
      "id" := GoString(e.id),
      "run_id" := GoString(e.runID),
      "seq_index" := GoUint(e.seqIndex),
      "timestamp" := GoString(lib.format(e.time)),
      "actor" := GoString(e.body.actor),
      "event_type" := GoString(e.body.eventType),
      "method" := GoString(e.body.methodName),
      "params" := Value(e.params),
      "response" := Value(e.response),
      "task_id" := GoString(e.body.taskID),
      "task_state" := GoString(e.body.taskState),
      "parent_id" := GoString(e.body.parentID),
      "policy_id" := GoString(e.body.policyID),
      "risk_level" := GoString(e.body.riskLevel)])
  }

  predicate Expressible(e: Event)
  {
    Supported(Value(e.params)) && Supported(Value(e.response))
  }

  lemma PayloadSupported(lib: Lib, e: Event)
    ensures Supported(Payload(lib, e)) <==> Expressible(e)
  {
    var m := Payload(lib, e).m;
    assert m["params"] == Value(e.params) && m["response"] == Value(e.response);
    if Expressible(e) {
      forall k | k in m
        ensures Supported(m[k])
      {
      }
    }
  }

  /** The JSON that stands under a name in the hashed object. */
  function Named(lib: Lib, e: Event, name: string): Option<Json>
  {
    match name
    case "id" => Some(JString(e.id))
    case "run_id" => Some(JString(e.runID))
    case "seq_index" => Some(JNumber(Whole(ToDouble(e.seqIndex))))
    case "timestamp" => Some(JString(lib.format(e.time)))
    case "actor" => Some(JString(e.body.actor))
    case "event_type" => Some(JString(e.body.eventType))
    case "method" => Some(JString(e.body.methodName))
    case "params" => Some(Normal(lib.format, Value(e.params)))
    case "response" => Some(Normal(lib.format, Value(e.response)))
    case "task_id" => Some(JString(e.body.taskID))
    case "task_state" => Some(JString(e.body.taskState))
    case "parent_id" => Some(JString(e.body.parentID))
    case "policy_id" => Some(JString(e.body.policyID))
    case "risk_level" => Some(JString(e.body.riskLevel))
    case _ => None
  }

  lemma NormalAt(lib: Lib, m: map<string, GoValue>, k: string)
    requires k in m
    ensures var j := Normal(lib.format, GoMap(m)); k in j.m && j.m[k] == Normal(lib.format, m[k])
  {
  }

  lemma NormalKeys(lib: Lib, m: map<string, GoValue>)
    ensures Normal(lib.format, GoMap(m)).m.Keys == m.Keys
  {
  }

  lemma NamedInPayload(lib: Lib, e: Event, name: string)
    ensures name in Payload(lib, e).m <==> Named(lib, e, name).Some?
  {
  }

  lemma NamedValue(lib: Lib, e: Event, name: string)
    requires name in Payload(lib, e).m
    ensures Named(lib, e, name) == Some(Normal(lib.format, Payload(lib, e).m[name]))
  {
  }

  /** The hashed object has the fourteen names and no other, and under each the field of
      that name. */
  lemma PayloadSays(lib: Lib, e: Event, name: string)
    ensures var j := Normal(lib.format, Payload(lib, e));
            j.JObject? && Named(lib, e, name) == if name in j.m then Some(j.m[name]) else None
  {
    var m := Payload(lib, e).m;
    NamedInPayload(lib, e, name);
    NormalKeys(lib, m);
    if name in m {
      NamedValue(lib, e, name);
      NormalAt(lib, m, name);
    }
  }

  /** What two events must share to have the same payload: everything hashed, with
      the index as a double and maps as JSON. */
  predicate SameHashed(lib: Lib, e: Event, f: Event)
  {
    e.id == f.id && e.runID == f.runID && ToDouble(e.seqIndex) == ToDouble(f.seqIndex)
    && lib.format(e.time) == lib.format(f.time) && e.body == f.body
    && Normal(lib.format, Value(e.params)) == Normal(lib.format, Value(f.params))
    && Normal(lib.format, Value(e.response)) == Normal(lib.format, Value(f.response))
  }

  lemma PayloadField(lib: Lib, e: Event, f: Event, k: string)
    requires Normal(lib.format, Payload(lib, e)) == Normal(lib.format, Payload(lib, f))
    requires k in Payload(lib, e).m
    ensures k in Payload(lib, f).m
    ensures Normal(lib.format, Payload(lib, e).m[k]) == Normal(lib.format, Payload(lib, f).m[k])
  {
    var m, n := Payload(lib, e).m, Payload(lib, f).m;
    assert Normal(lib.format, Payload(lib, e)).m[k] == Normal(lib.format, m[k]);
    assert Normal(lib.format, Payload(lib, f)).m[k] == Normal(lib.format, n[k]);
  }

  lemma SamePayloadIds(lib: Lib, e: Event, f: Event)
    requires Normal(lib.format, Payload(lib, e)) == Normal(lib.format, Payload(lib, f))
    ensures e.id == f.id && e.runID == f.runID
  {
    PayloadField(lib, e, f, "id");
    PayloadField(lib, e, f, "run_id");
  }

  lemma SamePayloadOrder(lib: Lib, e: Event, f: Event)
    requires Normal(lib.format, Payload(lib, e)) == Normal(lib.format, Payload(lib, f))
    ensures ToDouble(e.seqIndex) == ToDouble(f.seqIndex) && lib.format(e.time) == lib.format(f.time)
  {
    PayloadField(lib, e, f, "seq_index");
    PayloadField(lib, e, f, "timestamp");
  }

  lemma SamePayloadSource(lib: Lib, e: Event, f: Event)
    requires Normal(lib.format, Payload(lib, e)) == Normal(lib.format, Payload(lib, f))
    ensures e.body.actor == f.body.actor && e.body.parentID == f.body.parentID
  {
    PayloadField(lib, e, f, "actor");
    PayloadField(lib, e, f, "parent_id");
  }

  lemma SamePayloadKind(lib: Lib, e: Event, f: Event)
    requires Normal(lib.format, Payload(lib, e)) == Normal(lib.format, Payload(lib, f))
    ensures e.body.eventType == f.body.eventType && e.body.methodName == f.body.methodName
  {
    PayloadField(lib, e, f, "event_type");
    PayloadField(lib, e, f, "method");
  }

  lemma SamePayloadTask(lib: Lib, e: Event, f: Event)
    requires Normal(lib.format, Payload(lib, e)) == Normal(lib.format, Payload(lib, f))
    ensures e.body.taskID == f.body.taskID && e.body.taskState == f.body.taskState
  {
    PayloadField(lib, e, f, "task_id");
    PayloadField(lib, e, f, "task_state");
  }

  lemma SamePayloadPolicy(lib: Lib, e: Event, f: Event)
    requires Normal(lib.format, Payload(lib, e)) == Normal(lib.format, Payload(lib, f))
    ensures e.body.policyID == f.body.policyID && e.body.riskLevel == f.body.riskLevel
  {
    PayloadField(lib, e, f, "policy_id");
    PayloadField(lib, e, f, "risk_level");
  }

  lemma SamePayloadFields(lib: Lib, e: Event, f: Event)
    requires Normal(lib.format, Payload(lib, e)) == Normal(lib.format, Payload(lib, f))
    ensures Normal(lib.format, Value(e.params)) == Normal(lib.format, Value(f.params))
    ensures Normal(lib.format, Value(e.response)) == Normal(lib.format, Value(f.response))
  {
    PayloadField(lib, e, f, "params");
    PayloadField(lib, e, f, "response");
  }

  lemma SameHashedSamePayload(lib: Lib, e: Event, f: Event)
    requires SameHashed(lib, e, f)
    ensures Normal(lib.format, Payload(lib, e)) == Normal(lib.format, Payload(lib, f))
  {
    var m, n := Payload(lib, e).m, Payload(lib, f).m;
    forall k | k in m
      ensures k in n && Normal(lib.format, m[k]) == Normal(lib.format, n[k])
    {
      SameHashedSameField(lib, e, f, k);
    }
    assert m.Keys == n.Keys;
    assert Normal(lib.format, Payload(lib, e)).m == Normal(lib.format, Payload(lib, f)).m;
  }

  lemma SameHashedSameField(lib: Lib, e: Event, f: Event, k: string)
    requires SameHashed(lib, e, f) && k in Payload(lib, e).m
    ensures k in Payload(lib, f).m && Normal(lib.format, Payload(lib, e).m[k]) == Normal(lib.format, Payload(lib, f).m[k])
  {
  }

  /** Two events have the same payload exactly when they agree on every hashed field. */
  lemma SamePayload(lib: Lib, e: Event, f: Event)
    ensures Normal(lib.format, Payload(lib, e)) == Normal(lib.format, Payload(lib, f)) <==> SameHashed(lib, e, f)
  {
    if Normal(lib.format, Payload(lib, e)) == Normal(lib.format, Payload(lib, f)) {
      SamePayloadIds(lib, e, f);
      SamePayloadOrder(lib, e, f);
      SamePayloadSource(lib, e, f);
      SamePayloadKind(lib, e, f);
      SamePayloadTask(lib, e, f);
      SamePayloadPolicy(lib, e, f);
      SamePayloadFields(lib, e, f);
    }
    if SameHashed(lib, e, f) {
      SameHashedSamePayload(lib, e, f);
    }
  }

  // ---------------------------------------------------------------- the hash of an event

  function HashOf(lib: Lib, e: Event): Option<string>
  {
    EventHash(lib, e.seal.prevHash, Payload(lib, e))
  }

  /** The bytes that are hashed. */
  function Input(lib: Lib, e: Event): string
  {
    e.seal.prevHash + lib.canonical(Normal(lib.format, Payload(lib, e)))
  }

  lemma HashOfValue(lib: Lib, e: Event)
    requires Lawful(lib) && |e.seal.prevHash| == 64
    ensures HashOf(lib, e) == if Expressible(e) then Some(lib.sha256(Input(lib, e))) else None
  {
    EventHashValue(lib, e.seal.prevHash, Payload(lib, e));
    PayloadSupported(lib, e);
  }

  /** The hash input determines the previous hash and every hashed field, and is
      determined by them. */
  lemma InputBinds(lib: Lib, e: Event, f: Event)
    requires Lawful(lib) && (|e.seal.prevHash| == |f.seal.prevHash| || ObjectTexts(lib))
    ensures Input(lib, e) == Input(lib, f) <==> e.seal.prevHash == f.seal.prevHash && SameHashed(lib, e, f)
  {
    var i, j := Normal(lib.format, Payload(lib, e)), Normal(lib.format, Payload(lib, f));
    if |e.seal.prevHash| == |f.seal.prevHash| {
      InputSplits(lib, e.seal.prevHash, i, f.seal.prevHash, j);
    } else {
      InputSplitsAnywhere(lib, e.seal.prevHash, i, f.seal.prevHash, j);
    }
    SamePayload(lib, e, f);
  }

  // ---------------------------------------------------------------- rows

  /** A row of the events table: times and maps are text. */
  datatype Row = Row(
    id: string, runID: string, seqIndex: nat, timestamp: string, body: Body,
    params: string, response: string, seal: Seal)

  function RowOf(lib: Lib, e: Event): Row
  {
    Row(e.id, e.runID, e.seqIndex, lib.format(e.time), e.body,
        lib.marshal(Value(e.params)), lib.marshal(Value(e.response)), e.seal)
  }

  /** A text column back to a map: "null", the empty text and anything that is not
      a JSON object leave the nil map. */
  function ReadFields(lib: Lib, text: string): Fields
  {
    if text == "" || text == "null" then None
    else match lib.unmarshal(text)
      case Some(JObject(m)) => Some(map k | k in m :: Loaded(m[k]))
      case _ => None
  }

  function ReadRow(lib: Lib, r: Row): Event
  {
    var time := match lib.parse(r.timestamp) case Some(t) => t case None => ZERO_TIME;
    Event(r.id, r.runID, r.seqIndex, time, r.body, ReadFields(lib, r.params), ReadFields(lib, r.response), r.seal)
  }

  lemma FieldsSurvive(lib: Lib, f: Fields)
    requires Lawful(lib) && Supported(Value(f))
    ensures var g := ReadFields(lib, lib.marshal(Value(f)));
            (g.None? <==> f.None?) && Supported(Value(g))
            && Normal(lib.format, Value(g)) == Normal(lib.format, Value(f))
  {
    var j := Normal(lib.format, Value(f));
    assert lib.unmarshal(lib.marshal(Value(f))) == Some(j);
    if f.Some? {
      NormalLoaded(lib.format, j);
      assert Loaded(j).m == map k | k in j.m :: Loaded(j.m[k]);
    }
  }

  /** The hash survives the store: the event rebuilt from its row agrees with the
      original on every hashed field and has the same hash, though times come back
      from text and numbers as doubles; nil maps stay nil and empty maps stay maps. */
  lemma StoreRoundTrip(lib: Lib, e: Event)
    requires Lawful(lib) && Expressible(e)
    ensures var f := ReadRow(lib, RowOf(lib, e));
            SameHashed(lib, e, f) && Expressible(f) && f.seqIndex == e.seqIndex && f.seal == e.seal
            && (f.params.None? <==> e.params.None?) && (f.response.None? <==> e.response.None?)
    ensures |e.seal.prevHash| == 64 ==> HashOf(lib, ReadRow(lib, RowOf(lib, e))) == HashOf(lib, e)
  {
    FieldsSurvive(lib, e.params);
    FieldsSurvive(lib, e.response);
    var f := ReadRow(lib, RowOf(lib, e));
    if |e.seal.prevHash| == 64 {
      InputBinds(lib, e, f);
      HashOfValue(lib, e);
      HashOfValue(lib, f);
    }
  }

  /** A text column is a map exactly when it is the text of an object, and a time column
      that does not parse is the zero time. */
  lemma ColumnsRead(lib: Lib, r: Row)
    requires Lawful(lib)
    ensures var e := ReadRow(lib, r);
            (e.params.Some? <==> r.params !in ["", "null"] && lib.unmarshal(r.params).Some? && lib.unmarshal(r.params).value.JObject?)
            && (e.response.Some? <==> r.response !in ["", "null"] && lib.unmarshal(r.response).Some? && lib.unmarshal(r.response).value.JObject?)
            && (e.params.Some? ==> Normal(lib.format, Value(e.params)) == lib.unmarshal(r.params).value)
            && (e.response.Some? ==> Normal(lib.format, Value(e.response)) == lib.unmarshal(r.response).value)
            && e.time == if lib.parse(r.timestamp).Some? then lib.parse(r.timestamp).value else Instant(1, 0)
  {
    ColumnReads(lib, r.params);
    ColumnReads(lib, r.response);
  }

  lemma ColumnReads(lib: Lib, text: string)
    ensures var f := ReadFields(lib, text);
            (f.Some? <==> text !in ["", "null"] && lib.unmarshal(text).Some? && lib.unmarshal(text).value.JObject?)
            && (f.Some? ==> Normal(lib.format, Value(f)) == lib.unmarshal(text).value)
  {
    if ReadFields(lib, text).Some? {
      var j := lib.unmarshal(text).value;
      NormalLoaded(lib.format, j);
      assert Loaded(j) == Value(ReadFields(lib, text));
    }
  }

  /** A map as read back from the store. */
  ghost predicate FromJson(f: Fields)
  {
    f.None? || exists m: map<string, Json> :: Value(f) == Loaded(JObject(m))
  }

  lemma ReadFieldsFromJson(lib: Lib, text: string)
    ensures FromJson(ReadFields(lib, text))
  {
    var f := ReadFields(lib, text);
    if f.Some? {
      assert Value(f) == Loaded(JObject(lib.unmarshal(text).value.m));
    }
  }

  /** For events read from the store, agreeing on the hashed fields is agreeing on
      the fields themselves; for the index, unless both share their double with others. */
  lemma SameHashedIsSame(lib: Lib, e: Event, f: Event)
    requires SameHashed(lib, e, f)
    requires FromJson(e.params) && FromJson(f.params) && FromJson(e.response) && FromJson(f.response)
    ensures e.params == f.params && e.response == f.response
    ensures !Doubles.Ambiguous(e.seqIndex) || !Doubles.Ambiguous(f.seqIndex) ==> e.seqIndex == f.seqIndex
  {
    FieldsFromJsonEqual(lib, e.params, f.params);
    FieldsFromJsonEqual(lib, e.response, f.response);
    if !Doubles.Ambiguous(e.seqIndex) {
      Doubles.Alone(e.seqIndex, f.seqIndex);
    } else if !Doubles.Ambiguous(f.seqIndex) {
      Doubles.Alone(f.seqIndex, e.seqIndex);
    }
  }

  lemma FieldsFromJsonEqual(lib: Lib, f: Fields, g: Fields)
    requires FromJson(f) && FromJson(g) && Normal(lib.format, Value(f)) == Normal(lib.format, Value(g))
    ensures f == g
  {
    if f.Some? && g.Some? {
      var m: map<string, Json> :| Value(f) == Loaded(JObject(m));
      var n: map<string, Json> :| Value(g) == Loaded(JObject(n));
      NormalLoaded(lib.format, JObject(m));
      NormalLoaded(lib.format, JObject(n));
    }
  }

  /** Which indices the hash binds: some other index gives the same hash input exactly
      when the index shares its double with another one. */
  lemma IndexBoundExactly(lib: Lib, e: Event)
    requires Lawful(lib)
    ensures (exists m: nat :: m != e.seqIndex && Input(lib, e.(seqIndex := m)) == Input(lib, e))
            <==> Doubles.Ambiguous(e.seqIndex)
  {
    forall m: nat
      ensures Input(lib, e.(seqIndex := m)) == Input(lib, e) <==> ToDouble(m) == ToDouble(e.seqIndex)
    {
      InputBinds(lib, e.(seqIndex := m), e);
    }
    Doubles.SharedExactly(e.seqIndex);
  }

  /** Such an index can be changed in a stored event without changing its hash. */
  lemma AmbiguousIndexNotBound(lib: Lib, e: Event) returns (m: nat)
    requires Lawful(lib) && Doubles.Ambiguous(e.seqIndex)
    ensures m != e.seqIndex && HashOf(lib, e.(seqIndex := m)) == HashOf(lib, e)
  {
    m := Doubles.Shares(e.seqIndex);
    var f := e.(seqIndex := m);
    SamePayload(lib, e, f);
    PayloadSupported(lib, e);
    PayloadSupported(lib, f);
  }
}
