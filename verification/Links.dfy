/** Parent links between the tool calls of a task, and what they do to the trace. */
module Links {
  import opened Trace

  datatype Request = Request(task: string, id: string)

  /** A created tool_call event, as far as links go. */
  datatype ToolCall = ToolCall(task: string, item: Item)

  /** The interceptor's memory of the last tool call of each task. */
  class Interceptor {
    var lastEventByTask: map<string, string>
    ghost var created: seq<ToolCall>

    ghost predicate Valid()
      reads this
    {
      lastEventByTask == LastByTask(created)
    }

    constructor ()
      ensures Valid() && created == []
    {
      lastEventByTask := map[];
      created := [];
    }

    /** Links a new call to the last one of its task. The link reported is a fact about
        the calls created so far, not about the map. */
    method SubmitToolCallEvent(r: Request) returns (call: ToolCall)
      requires Valid()
      modifies this
      ensures Valid() && created == old(created) + [call]
      ensures call.task == r.task && call.item.id == r.id
      ensures call.item.parentID == ParentFor(old(created), r.task)
    {
      var parentID := "";
      LastByTaskIsLast(created, r.task);
      if r.task != "" {
        if r.task in lastEventByTask {
          parentID := lastEventByTask[r.task];
        }
        lastEventByTask := lastEventByTask[r.task := r.id];
      }
      call := ToolCall(r.task, Item(r.id, parentID));
      created := created + [call];
      assert created[..|created| - 1] == old(created);
    }
  }

  /** The id of the most recent call of a task; calls without a task are never linked. */
  function ParentFor(calls: seq<ToolCall>, task: string): string
  {
    if task == "" || |calls| == 0 then ""
    else if calls[|calls| - 1].task == task then calls[|calls| - 1].item.id
    else ParentFor(calls[..|calls| - 1], task)
  }

  function LastByTask(calls: seq<ToolCall>): map<string, string>
  {
    if |calls| == 0 then map[]
    else
      var last := calls[|calls| - 1];
      var m := LastByTask(calls[..|calls| - 1]);
      if last.task == "" then m else m[last.task := last.item.id]
  }

  lemma {:induction false} LastByTaskIsLast(calls: seq<ToolCall>, task: string)
    ensures task != "" ==> ParentFor(calls, task) == if task in LastByTask(calls) then LastByTask(calls)[task] else ""
    ensures "" !in LastByTask(calls)
  {
    if |calls| != 0 {
      LastByTaskIsLast(calls[..|calls| - 1], task);
    }
  }

  // ---------------------------------------------------------------- chains are linear

  /** Every call was linked when it was created. */
  predicate AllLinked(calls: seq<ToolCall>)
  {
    forall i :: 0 <= i < |calls| ==> calls[i].item.parentID == ParentFor(calls[..i], calls[i].task)
  }

  predicate DistinctCalls(calls: seq<ToolCall>)
  {
    (forall i :: 0 <= i < |calls| ==> calls[i].item.id != "")
    && forall i, j :: 0 <= i < j < |calls| ==> calls[i].item.id != calls[j].item.id
  }

  /** Handling requests one at a time links every call. */
  method HandleRequests(reqs: seq<Request>) returns (calls: seq<ToolCall>)
    ensures |calls| == |reqs| && AllLinked(calls)
    ensures forall i :: 0 <= i < |calls| ==> calls[i].task == reqs[i].task && calls[i].item.id == reqs[i].id
  {
    var icept := new Interceptor();
    calls := [];
    for i := 0 to |reqs|
      invariant icept.Valid() && fresh(icept) && icept.created == calls
      invariant |calls| == i && AllLinked(calls)
      invariant forall k :: 0 <= k < i ==> calls[k].task == reqs[k].task && calls[k].item.id == reqs[k].id
    {
      var call := icept.SubmitToolCallEvent(reqs[i]);
      assert forall k :: 0 <= k < i ==> (calls + [call])[..k] == calls[..k];
      assert (calls + [call])[..i] == calls;
      calls := calls + [call];
    }
  }

  /** A call outside any task has no parent, and no call is linked to it. */
  lemma {:induction false} TasklessUnlinked(calls: seq<ToolCall>, i: nat)
    requires AllLinked(calls) && DistinctCalls(calls) && i < |calls| && calls[i].task == ""
    ensures calls[i].item.parentID == "" && forall k :: 0 <= k < |calls| ==> calls[k].item.parentID != calls[i].item.id
  {
    forall k | 0 <= k < |calls|
      ensures calls[k].item.parentID != calls[i].item.id
    {
      if calls[k].item.parentID != "" {
        var p := ParentIsOfTask(calls[..k], calls[k].task);
        assert calls[p].task != "";
      }
    }
  }

  lemma {:induction false} ParentIsOfTask(calls: seq<ToolCall>, task: string) returns (p: nat)
    requires ParentFor(calls, task) != ""
    ensures p < |calls| && calls[p].task == task != "" && calls[p].item.id == ParentFor(calls, task)
  {
    if calls[|calls| - 1].task == task {
      p := |calls| - 1;
    } else {
      p := ParentIsOfTask(calls[..|calls| - 1], task);
    }
  }

  /** The calls of one task, in order. */
  function OfTask(calls: seq<ToolCall>, task: string): seq<Item>
  {
    if |calls| == 0 then []
    else
      var rest := OfTask(calls[..|calls| - 1], task);
      if calls[|calls| - 1].task == task then rest + [calls[|calls| - 1].item] else rest
  }

  predicate LinkAt(chain: seq<Item>, i: nat)
    requires i < |chain|
  {
    chain[i].id != "" && chain[i].parentID == if i == 0 then "" else chain[i - 1].id
  }

  /** A chain: a root, then each item the child of the one before. Following parents
      from item i visits i-1, ..., 0 and stops. */
  predicate IsChain(chain: seq<Item>)
  {
    Distinct(chain) && forall i :: 0 <= i < |chain| ==> LinkAt(chain, i)
  }

  lemma {:induction false} OfTaskMember(calls: seq<ToolCall>, task: string, i: nat) returns (k: nat)
    requires i < |OfTask(calls, task)|
    ensures k < |calls| && OfTask(calls, task)[i] == calls[k].item
  {
    var n := |calls| - 1;
    if i < |OfTask(calls[..n], task)| {
      k := OfTaskMember(calls[..n], task, i);
    } else {
      k := n;
    }
  }

  lemma {:induction false} ParentIsLastOfTask(calls: seq<ToolCall>, task: string)
    requires task != ""
    ensures var chain := OfTask(calls, task);
            ParentFor(calls, task) == if |chain| == 0 then "" else chain[|chain| - 1].id
  {
    if |calls| != 0 {
      ParentIsLastOfTask(calls[..|calls| - 1], task);
    }
  }

  /** The tool calls of a task form one chain, however the tasks are interleaved. */
  lemma {:induction false} TaskCallsFormChain(calls: seq<ToolCall>, task: string)
    requires task != "" && AllLinked(calls) && DistinctCalls(calls)
    ensures IsChain(OfTask(calls, task))
  {
    if |calls| != 0 {
      var n := |calls| - 1;
      var init := calls[..n];
      assert forall i :: 0 <= i < n ==> init[..i] == calls[..i];
      TaskCallsFormChain(init, task);
      if calls[n].task == task {
        ParentIsLastOfTask(init, task);
        var chain := OfTask(init, task);
        forall i | 0 <= i < |chain|
          ensures chain[i].id != calls[n].item.id
        {
          var k := OfTaskMember(init, task, i);
        }
        ExtendChain(chain, calls[n].item);
      }
    }
  }

  lemma ExtendChain(chain: seq<Item>, e: Item)
    requires IsChain(chain) && e.id != "" && (forall i :: 0 <= i < |chain| ==> chain[i].id != e.id)
    requires e.parentID == if |chain| == 0 then "" else chain[|chain| - 1].id
    ensures IsChain(chain + [e])
  {
    forall i | 0 <= i < |chain + [e]|
      ensures LinkAt(chain + [e], i)
    {
      if i < |chain| {
        assert LinkAt(chain, i);
      }
    }
  }

  // ---------------------------------------------------------------- lost events and the trace

  /** A list of events of the chain's task, as a trace may find it: some of the calls, in
      any order, among responses and completions, which have no parent and ids of their own. */
  predicate TaskEvents(es: seq<Item>, chain: seq<Item>)
  {
    Distinct(es)
    && forall e :: e in es ==> e in chain || (e.parentID == "" && forall i :: 0 <= i < |chain| ==> chain[i].id != e.id)
  }

  /** The parent of an item of a chain is the item before it. */
  lemma ParentInChain(chain: seq<Item>, i: nat, j: nat)
    requires IsChain(chain) && i < |chain| && j < |chain| && chain[j].parentID == chain[i].id
    ensures j == i + 1
  {
    assert LinkAt(chain, j) && LinkAt(chain, i);
    assert j > 0 && chain[j - 1].id == chain[i].id;
  }

  lemma OnlyChild(es: seq<Item>, chain: seq<Item>, i: nat, e: Item)
    requires IsChain(chain) && TaskEvents(es, chain) && i < |chain| && e in es && e.parentID == chain[i].id
    ensures i + 1 < |chain| && e == chain[i + 1]
  {
    assert LinkAt(chain, i);
    var j :| 0 <= j < |chain| && chain[j] == e;
    ParentInChain(chain, i, j);
  }

  lemma AtMostOneKid(es: seq<Item>, chain: seq<Item>, i: nat)
    requires IsChain(chain) && TaskEvents(es, chain) && i < |chain|
    ensures |Kids(es, chain[i].id)| <= 1
  {
    var kids := Kids(es, chain[i].id);
    KidsDistinct(es, chain[i].id);
    if |kids| > 1 {
      KidsMember(es, chain[i].id, kids[0]);
      KidsMember(es, chain[i].id, kids[1]);
      OnlyChild(es, chain, i, kids[0]);
      OnlyChild(es, chain, i, kids[1]);
    }
  }

  lemma {:induction false} UnbrokenIsRooted(es: seq<Item>, chain: seq<Item>, i: nat)
    requires IsChain(chain) && TaskEvents(es, chain) && i < |chain| && forall j :: 0 <= j <= i ==> chain[j] in es
    ensures RootedAt(es, chain[i], i)
    decreases i
  {
    assert LinkAt(chain, i);
    if i > 0 {
      UnbrokenIsRooted(es, chain, i - 1);
      assert LinkAt(chain, i - 1);
      AtMostOneKid(es, chain, i - 1);
      KidsMember(es, chain[i - 1].id, chain[i]);
      assert chain[i] in Children(es, chain[i - 1].id);
    }
  }

  /** A parent found in the list is the call before. */
  lemma ParentIsBefore(es: seq<Item>, chain: seq<Item>, i: nat, p: Item)
    requires IsChain(chain) && TaskEvents(es, chain) && i < |chain| && p in es && chain[i].parentID == p.id != ""
    ensures i > 0 && p == chain[i - 1]
  {
    assert LinkAt(chain, i);
    var j :| 0 <= j < |chain| && chain[j] == p;
    ParentInChain(chain, j, i);
  }

  lemma {:induction false} RootedIsUnbroken(es: seq<Item>, chain: seq<Item>, i: nat, k: nat)
    requires IsChain(chain) && TaskEvents(es, chain) && i < |chain| && RootedAt(es, chain[i], k)
    ensures k == i && forall j :: 0 <= j <= i ==> chain[j] in es
    decreases k
  {
    if k > 0 {
      var p :| RootedAt(es, p, k - 1) && chain[i] in Children(es, p.id);
      ChildHasParent(es, p, chain[i]);
      ParentIsBefore(es, chain, i, p);
      RootedIsUnbroken(es, chain, i - 1, k - 1);
    } else {
      assert LinkAt(chain, i) && (i > 0 ==> LinkAt(chain, i - 1));
    }
  }

  /** A task's trace and lost events: whatever responses and completions stand among them,
      the trace shows a tool call exactly when it and all earlier calls of its task reached
      the ledger, and then shows it indented by its position in the chain. */
  lemma TraceShowsUnbrokenPrefix(calls: seq<ToolCall>, task: string, es: seq<Item>, lines: seq<Frame>, i: nat)
    requires task != "" && AllLinked(calls) && DistinctCalls(calls) && i < |OfTask(calls, task)|
    requires TaskEvents(es, OfTask(calls, task)) && IsTrace(es, lines)
    ensures var chain := OfTask(calls, task);
            (Shown(lines, chain[i]) <==> forall j :: 0 <= j <= i ==> chain[j] in es)
            && forall f :: f in lines && f.node == chain[i] ==> |f.prefix| == 4 * i
  {
    var chain := OfTask(calls, task);
    TaskCallsFormChain(calls, task);
    var ts :| IsForest(es, RootFrames(es), ts) && lines == PreOrderAll(ts);
    ForestShowsRooted(es, ts);
    assert Rooted(es, chain[i]) <==> Shown(lines, chain[i]);
    if Rooted(es, chain[i]) {
      var k: nat :| RootedAt(es, chain[i], k);
      RootedIsUnbroken(es, chain, i, k);
    }
    if forall j :: 0 <= j <= i ==> chain[j] in es {
      UnbrokenIsRooted(es, chain, i);
    }
    forall f | f in lines && f.node == chain[i]
      ensures |f.prefix| == 4 * i
    {
      assert Placed(es, f);
      var k: nat :| RootedAt(es, f.node, k) && |f.prefix| == 4 * k;
      RootedIsUnbroken(es, chain, i, k);
    }
  }
}
