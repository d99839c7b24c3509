/** buildTree and printTraceTree as the loops they are. */
module TraceWalk {
  import opened Trace

  function Lookup(m: map<string, seq<Item>>, id: string): seq<Item>
  {
    if id in m then m[id] else []
  }

  /** The children map holds, under every id but the empty one, the items with that parent. */
  ghost predicate IsChildrenMap(es: seq<Item>, m: map<string, seq<Item>>)
  {
    forall id :: Lookup(m, id) == if id == "" then [] else Kids(es, id)
  }

  lemma ChildrenMapStep(es: seq<Item>, m: map<string, seq<Item>>, i: nat)
    requires i < |es| && IsChildrenMap(es[..i], m)
    ensures es[i].parentID == "" ==> IsChildrenMap(es[..i + 1], m)
    ensures es[i].parentID != "" ==>
              IsChildrenMap(es[..i + 1], m[es[i].parentID := Lookup(m, es[i].parentID) + [es[i]]])
    ensures Kids(es[..i + 1], "") == Kids(es[..i], "") + (if es[i].parentID == "" then [es[i]] else [])
  {
    var e := es[i];
    assert es[..i + 1][..i] == es[..i];
    if e.parentID != "" {
      var m' := m[e.parentID := Lookup(m, e.parentID) + [e]];
      forall id
        ensures Lookup(m', id) == if id == "" then [] else Kids(es[..i + 1], id)
      {
        assert Lookup(m, id) == if id == "" then [] else Kids(es[..i], id);
      }
    } else {
      forall id
        ensures Lookup(m, id) == if id == "" then [] else Kids(es[..i + 1], id)
      {
        assert Lookup(m, id) == if id == "" then [] else Kids(es[..i], id);
      }
    }
  }

  /** Splits the events into roots and children; too many events give neither. */
  method BuildTree(es: seq<Item>) returns (roots: seq<Item>, children: map<string, seq<Item>>)
    ensures |es| > MAX_NODES ==> roots == [] && children == map[]
    ensures |es| <= MAX_NODES ==> roots == Kids(es, "") && IsChildrenMap(es, children)
  {
    roots, children := [], map[];
    if |es| > MAX_NODES {
      return;
    }
    var i := 0;
    while i < MAX_NODES && i < |es|
      invariant 0 <= i <= |es|
      invariant roots == Kids(es[..i], "") && IsChildrenMap(es[..i], children)
    {
      ChildrenMapStep(es, children, i);
      var e := es[i];
      if e.parentID == "" {
        roots := roots + [e];
      } else {
        children := children[e.parentID := Lookup(children, e.parentID) + [e]];
      }
      i := i + 1;
    }
    assert es[..|es|] == es;
  }

  /** The stack, top last, holds the frames of the waiting trees, next first. */
  predicate Mirrors(stack: seq<Frame>, waiting: seq<Tree>)
  {
    |stack| == |waiting| && forall j :: 0 <= j < |stack| ==> stack[j] == waiting[|waiting| - 1 - j].frame
  }

  lemma {:induction false} OneLineEach(ts: seq<Tree>)
    ensures |ts| <= |PreOrderAll(ts)|
  {
    if |ts| != 0 {
      OneLineEach(ts[1..]);
    }
  }

  /** Pushes the frames of a list of siblings, last one first, so that the first comes
      out first. The bound on the stack never cuts anything off. */
  method PushSiblings(stack0: seq<Frame>, items: seq<Item>, prefix: string, bound: nat, ghost rest: seq<Tree>, ghost kids: seq<Tree>)
    returns (stack: seq<Frame>)
    requires Mirrors(stack0, rest) && Heads(kids) == Frames(items, prefix)
    requires |items| <= bound && |stack0| + |items| <= MAX_NODES
    ensures Mirrors(stack, kids + rest)
  {
    stack := stack0;
    var j := 0;
    while j < bound && j < |items|
      invariant 0 <= j <= |items|
      invariant Mirrors(stack, kids[|items| - j..] + rest)
    {
      var idx := |items| - 1 - j;
      if |stack| >= MAX_NODES {
        break;
      }
      assert Heads(kids)[idx] == kids[idx].frame == Frames(items, prefix)[idx];
      assert kids[idx..] == [kids[idx]] + kids[idx + 1..];
      stack := stack + [Frame(items[idx], prefix, idx == |items| - 1)];
      j := j + 1;
    }
    assert kids[0..] == kids;
  }

  lemma WaitingTrees(es: seq<Item>, waiting: seq<Tree>)
    requires |waiting| != 0 && forall i :: 0 <= i < |waiting| ==> IsTree(es, waiting[i])
    ensures var next := waiting[0].kids + waiting[1..]; forall i :: 0 <= i < |next| ==> IsTree(es, next[i])
  {
  }

  /** Replaces a visited node by its children on the stack. */
  method Descend(ghost es: seq<Item>, children: map<string, seq<Item>>, frame: Frame, stack0: seq<Frame>,
                 ghost t: Tree, ghost rest: seq<Tree>)
    returns (stack: seq<Frame>)
    requires IsChildrenMap(es, children) && IsTree(es, t) && frame == t.frame && Mirrors(stack0, rest)
    requires |PreOrderAll(t.kids + rest)| <= MAX_NODES
    ensures Mirrors(stack, t.kids + rest)
  {
    var newPrefix := frame.prefix;
    if frame.isLast {
      newPrefix := newPrefix + "    ";
    } else {
      newPrefix := newPrefix + "|   ";
    }
    OneLineEach(t.kids + rest);
    var kids := Lookup(children, frame.node.id);
    if |kids| > MAX_CHILDREN {
      assert t.kids == [] && t.kids + rest == rest;
      return stack0;
    }
    assert Heads(t.kids) == Frames(kids, newPrefix);
    stack := PushSiblings(stack0, kids, newPrefix, MAX_CHILDREN, rest, t.kids);
  }

  /** Between steps: what is printed and what the waiting trees will print make up the
      pre-order of the forest. */
  ghost predicate Progress(es: seq<Item>, forest: seq<Tree>, lines: seq<Frame>, stack: seq<Frame>, waiting: seq<Tree>)
  {
    Mirrors(stack, waiting) && (forall i :: 0 <= i < |waiting| ==> IsTree(es, waiting[i]))
    && lines + PreOrderAll(waiting) == PreOrderAll(forest)
  }

  /** Visiting the next tree and putting its children in its place is progress. */
  lemma ProgressOne(es: seq<Item>, forest: seq<Tree>, lines: seq<Frame>, stack: seq<Frame>, waiting: seq<Tree>, stack': seq<Frame>)
    requires Progress(es, forest, lines, stack, waiting) && |waiting| != 0
    requires Mirrors(stack', waiting[0].kids + waiting[1..])
    ensures Progress(es, forest, lines + [waiting[0].frame], stack', waiting[0].kids + waiting[1..])
  {
    Unfold(waiting);
    WaitingTrees(es, waiting);
    Regroup(lines, [waiting[0].frame], PreOrderAll(waiting[0].kids + waiting[1..]));
  }

  lemma NextFits(es: seq<Item>, forest: seq<Tree>, lines: seq<Frame>, stack: seq<Frame>, waiting: seq<Tree>)
    requires Progress(es, forest, lines, stack, waiting) && |waiting| != 0 && |PreOrderAll(forest)| <= MAX_NODES
    ensures |PreOrderAll(waiting[0].kids + waiting[1..])| <= MAX_NODES
    ensures stack[|stack| - 1] == waiting[0].frame && Mirrors(stack[..|stack| - 1], waiting[1..])
  {
    Unfold(waiting);
  }

  /** The walk with the explicit stack. lines is what gets printed, in order: the
      recursive pre-order of the forest that the parent links define. Neither the
      bound on steps nor the bound on the stack cuts anything off. */
  method PrintTraceTree(ghost es: seq<Item>, roots: seq<Item>, children: map<string, seq<Item>>) returns (lines: seq<Frame>)
    requires Distinct(es) && |es| <= MAX_NODES && roots == Kids(es, "") && IsChildrenMap(es, children)
    ensures IsTrace(es, lines)
  {
    ghost var forest := ForestExists(es);
    ForestNoRepeat(es, forest);
    KidsDistinct(es, "");
    assert Heads(forest) == RootFrames(es);
    var stack := PushSiblings([], roots, "", MAX_NODES, [], forest);
    ghost var waiting := forest + [];
    lines := [];
    assert waiting == forest;
    var processed := 0;
    while processed < MAX_NODES && |stack| != 0
      invariant processed == |lines| && Progress(es, forest, lines, stack, waiting)
    {
      NextFits(es, forest, lines, stack, waiting);
      var frame := stack[|stack| - 1];
      var below := Descend(es, children, frame, stack[..|stack| - 1], waiting[0], waiting[1..]);
      ProgressOne(es, forest, lines, stack, waiting, below);
      stack, lines, waiting := below, lines + [frame], waiting[0].kids + waiting[1..];
      processed := processed + 1;
    }
    OneLineEach(waiting);
    assert waiting == [];
  }

  const MAX_ROOTS: nat := 10_000

  /** The trace of a task. Unless there are more than 10000 roots, it prints, once each,
      exactly the events whose parent chain reaches a root, in pre-order, with a prefix
      of four characters per ancestor; more than 100000 events give an empty trace. */
  method TraceTask(es: seq<Item>) returns (ok: bool, lines: seq<Frame>)
    requires Distinct(es)
    ensures ok <==> |es| > 100_000 || |Kids(es, "")| <= 10_000
    ensures !ok || |es| > 100_000 ==> lines == []
    ensures ok && |es| <= 100_000 ==>
              NoRepeat(lines)
              && (forall e :: Rooted(es, e) <==> Shown(lines, e))
              && (forall f :: f in lines ==> Placed(es, f))
              && IsTrace(es, lines)
  {
    var roots, children := BuildTree(es);
    if |roots| > MAX_ROOTS {
      return false, [];
    }
    ok := true;
    ghost var walked := if |es| > MAX_NODES then [] else es;
    lines := PrintTraceTree(walked, roots, children);
    ghost var forest :| IsForest(walked, RootFrames(walked), forest) && lines == PreOrderAll(forest);
    ForestNoRepeat(walked, forest);
    ForestShowsRooted(walked, forest);
  }
}
