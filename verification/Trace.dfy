/** The forensic trace: the events of a task as a forest of parent links, walked with
    an explicit stack. */
module Trace {

  const MAX_NODES: nat := 100_000
  const MAX_CHILDREN: nat := 10_000

  /** What the walk looks at in an event. */
  datatype Item = Item(id: string, parentID: string)

  /** One printed line: the event, the text before its marker, and which marker. */
  datatype Frame = Frame(node: Item, prefix: string, isLast: bool)

  // ---------------------------------------------------------------- the forest, recursively

  /** The items with a given parent id, in order. */
  function Kids(es: seq<Item>, id: string): seq<Item>
  {
    if |es| == 0 then []
    else
      var rest := Kids(es[..|es| - 1], id);
      if es[|es| - 1].parentID == id then rest + [es[|es| - 1]] else rest
  }

  /** The children the walk follows: none below a node with too many. */
  function Children(es: seq<Item>, id: string): seq<Item>
  {
    if id == "" || |Kids(es, id)| > MAX_CHILDREN then [] else Kids(es, id)
  }

  function Frames(items: seq<Item>, prefix: string): (fs: seq<Frame>)
    ensures |fs| == |items|
    ensures forall i :: 0 <= i < |fs| ==> fs[i] == Frame(items[i], prefix, i == |items| - 1)
  {
    seq(|items|, i requires 0 <= i < |items| => Frame(items[i], prefix, i == |items| - 1))
  }

  function Indented(f: Frame): string
  {
    f.prefix + (if f.isLast then "    " else "|   ")
  }

  function ChildFrames(es: seq<Item>, f: Frame): seq<Frame>
  {
    Frames(Children(es, f.node.id), Indented(f))
  }

  function RootFrames(es: seq<Item>): seq<Frame>
  {
    Frames(Kids(es, ""), "")
  }

  datatype Tree = Tree(frame: Frame, kids: seq<Tree>)

  /** t is the tree of all items reached from its frame. */
  predicate IsTree(es: seq<Item>, t: Tree)
  {
    var fs := ChildFrames(es, t.frame);
    |t.kids| == |fs| && forall i :: 0 <= i < |fs| ==> t.kids[i].frame == fs[i] && IsTree(es, t.kids[i])
  }

  predicate IsForest(es: seq<Item>, fs: seq<Frame>, ts: seq<Tree>)
  {
    |ts| == |fs| && forall i :: 0 <= i < |fs| ==> ts[i].frame == fs[i] && IsTree(es, ts[i])
  }

  /** Recursive pre-order. */
  function PreOrder(t: Tree): seq<Frame>
  {
    [t.frame] + PreOrderAll(t.kids)
  }

  function PreOrderAll(ts: seq<Tree>): seq<Frame>
  {
    if |ts| == 0 then [] else PreOrder(ts[0]) + PreOrderAll(ts[1..])
  }

  /** lines is the pre-order of the forest the parent links define. */
  ghost predicate IsTrace(es: seq<Item>, lines: seq<Frame>)
  {
    exists ts :: IsForest(es, RootFrames(es), ts) && lines == PreOrderAll(ts)
  }

  lemma {:induction false} PreOrderCat(ts: seq<Tree>, us: seq<Tree>)
    ensures PreOrderAll(ts + us) == PreOrderAll(ts) + PreOrderAll(us)
  {
    if |ts| == 0 {
      assert ts + us == us;
    } else {
      assert (ts + us)[1..] == ts[1..] + us;
      PreOrderCat(ts[1..], us);
    }
  }

  lemma Unfold(waiting: seq<Tree>)
    requires |waiting| != 0
    ensures PreOrderAll(waiting) == [waiting[0].frame] + PreOrderAll(waiting[0].kids + waiting[1..])
  {
    PreOrderCat(waiting[0].kids, waiting[1..]);
  }

  // ---------------------------------------------------------------- parent chains

  predicate Distinct(es: seq<Item>)
  {
    forall i, j :: 0 <= i < j < |es| ==> es[i].id != es[j].id
  }

  /** The parent chain of e reaches a root in k steps, through nodes the walk follows. */
  ghost predicate RootedAt(es: seq<Item>, e: Item, k: nat)
    decreases k
  {
    e in es
    && if k == 0 then e.parentID == ""
       else exists p :: RootedAt(es, p, k - 1) && e in Children(es, p.id)
  }

  ghost predicate Rooted(es: seq<Item>, e: Item)
  {
    exists k: nat :: RootedAt(es, e, k)
  }

  lemma {:induction false} KidsMember(es: seq<Item>, id: string, e: Item)
    ensures e in Kids(es, id) <==> e in es && e.parentID == id
  {
    if |es| != 0 {
      assert es == es[..|es| - 1] + [es[|es| - 1]];
      KidsMember(es[..|es| - 1], id, e);
    }
  }

  lemma {:induction false} KidsDistinct(es: seq<Item>, id: string)
    requires Distinct(es)
    ensures Distinct(Kids(es, id))
    ensures |Kids(es, id)| <= |es|
  {
    if |es| != 0 {
      var init, last := es[..|es| - 1], es[|es| - 1];
      KidsDistinct(init, id);
      forall i | 0 <= i < |Kids(init, id)|
        ensures Kids(init, id)[i].id != last.id
      {
        KidsMember(init, id, Kids(init, id)[i]);
      }
    }
  }

  lemma SameIdSameItem(es: seq<Item>, e: Item, f: Item)
    requires Distinct(es) && e in es && f in es && e.id == f.id
    ensures e == f
  {
  }

  lemma ChildHasParent(es: seq<Item>, p: Item, e: Item)
    requires e in Children(es, p.id)
    ensures e in es && e.parentID == p.id != ""
  {
    KidsMember(es, p.id, e);
  }

  lemma ParentAt(es: seq<Item>, e: Item, k: nat) returns (p: Item)
    requires RootedAt(es, e, k) && k > 0
    ensures RootedAt(es, p, k - 1) && p in es && e.parentID == p.id != ""
  {
    p :| RootedAt(es, p, k - 1) && e in Children(es, p.id);
    ChildHasParent(es, p, e);
  }

  /** An item has one depth only. */
  lemma {:induction false} DepthUnique(es: seq<Item>, e: Item, j: nat, k: nat)
    requires Distinct(es) && RootedAt(es, e, j) && RootedAt(es, e, k)
    ensures j == k
    decreases j
  {
    if j > 0 {
      var p := ParentAt(es, e, j);
      if k > 0 {
        var q := ParentAt(es, e, k);
        SameIdSameItem(es, p, q);
        DepthUnique(es, p, j - 1, k - 1);
      }
    } else if k > 0 {
      var q := ParentAt(es, e, k);
    }
  }

  ghost predicate RootedBy(es: seq<Item>, e: Item, k: nat)
  {
    exists j: nat :: j <= k && RootedAt(es, e, j)
  }

  lemma NotAbove(es: seq<Item>, e: Item, k: nat, above: set<Item>)
    requires Distinct(es) && RootedAt(es, e, k + 1) && forall a :: a in above ==> RootedBy(es, a, k)
    ensures e !in above
  {
    if e in above {
      var j: nat :| j <= k && RootedAt(es, e, j);
      DepthUnique(es, e, j, k + 1);
    }
  }

  lemma RootedByMore(es: seq<Item>, e: Item, k: nat)
    requires RootedBy(es, e, k)
    ensures RootedBy(es, e, k + 1) && e in es
  {
  }

  /** The item and its ancestors: k + 1 different items. */
  lemma {:induction false} Ancestors(es: seq<Item>, e: Item, k: nat) returns (s: set<Item>)
    requires Distinct(es) && RootedAt(es, e, k)
    ensures |s| == k + 1 && forall a :: a in s ==> RootedBy(es, a, k)
    decreases k
  {
    assert k <= k && RootedAt(es, e, k);
    if k == 0 {
      s := {e};
    } else {
      var p :| RootedAt(es, p, k - 1) && e in Children(es, p.id);
      var above := Ancestors(es, p, k - 1);
      NotAbove(es, e, k - 1, above);
      s := above + {e};
      forall a | a in above
        ensures RootedBy(es, a, k)
      {
        RootedByMore(es, a, k - 1);
      }
    }
  }

  lemma {:induction false} SetOfItems(es: seq<Item>, s: set<Item>)
    requires forall a :: a in s ==> a in es
    ensures |s| <= |es|
  {
    if |es| == 0 {
      assert s == {};
    } else {
      SetOfItems(es[..|es| - 1], s - {es[|es| - 1]});
    }
  }

  lemma DepthBound(es: seq<Item>, e: Item, k: nat)
    requires Distinct(es) && RootedAt(es, e, k)
    ensures k < |es|
  {
    var s := Ancestors(es, e, k);
    forall a | a in s
      ensures a in es
    {
      RootedByMore(es, a, k);
    }
    SetOfItems(es, s);
  }

  // ---------------------------------------------------------------- the forest exists

  /** The tree below a frame at depth d. */
  ghost function Grow(es: seq<Item>, f: Frame, d: nat): Tree
    decreases |es| - d
  {
    Tree(f, if d >= |es| then []
            else var fs := ChildFrames(es, f); seq(|fs|, i requires 0 <= i < |fs| => Grow(es, fs[i], d + 1)))
  }

  lemma {:induction false} GrowIsTree(es: seq<Item>, f: Frame, d: nat)
    requires Distinct(es) && RootedAt(es, f.node, d)
    ensures IsTree(es, Grow(es, f, d))
    decreases |es| - d
  {
    DepthBound(es, f.node, d);
    var fs := ChildFrames(es, f);
    forall i | 0 <= i < |fs|
      ensures IsTree(es, Grow(es, fs[i], d + 1))
    {
      assert fs[i].node in Children(es, f.node.id);
      ChildHasParent(es, f.node, fs[i].node);
      GrowIsTree(es, fs[i], d + 1);
    }
  }

  /** The parent links of distinct events always define a finite forest below the roots. */
  lemma ForestExists(es: seq<Item>) returns (ts: seq<Tree>)
    requires Distinct(es)
    ensures IsForest(es, RootFrames(es), ts)
  {
    var fs := RootFrames(es);
    ts := seq(|fs|, i requires 0 <= i < |fs| => Grow(es, fs[i], 0));
    forall i | 0 <= i < |fs|
      ensures IsTree(es, Grow(es, fs[i], 0))
    {
      assert fs[i].node in Kids(es, "");
      KidsMember(es, "", fs[i].node);
      GrowIsTree(es, fs[i], 0);
    }
  }

  // ---------------------------------------------------------------- each event once

  predicate NoRepeat(fs: seq<Frame>)
  {
    forall i, j :: 0 <= i < j < |fs| ==> fs[i].node.id != fs[j].node.id
  }

  predicate Visited(fs: seq<Frame>, id: string)
  {
    exists i :: 0 <= i < |fs| && fs[i].node.id == id
  }

  /** f is a root, or its parent has been visited. */
  predicate Follows(es: seq<Item>, visited: seq<Frame>, f: Frame)
  {
    f.node in es && (f.node.parentID != "" ==> Visited(visited, f.node.parentID))
  }

  lemma Regroup(a: seq<Frame>, b: seq<Frame>, c: seq<Frame>)
    ensures a + (b + c) == a + b + c
  {
  }

  /** A state of the walk: visited lines and waiting trees, next first. */
  predicate WalkState(es: seq<Item>, visited: seq<Frame>, waiting: seq<Tree>)
  {
    NoRepeat(visited + Heads(waiting))
    && (forall i :: 0 <= i < |visited| ==> Follows(es, visited, visited[i]))
    && (forall i :: 0 <= i < |waiting| ==> Follows(es, visited, waiting[i].frame) && IsTree(es, waiting[i]))
  }

  function Heads(ts: seq<Tree>): (fs: seq<Frame>)
    ensures |fs| == |ts| && forall i :: 0 <= i < |fs| ==> fs[i] == ts[i].frame
  {
    seq(|ts|, i requires 0 <= i < |ts| => ts[i].frame)
  }

  lemma VisitedMore(fs: seq<Frame>, f: Frame, id: string)
    ensures Visited(fs + [f], id) <==> Visited(fs, id) || f.node.id == id
  {
    if Visited(fs, id) {
      var i :| 0 <= i < |fs| && fs[i].node.id == id;
      assert (fs + [f])[i].node.id == id;
    }
    if f.node.id == id {
      assert (fs + [f])[|fs|].node.id == id;
    }
  }

  lemma NextIsNew(es: seq<Item>, visited: seq<Frame>, waiting: seq<Tree>)
    requires WalkState(es, visited, waiting) && |waiting| != 0
    ensures !Visited(visited, waiting[0].frame.node.id)
  {
    var all := visited + Heads(waiting);
    assert all[|visited|] == waiting[0].frame;
    assert forall i :: 0 <= i < |visited| ==> all[i] == visited[i];
  }

  /** A child of the next node has not been met: its parent is that node alone. */
  lemma ChildIsNew(es: seq<Item>, visited: seq<Frame>, waiting: seq<Tree>, c: nat, k: nat)
    requires Distinct(es) && WalkState(es, visited, waiting) && |waiting| != 0
    requires c < |waiting[0].kids| && k < |visited| + |waiting|
    ensures waiting[0].kids[c].frame.node.id != (visited + Heads(waiting))[k].node.id
    ensures Follows(es, visited + [waiting[0].frame], waiting[0].kids[c].frame)
  {
    var t := waiting[0];
    var child, met := t.kids[c].frame.node, (visited + Heads(waiting))[k];
    assert t.kids[c].frame == ChildFrames(es, t.frame)[c];
    assert child in Children(es, t.frame.node.id);
    ChildHasParent(es, t.frame.node, child);
    VisitedMore(visited, t.frame, child.parentID);
    if k < |visited| {
      assert met == visited[k];
    } else {
      assert met == waiting[k - |visited|].frame;
    }
    assert Follows(es, visited, met);
    if child.id == met.node.id {
      SameIdSameItem(es, child, met.node);
      NextIsNew(es, visited, waiting);
    }
  }

  lemma KidsNoRepeat(es: seq<Item>, t: Tree)
    requires Distinct(es) && IsTree(es, t)
    ensures NoRepeat(Heads(t.kids))
  {
    KidsDistinct(es, t.frame.node.id);
    var fs := ChildFrames(es, t.frame);
    assert Distinct(Children(es, t.frame.node.id));
    assert forall i :: 0 <= i < |fs| ==> fs[i].node == Children(es, t.frame.node.id)[i] && Heads(t.kids)[i] == fs[i];
  }

  lemma NoRepeatStep(es: seq<Item>, visited: seq<Frame>, waiting: seq<Tree>)
    requires Distinct(es) && WalkState(es, visited, waiting) && |waiting| != 0
    ensures NoRepeat(visited + [waiting[0].frame] + Heads(waiting[0].kids + waiting[1..]))
  {
    var t, before := waiting[0], visited + Heads(waiting);
    KidsNoRepeat(es, t);
    var kids, rest := Heads(t.kids), Heads(waiting[1..]);
    var after := visited + [t.frame] + Heads(t.kids + waiting[1..]);
    assert Heads(t.kids + waiting[1..]) == kids + rest && Heads(waiting) == [t.frame] + rest;
    Regroup(visited + [t.frame], kids, rest);
    Regroup(visited, [t.frame], rest);
    forall i, c | 0 <= i < |before| && 0 <= c < |kids|
      ensures before[i].node.id != kids[c].node.id
    {
      ChildIsNew(es, visited, waiting, c, i);
    }
    InsertNoRepeat(visited + [t.frame], kids, rest);
  }

  lemma InsertNoRepeat(a: seq<Frame>, b: seq<Frame>, c: seq<Frame>)
    requires NoRepeat(a + c) && NoRepeat(b)
    requires forall i, j :: 0 <= i < |a + c| && 0 <= j < |b| ==> (a + c)[i].node.id != b[j].node.id
    ensures NoRepeat(a + b + c)
  {
    var all := a + b + c;
    forall i, j | 0 <= i < j < |all|
      ensures all[i].node.id != all[j].node.id
    {
      var i' := if i < |a| then i else i - |b|;
      var j' := if j < |a| then j else j - |b|;
      if i < |a| || |a| + |b| <= i {
        assert all[i] == (a + c)[i'];
      } else {
        assert all[i] == b[i - |a|];
      }
      if j < |a| || |a| + |b| <= j {
        assert all[j] == (a + c)[j'];
      } else {
        assert all[j] == b[j - |a|];
      }
    }
  }

  lemma WalkStep(es: seq<Item>, visited: seq<Frame>, waiting: seq<Tree>)
    requires Distinct(es) && WalkState(es, visited, waiting) && |waiting| != 0
    ensures WalkState(es, visited + [waiting[0].frame], waiting[0].kids + waiting[1..])
  {
    var t := waiting[0];
    var visited', waiting' := visited + [t.frame], t.kids + waiting[1..];
    NoRepeatStep(es, visited, waiting);
    forall i | 0 <= i < |visited'|
      ensures Follows(es, visited', visited'[i])
    {
      assert visited'[i] == if i < |visited| then visited[i] else t.frame;
      assert Follows(es, visited, visited'[i]);
      VisitedMore(visited, t.frame, visited'[i].node.parentID);
    }
    forall i | 0 <= i < |waiting'|
      ensures Follows(es, visited', waiting'[i].frame) && IsTree(es, waiting'[i])
    {
      if i < |t.kids| {
        ChildIsNew(es, visited, waiting, i, 0);
      } else {
        assert waiting'[i] == waiting[i - |t.kids| + 1];
        assert Follows(es, visited, waiting'[i].frame);
        VisitedMore(visited, t.frame, waiting'[i].frame.node.parentID);
      }
    }
  }

  /** Whatever is visited and still to be visited names each event once. */
  lemma {:induction false} WalkNoRepeat(es: seq<Item>, visited: seq<Frame>, waiting: seq<Tree>)
    requires Distinct(es) && WalkState(es, visited, waiting)
    ensures var all := visited + PreOrderAll(waiting);
            NoRepeat(all) && forall i :: 0 <= i < |all| ==> Follows(es, all, all[i])
    decreases |PreOrderAll(waiting)|
  {
    if |waiting| == 0 {
      assert visited + PreOrderAll(waiting) == visited;
      assert visited + Heads(waiting) == visited;
    } else {
      var t := waiting[0];
      Unfold(waiting);
      Regroup(visited, [t.frame], PreOrderAll(t.kids + waiting[1..]));
      WalkStep(es, visited, waiting);
      WalkNoRepeat(es, visited + [t.frame], t.kids + waiting[1..]);
    }
  }

  lemma {:induction false} ItemsOf(es: seq<Item>, fs: seq<Frame>)
    requires NoRepeat(fs) && forall i :: 0 <= i < |fs| ==> fs[i].node in es
    ensures |fs| <= |es|
  {
    var s := set i | 0 <= i < |fs| :: fs[i].node;
    FramesAreSet(fs);
    SetOfItems(es, s);
  }

  lemma {:induction false} FramesAreSet(fs: seq<Frame>)
    requires NoRepeat(fs)
    ensures |set i | 0 <= i < |fs| :: fs[i].node| == |fs|
  {
    if |fs| != 0 {
      var init, last := fs[..|fs| - 1], fs[|fs| - 1];
      FramesAreSet(init);
      var s, t := set i | 0 <= i < |fs| :: fs[i].node, set i | 0 <= i < |init| :: init[i].node;
      assert forall i :: 0 <= i < |init| ==> init[i] == fs[i];
      assert s == t + {last.node};
      assert last.node !in t;
    }
  }

  /** The pre-order of the forest names each event at most once, so it is no longer
      than the list of events. */
  lemma ForestNoRepeat(es: seq<Item>, ts: seq<Tree>)
    requires Distinct(es) && IsForest(es, RootFrames(es), ts)
    ensures NoRepeat(PreOrderAll(ts)) && |PreOrderAll(ts)| <= |es|
  {
    KidsDistinct(es, "");
    var fs := RootFrames(es);
    assert [] + Heads(ts) == fs;
    forall i | 0 <= i < |ts|
      ensures Follows(es, [], ts[i].frame)
    {
      assert fs[i].node in Kids(es, "");
      KidsMember(es, "", fs[i].node);
    }
    WalkNoRepeat(es, [], ts);
    assert [] + PreOrderAll(ts) == PreOrderAll(ts);
    assert forall i :: 0 <= i < |PreOrderAll(ts)| ==> Follows(es, PreOrderAll(ts), PreOrderAll(ts)[i]);
    ItemsOf(es, PreOrderAll(ts));
  }

  // ---------------------------------------------------------------- exactly the rooted events

  /** The line is indented by four characters per ancestor. */
  ghost predicate Placed(es: seq<Item>, f: Frame)
  {
    exists k: nat :: RootedAt(es, f.node, k) && |f.prefix| == 4 * k
  }

  lemma {:induction false} TreePlaced(es: seq<Item>, t: Tree, d: nat)
    requires IsTree(es, t) && RootedAt(es, t.frame.node, d) && |t.frame.prefix| == 4 * d
    ensures forall f :: f in PreOrder(t) ==> Placed(es, f)
    decreases t, 1
  {
    var fs := ChildFrames(es, t.frame);
    forall i | 0 <= i < |fs|
      ensures RootedAt(es, fs[i].node, d + 1) && |fs[i].prefix| == 4 * (d + 1)
    {
      assert fs[i].node in Children(es, t.frame.node.id);
      ChildHasParent(es, t.frame.node, fs[i].node);
    }
    TreesPlaced(es, t.kids, d + 1);
    assert Placed(es, t.frame);
  }

  lemma {:induction false} TreesPlaced(es: seq<Item>, ts: seq<Tree>, d: nat)
    requires forall i :: 0 <= i < |ts| ==>
               IsTree(es, ts[i]) && RootedAt(es, ts[i].frame.node, d) && |ts[i].frame.prefix| == 4 * d
    ensures forall f :: f in PreOrderAll(ts) ==> Placed(es, f)
    decreases ts, 0
  {
    if |ts| != 0 {
      TreePlaced(es, ts[0], d);
      TreesPlaced(es, ts[1..], d);
    }
  }

  /** The pre-order is closed under children. */
  lemma {:induction false} TreeClosed(es: seq<Item>, t: Tree, f: Frame, c: Frame)
    requires IsTree(es, t) && f in PreOrder(t) && c in ChildFrames(es, f)
    ensures c in PreOrder(t)
    decreases t, 1
  {
    if f == t.frame {
      var i :| 0 <= i < |t.kids| && t.kids[i].frame == c;
      HeadIn(t.kids, i);
    } else {
      TreesClosed(es, t.kids, f, c);
    }
  }

  lemma {:induction false} TreesClosed(es: seq<Item>, ts: seq<Tree>, f: Frame, c: Frame)
    requires (forall i :: 0 <= i < |ts| ==> IsTree(es, ts[i])) && f in PreOrderAll(ts) && c in ChildFrames(es, f)
    ensures c in PreOrderAll(ts)
    decreases ts, 0
  {
    if f in PreOrder(ts[0]) {
      TreeClosed(es, ts[0], f, c);
    } else {
      TreesClosed(es, ts[1..], f, c);
    }
  }

  lemma {:induction false} HeadIn(ts: seq<Tree>, i: nat)
    requires i < |ts|
    ensures ts[i].frame in PreOrderAll(ts)
  {
    if i == 0 {
      assert PreOrder(ts[0])[0] == ts[0].frame;
    } else {
      HeadIn(ts[1..], i - 1);
    }
  }

  ghost predicate Shown(fs: seq<Frame>, e: Item)
  {
    exists f :: f in fs && f.node == e
  }

  lemma ShownChild(es: seq<Item>, ts: seq<Tree>, p: Item, e: Item)
    requires IsForest(es, RootFrames(es), ts) && Shown(PreOrderAll(ts), p) && e in Children(es, p.id)
    ensures Shown(PreOrderAll(ts), e)
  {
    var f :| f in PreOrderAll(ts) && f.node == p;
    var i :| 0 <= i < |Children(es, p.id)| && Children(es, p.id)[i] == e;
    var c := ChildFrames(es, f)[i];
    assert c.node == e;
    TreesClosed(es, ts, f, c);
  }

  lemma {:induction false} RootedShown(es: seq<Item>, ts: seq<Tree>, e: Item, k: nat)
    requires IsForest(es, RootFrames(es), ts) && RootedAt(es, e, k)
    ensures Shown(PreOrderAll(ts), e)
    decreases k
  {
    if k == 0 {
      KidsMember(es, "", e);
      var i :| 0 <= i < |Kids(es, "")| && Kids(es, "")[i] == e;
      assert RootFrames(es)[i].node == e;
      HeadIn(ts, i);
    } else {
      var p :| RootedAt(es, p, k - 1) && e in Children(es, p.id);
      RootedShown(es, ts, p, k - 1);
      ShownChild(es, ts, p, e);
    }
  }

  /** The pre-order of the forest shows exactly the events whose parent chain reaches a
      root, each indented four characters per ancestor. */
  lemma ForestShowsRooted(es: seq<Item>, ts: seq<Tree>)
    requires IsForest(es, RootFrames(es), ts)
    ensures forall e :: Rooted(es, e) <==> Shown(PreOrderAll(ts), e)
    ensures forall f :: f in PreOrderAll(ts) ==> Placed(es, f)
  {
    var fs := RootFrames(es);
    forall i | 0 <= i < |ts|
      ensures RootedAt(es, ts[i].frame.node, 0) && |ts[i].frame.prefix| == 0
    {
      assert fs[i].node in Kids(es, "");
      KidsMember(es, "", fs[i].node);
    }
    TreesPlaced(es, ts, 0);
    forall e | Rooted(es, e)
      ensures Shown(PreOrderAll(ts), e)
    {
      var k: nat :| RootedAt(es, e, k);
      RootedShown(es, ts, e, k);
    }
  }

  /** When no node has more than 10000 children the chain is the plain one: an event is
      rooted exactly when it is a root or its parent is rooted. */
  lemma RootedPlain(es: seq<Item>, e: Item)
    requires e in es && forall p :: p in es ==> p.id != "" && |Kids(es, p.id)| <= 10_000
    ensures Rooted(es, e) <==> e.parentID == "" || exists p :: p in es && p.id == e.parentID && Rooted(es, p)
  {
    if e.parentID == "" {
      assert RootedAt(es, e, 0);
    } else {
      if Rooted(es, e) {
        var k: nat :| RootedAt(es, e, k);
        var p :| RootedAt(es, p, k - 1) && e in Children(es, p.id);
        ChildHasParent(es, p, e);
      }
      if p :| p in es && p.id == e.parentID && Rooted(es, p) {
        var k: nat :| RootedAt(es, p, k);
        KidsMember(es, p.id, e);
        assert e in Children(es, p.id);
        assert RootedAt(es, e, k + 1);
      }
    }
  }

  // ---------------------------------------------------------------- order and drawing

  /** Siblings keep the order of the event list, and none is left out. */
  lemma {:induction false} KidsInOrder(es: seq<Item>, id: string) returns (at: seq<nat>)
    ensures |at| == |Kids(es, id)| && forall i :: 0 <= i < |at| ==> at[i] < |es| && Kids(es, id)[i] == es[at[i]]
    ensures forall i, j :: 0 <= i < j < |at| ==> at[i] < at[j]
    ensures forall j :: 0 <= j < |es| && es[j].parentID == id ==> j in at
  {
    if |es| == 0 {
      at := [];
    } else {
      var n := |es| - 1;
      at := KidsInOrder(es[..n], id);
      if es[n].parentID == id {
        at := at + [n];
      }
    }
  }

  /** The items among which item k of a path stands. */
  function Siblings(es: seq<Item>, path: seq<Item>, k: nat): seq<Item>
    requires k < |path|
  {
    if k == 0 then Kids(es, "") else Children(es, path[k - 1].id)
  }

  predicate LastChild(es: seq<Item>, path: seq<Item>, k: nat)
    requires k < |path|
  {
    var all := Siblings(es, path, k);
    |all| != 0 && path[k] == all[|all| - 1]
  }

  predicate StandsAmong(es: seq<Item>, path: seq<Item>, k: nat)
    requires k < |path|
  {
    path[k] in Siblings(es, path, k)
  }

  /** From a root down to an item. */
  predicate IsPath(es: seq<Item>, path: seq<Item>)
  {
    |path| != 0 && forall k :: 0 <= k < |path| ==> StandsAmong(es, path, k)
  }

  predicate BlockIs(es: seq<Item>, path: seq<Item>, prefix: string, k: nat)
    requires k < |path| && 4 * k + 4 <= |prefix|
  {
    prefix[4 * k..4 * k + 4] == if LastChild(es, path, k) then "    " else "|   "
  }

  /** The line is drawn for the end of the path: below an ancestor that is a last child
      there is blank space, below any other a bar; the marker says whether the item itself
      is a last child. */
  predicate Draws(es: seq<Item>, path: seq<Item>, f: Frame)
  {
    IsPath(es, path) && f.node == path[|path| - 1] && |f.prefix| == 4 * (|path| - 1)
    && (forall k :: 0 <= k < |path| - 1 ==> BlockIs(es, path, f.prefix, k))
    && (f.isLast <==> LastChild(es, path, |path| - 1))
  }

  ghost predicate Drawn(es: seq<Item>, f: Frame)
  {
    exists path :: Draws(es, path, f)
  }

  lemma LastOfDistinct(items: seq<Item>, i: nat)
    requires Distinct(items) && i < |items|
    ensures items[i] == items[|items| - 1] <==> i == |items| - 1
  {
  }

  lemma RootDraws(es: seq<Item>, i: nat)
    requires Distinct(es) && i < |RootFrames(es)|
    ensures Draws(es, [RootFrames(es)[i].node], RootFrames(es)[i])
  {
    var items := Kids(es, "");
    KidsDistinct(es, "");
    LastOfDistinct(items, i);
    assert items[i] in items;
    assert StandsAmong(es, [items[i]], 0);
  }

  lemma PathLonger(es: seq<Item>, path: seq<Item>, e: Item, k: nat)
    requires k < |path|
    ensures LastChild(es, path + [e], k) <==> LastChild(es, path, k)
    ensures StandsAmong(es, path + [e], k) <==> StandsAmong(es, path, k)
  {
    assert Siblings(es, path + [e], k) == Siblings(es, path, k);
  }

  lemma BlockStays(es: seq<Item>, path: seq<Item>, f: Frame, e: Item, k: nat)
    requires Draws(es, path, f) && k < |path| - 1
    ensures BlockIs(es, path + [e], Indented(f), k)
  {
    assert BlockIs(es, path, f.prefix, k);
    PathLonger(es, path, e, k);
    assert Indented(f)[4 * k..4 * k + 4] == f.prefix[4 * k..4 * k + 4];
  }

  lemma BlockNew(es: seq<Item>, path: seq<Item>, f: Frame, e: Item)
    requires Draws(es, path, f)
    ensures BlockIs(es, path + [e], Indented(f), |path| - 1)
  {
    var k := |path| - 1;
    PathLonger(es, path, e, k);
    assert Indented(f)[4 * k..4 * k + 4] == if f.isLast then "    " else "|   ";
  }

  lemma ChildPath(es: seq<Item>, path: seq<Item>, e: Item)
    requires IsPath(es, path) && e in Children(es, path[|path| - 1].id)
    ensures IsPath(es, path + [e])
  {
    var longer := path + [e];
    forall k | 0 <= k < |longer|
      ensures StandsAmong(es, longer, k)
    {
      if k < |path| {
        assert StandsAmong(es, path, k);
        PathLonger(es, path, e, k);
      }
    }
  }

  lemma ChildBlocks(es: seq<Item>, path: seq<Item>, f: Frame, e: Item)
    requires Draws(es, path, f)
    ensures forall k :: 0 <= k < |path| ==> BlockIs(es, path + [e], Indented(f), k)
  {
    forall k | 0 <= k < |path|
      ensures BlockIs(es, path + [e], Indented(f), k)
    {
      if k < |path| - 1 {
        BlockStays(es, path, f, e, k);
      } else {
        BlockNew(es, path, f, e);
      }
    }
  }

  lemma ChildDraws(es: seq<Item>, path: seq<Item>, f: Frame, i: nat)
    requires Distinct(es) && Draws(es, path, f) && i < |ChildFrames(es, f)|
    ensures Draws(es, path + [ChildFrames(es, f)[i].node], ChildFrames(es, f)[i])
  {
    var items := Children(es, f.node.id);
    var e := items[i];
    KidsDistinct(es, f.node.id);
    LastOfDistinct(items, i);
    ChildPath(es, path, e);
    ChildBlocks(es, path, f, e);
    assert Siblings(es, path + [e], |path|) == items;
  }

  lemma {:induction false} TreeDrawn(es: seq<Item>, t: Tree, path: seq<Item>)
    requires Distinct(es) && IsTree(es, t) && Draws(es, path, t.frame)
    ensures forall f :: f in PreOrder(t) ==> Drawn(es, f)
    decreases t, 1
  {
    assert Drawn(es, t.frame);
    var fs := ChildFrames(es, t.frame);
    forall i | 0 <= i < |t.kids|
      ensures Draws(es, path + [t.kids[i].frame.node], t.kids[i].frame)
    {
      ChildDraws(es, path, t.frame, i);
    }
    TreesDrawn(es, t.kids, path);
  }

  lemma {:induction false} TreesDrawn(es: seq<Item>, ts: seq<Tree>, path: seq<Item>)
    requires Distinct(es)
    requires forall i :: 0 <= i < |ts| ==> IsTree(es, ts[i]) && Draws(es, path + [ts[i].frame.node], ts[i].frame)
    ensures forall f :: f in PreOrderAll(ts) ==> Drawn(es, f)
    decreases ts, 0
  {
    if |ts| != 0 {
      TreeDrawn(es, ts[0], path + [ts[0].frame.node]);
      TreesDrawn(es, ts[1..], path);
    }
  }

  /** Every line of a trace is drawn as the path from a root to its event demands. */
  lemma TraceIsDrawn(es: seq<Item>, lines: seq<Frame>, f: Frame)
    requires Distinct(es) && IsTrace(es, lines) && f in lines
    ensures exists path :: Draws(es, path, f)
  {
    var ts: seq<Tree> :| IsForest(es, RootFrames(es), ts) && lines == PreOrderAll(ts);
    forall i | 0 <= i < |ts|
      ensures Draws(es, [] + [ts[i].frame.node], ts[i].frame)
    {
      RootDraws(es, i);
      assert [] + [ts[i].frame.node] == [ts[i].frame.node];
    }
    TreesDrawn(es, ts, []);
    assert Drawn(es, f);
  }
}
