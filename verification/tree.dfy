/** Walks over the entry tree with an explicit stack: leaves, and the flat list that shows the
    active path first. */
module Tree {
  import opened ParentGraph

  datatype TreeNode = TreeNode(id: nat, children: seq<TreeNode>)

  datatype Flat = Flat(node: TreeNode, indent: nat)

  function Size(t: TreeNode): nat {
    1 + SizeAll(t.children)
  }

  function SizeAll(ts: seq<TreeNode>): nat {
    if ts == [] then 0 else Size(ts[0]) + SizeAll(ts[1..])
  }

  lemma {:induction false} SizeJoins(a: seq<TreeNode>, b: seq<TreeNode>)
    ensures SizeAll(a + b) == SizeAll(a) + SizeAll(b)
  {
    if a == [] {
      assert a + b == b;
    } else {
      assert (a + b)[1..] == a[1..] + b;
      SizeJoins(a[1..], b);
    }
  }

  lemma {:induction false} SizeReversed(a: seq<TreeNode>)
    ensures SizeAll(Reversed(a)) == SizeAll(a)
  {
    if a != [] {
      assert Reversed(a) == Reversed(a[1..]) + [a[0]];
      SizeReversed(a[1..]);
      SizeJoins(Reversed(a[1..]), [a[0]]);
    }
  }

  /** Popping a node and pushing its children leaves less to do. */
  lemma {:induction false} PoppedSize(front: seq<TreeNode>, node: TreeNode, more: seq<TreeNode>)
    requires more == node.children || more == Reversed(node.children)
    ensures SizeAll(front + more) < SizeAll(front + [node])
  {
    SizeJoins(front, more);
    SizeJoins(front, [node]);
    SizeReversed(node.children);
  }

  // ---- Leaves

  /** The leaves below a node, left to right. */
  function Leaves(t: TreeNode): seq<TreeNode> {
    if t.children == [] then [t] else LeavesAll(t.children)
  }

  function LeavesAll(ts: seq<TreeNode>): seq<TreeNode> {
    if ts == [] then [] else Leaves(ts[0]) + LeavesAll(ts[1..])
  }

  lemma {:induction false} LeavesJoin(a: seq<TreeNode>, b: seq<TreeNode>)
    ensures LeavesAll(a + b) == LeavesAll(a) + LeavesAll(b)
  {
    if a == [] {
      assert a + b == b;
    } else {
      assert (a + b)[1..] == a[1..] + b;
      LeavesJoin(a[1..], b);
    }
  }

  lemma ReversedSnoc<T>(front: seq<T>, last: T)
    ensures Reversed(front + [last]) == [last] + Reversed(front)
  {
  }

  lemma ReversedJoins<T>(a: seq<T>, b: seq<T>)
    ensures Reversed(a + b) == Reversed(b) + Reversed(a)
    ensures Reversed(Reversed(b)) == b
  {
  }

  /** collectLeaves: the explicit stack finds the leaves in the order recursion would. */
  method CollectLeaves(start: TreeNode, before: seq<TreeNode>) returns (leaves: seq<TreeNode>)
    ensures leaves == before + Leaves(start)
  {
    leaves := before;
    var pending := [start];
    assert Reversed(pending) == [start] && LeavesAll([start]) == Leaves(start) + LeavesAll([]);
    while pending != []
      invariant leaves + LeavesAll(Reversed(pending)) == before + Leaves(start)
      decreases SizeAll(pending)
    {
      ghost var had, todo := leaves, LeavesAll(Reversed(pending));
      var node, front := pending[|pending| - 1], pending[..|pending| - 1];
      assert pending == front + [node];
      StepLeaves(front, node);
      PoppedSize(front, node, Reversed(node.children));
      if node.children == [] {
        leaves := leaves + [node];
      }
      pending := front + Reversed(node.children);
      assert had + todo == leaves + LeavesAll(Reversed(pending));
    }
  }

  lemma StepLeaves(front: seq<TreeNode>, node: TreeNode)
    ensures LeavesAll(Reversed(front + [node])) ==
      (if node.children == [] then [node] else []) + LeavesAll(Reversed(front + Reversed(node.children)))
  {
    ReversedSnoc(front, node);
    ReversedJoins(front, Reversed(node.children));
    ReversedJoins(front, node.children);
    LeavesJoin(node.children, Reversed(front));
    assert ([node] + Reversed(front))[1..] == Reversed(front);
    assert node.children == [] ==> LeavesAll(node.children) == [];
  }

  /** graphLeaves, over the roots. */
  method GraphLeaves(roots: seq<TreeNode>) returns (leaves: seq<TreeNode>)
    ensures leaves == LeavesAll(roots)
  {
    leaves := [];
    var i := 0;
    while i < |roots|
      invariant i <= |roots| && leaves == LeavesAll(roots[..i])
    {
      assert roots[..i + 1] == roots[..i] + [roots[i]];
      LeavesJoin(roots[..i], [roots[i]]);
      assert LeavesAll([roots[i]]) == Leaves(roots[i]) + LeavesAll([]);
      leaves := CollectLeaves(roots[i], leaves);
      i := i + 1;
    }
    assert roots[..i] == roots;
  }

  // ---- Nodes of a forest

  /** The nodes, each before those below it. */
  function Nodes(t: TreeNode): seq<TreeNode> {
    [t] + NodesAll(t.children)
  }

  function NodesAll(ts: seq<TreeNode>): seq<TreeNode> {
    if ts == [] then [] else Nodes(ts[0]) + NodesAll(ts[1..])
  }

  lemma {:induction false} NodesJoin(a: seq<TreeNode>, b: seq<TreeNode>)
    ensures NodesAll(a + b) == NodesAll(a) + NodesAll(b)
  {
    if a == [] {
      assert a + b == b;
    } else {
      assert (a + b)[1..] == a[1..] + b;
      NodesJoin(a[1..], b);
    }
  }

  lemma {:induction false} NodeIn(ts: seq<TreeNode>, i: nat)
    requires i < |ts|
    ensures forall n :: n in Nodes(ts[i]) ==> n in NodesAll(ts)
    ensures ts[i] in NodesAll(ts)
  {
    assert ts[i] in Nodes(ts[i]);
    if i > 0 {
      NodeIn(ts[1..], i - 1);
    }
  }

  lemma {:induction false} NodeFrom(ts: seq<TreeNode>, n: TreeNode) returns (i: nat)
    requires n in NodesAll(ts)
    ensures i < |ts| && n in Nodes(ts[i])
  {
    i := 0;
    if n !in Nodes(ts[0]) {
      i := NodeFrom(ts[1..], n);
      i := i + 1;
    }
  }

  /** The leaves are the nodes without children. */
  lemma {:induction false} LeavesAre(ts: seq<TreeNode>, n: TreeNode)
    ensures n in LeavesAll(ts) <==> n in NodesAll(ts) && n.children == []
    decreases ts
  {
    if ts != [] {
      LeavesAre(ts[0].children, n);
      LeavesAre(ts[1..], n);
    }
  }

  // ---- Which nodes contain an active one

  predicate Contains(t: TreeNode, active: set<nat>) {
    t.id in active || exists i :: 0 <= i < |t.children| && Contains(t.children[i], active)
  }

  /** containsActive means: the subtree meets the active set. */
  lemma {:induction false} ContainsMeets(t: TreeNode, active: set<nat>)
    ensures Contains(t, active) <==> exists n :: n in Nodes(t) && n.id in active
  {
    forall i | 0 <= i < |t.children|
      ensures Contains(t.children[i], active) <==> exists n :: n in Nodes(t.children[i]) && n.id in active
      ensures forall n :: n in Nodes(t.children[i]) ==> n in Nodes(t)
    {
      ContainsMeets(t.children[i], active);
      NodeIn(t.children, i);
    }
    if exists n :: n in Nodes(t) && n.id in active {
      var n :| n in Nodes(t) && n.id in active;
      if n != t {
        var i := NodeFrom(t.children, n);
      }
    }
    assert t in Nodes(t);
  }

  /** Every child of a node on the list comes later on it, or is still pending. */
  ghost predicate ChildrenLater(traversal: seq<TreeNode>, pending: seq<TreeNode>) {
    forall i, c {:trigger ChildLater(traversal, pending, i, c)} ::
      0 <= i < |traversal| && c in traversal[i].children ==> ChildLater(traversal, pending, i, c)
  }

  ghost predicate ChildLater(traversal: seq<TreeNode>, pending: seq<TreeNode>, i: nat, c: TreeNode)
    requires i < |traversal|
  {
    c in traversal[i + 1..] || c in pending
  }

  lemma TraverseMore(traversal: seq<TreeNode>, front: seq<TreeNode>, node: TreeNode)
    requires ChildrenLater(traversal, front + [node])
    ensures ChildrenLater(traversal + [node], front + node.children)
  {
    var more := traversal + [node];
    forall i: nat, c | i < |more| && c in more[i].children
      ensures ChildLater(more, front + node.children, i, c)
    {
      if i < |traversal| {
        assert ChildLater(traversal, front + [node], i, c);
        assert more[i + 1..] == traversal[i + 1..] + [node];
      }
    }
  }

  /** The first loop of flattenTree: all nodes, each before its children. */
  method Traverse(roots: seq<TreeNode>) returns (traversal: seq<TreeNode>)
    ensures ChildrenLater(traversal, [])
    ensures forall r :: r in roots ==> r in traversal
  {
    traversal := [];
    var pending := roots;
    while pending != []
      invariant ChildrenLater(traversal, pending)
      invariant forall r :: r in roots ==> r in traversal || r in pending
      decreases SizeAll(pending)
    {
      var node, front := pending[|pending| - 1], pending[..|pending| - 1];
      assert pending == front + [node];
      TraverseMore(traversal, front, node);
      PoppedSize(front, node, node.children);
      traversal := traversal + [node];
      pending := front + node.children;
    }
  }

  ghost predicate Marked(marks: map<TreeNode, bool>, active: set<nat>) {
    forall n :: n in marks ==> marks[n] == Contains(n, active)
  }

  /** children.some(containsActive). */
  method SomeChild(node: TreeNode, marks: map<TreeNode, bool>, active: set<nat>) returns (some: bool)
    requires Marked(marks, active) && forall c :: c in node.children ==> c in marks
    ensures some <==> exists i :: 0 <= i < |node.children| && Contains(node.children[i], active)
  {
    some := false;
    var i := 0;
    while i < |node.children|
      invariant i <= |node.children|
      invariant some <==> exists k :: 0 <= k < i && Contains(node.children[k], active)
    {
      assert node.children[i] in node.children;
      some := some || marks[node.children[i]];
      i := i + 1;
    }
  }

  /** The second loop: from the last node back, children before parents. */
  method Mark(traversal: seq<TreeNode>, active: set<nat>) returns (marks: map<TreeNode, bool>)
    requires ChildrenLater(traversal, [])
    ensures Marked(marks, active) && forall n :: n in marks <==> n in traversal
  {
    marks := map[];
    var i := |traversal|;
    while i > 0
      invariant 0 <= i <= |traversal| && Marked(marks, active)
      invariant forall n :: n in marks <==> n in traversal[i..]
    {
      i := i - 1;
      var node := traversal[i];
      assert traversal[i..] == [node] + traversal[i + 1..];
      forall c | c in node.children
        ensures c in marks
      {
        assert ChildLater(traversal, [], i, c);
      }
      var some := SomeChild(node, marks, active);
      marks := marks[node := node.id in active || some];
    }
    assert traversal[0..] == traversal;
  }

  lemma {:induction false} TraversalHasAll(traversal: seq<TreeNode>, t: TreeNode)
    requires ChildrenLater(traversal, []) && t in traversal
    ensures forall n :: n in Nodes(t) ==> n in traversal
    decreases t
  {
    var k :| 0 <= k < |traversal| && traversal[k] == t;
    forall n | n in Nodes(t)
      ensures n in traversal
    {
      if n != t {
        var i := NodeFrom(t.children, n);
        assert ChildLater(traversal, [], k, t.children[i]);
        TraversalHasAll(traversal, t.children[i]);
      }
    }
  }

  // ---- The flat list

  /** A node and all below it, children with an active node first. */
  function Shown(t: TreeNode, indent: nat, active: set<nat>): seq<Flat> {
    [Flat(t, indent)] + ShownAll(t.children, ChildIndent(t, indent), active)
  }

  function ChildIndent(t: TreeNode, indent: nat): nat {
    if |t.children| > 1 then indent + 1 else indent
  }

  function ShownAll(ts: seq<TreeNode>, indent: nat, active: set<nat>): seq<Flat>
    decreases ts, 1
  {
    ShownWhere(ts, indent, active, true) + ShownWhere(ts, indent, active, false)
  }

  function ShownWhere(ts: seq<TreeNode>, indent: nat, active: set<nat>, contains: bool): seq<Flat>
    decreases ts, 0
  {
    if ts == [] then []
    else (if Contains(ts[0], active) == contains then Shown(ts[0], indent, active) else []) + ShownWhere(ts[1..], indent, active, contains)
  }

  /** Nodes in the order given. */
  function InOrder(ts: seq<TreeNode>, indent: nat, active: set<nat>): seq<Flat> {
    if ts == [] then [] else Shown(ts[0], indent, active) + InOrder(ts[1..], indent, active)
  }

  function Pending(stack: seq<Flat>, active: set<nat>): seq<Flat> {
    if stack == [] then []
    else
      var last := stack[|stack| - 1];
      Shown(last.node, last.indent, active) + Pending(stack[..|stack| - 1], active)
  }

  function Where(ts: seq<TreeNode>, active: set<nat>, contains: bool): seq<TreeNode> {
    if ts == [] then [] else (if Contains(ts[0], active) == contains then [ts[0]] else []) + Where(ts[1..], active, contains)
  }

  lemma {:induction false} WhereShown(ts: seq<TreeNode>, indent: nat, active: set<nat>, contains: bool)
    ensures InOrder(Where(ts, active, contains), indent, active) == ShownWhere(ts, indent, active, contains)
  {
    if ts != [] {
      var rest := Where(ts[1..], active, contains);
      WhereShown(ts[1..], indent, active, contains);
      if Contains(ts[0], active) == contains {
        assert ([ts[0]] + rest)[1..] == rest;
      } else {
        assert [] + rest == rest;
      }
    }
  }

  lemma {:induction false} InOrderJoins(a: seq<TreeNode>, b: seq<TreeNode>, indent: nat, active: set<nat>)
    ensures InOrder(a + b, indent, active) == InOrder(a, indent, active) + InOrder(b, indent, active)
  {
    if a == [] {
      assert a + b == b;
    } else {
      assert (a + b)[1..] == a[1..] + b;
      InOrderJoins(a[1..], b, indent, active);
    }
  }

  lemma {:induction false} WhereSize(ts: seq<TreeNode>, active: set<nat>)
    ensures SizeAll(Where(ts, active, true)) + SizeAll(Where(ts, active, false)) == SizeAll(ts)
  {
    if ts != [] {
      WhereSize(ts[1..], active);
      var c := Contains(ts[0], active);
      assert Where(ts, active, c) == [ts[0]] + Where(ts[1..], active, c);
      assert Where(ts, active, !c) == Where(ts[1..], active, !c);
      SizeJoins([ts[0]], Where(ts[1..], active, c));
      assert SizeAll([ts[0]]) == Size(ts[0]);
    }
  }

  /** sort by containsActive: stable, the active ones first. */
  method SortActive(ts: seq<TreeNode>, marks: map<TreeNode, bool>, ghost active: set<nat>)
      returns (sorted: seq<TreeNode>)
    requires Marked(marks, active) && forall t :: t in ts ==> t in marks
    ensures sorted == Where(ts, active, true) + Where(ts, active, false)
  {
    var first, rest := [], [];
    var i := |ts|;
    assert ts[|ts|..] == [];
    while i > 0
      invariant 0 <= i <= |ts| && first == Where(ts[i..], active, true) && rest == Where(ts[i..], active, false)
    {
      i := i - 1;
      assert ts[i..][1..] == ts[i + 1..] && ts[i] in ts;
      if marks[ts[i]] {
        first := [ts[i]] + first;
      } else {
        rest := [ts[i]] + rest;
      }
    }
    sorted := first + rest;
  }

  function Items(ts: seq<TreeNode>, indent: nat): (items: seq<Flat>)
    ensures |items| == |ts| && forall k :: 0 <= k < |ts| ==> items[k] == Flat(ts[k], indent)
  {
    seq(|ts|, k requires 0 <= k < |ts| => Flat(ts[k], indent))
  }

  lemma {:induction false} PendingSnoc(stack: seq<Flat>, item: Flat, active: set<nat>)
    ensures Pending(stack + [item], active) == Shown(item.node, item.indent, active) + Pending(stack, active)
  {
    assert (stack + [item])[..|stack|] == stack;
  }

  lemma {:induction false} PushedPending(stack: seq<Flat>, ts: seq<TreeNode>, indent: nat, active: set<nat>)
    ensures Pending(stack + Reversed(Items(ts, indent)), active) == InOrder(ts, indent, active) + Pending(stack, active)
    decreases |ts|
  {
    if ts == [] {
      assert stack + Reversed(Items(ts, indent)) == stack;
      assert InOrder(ts, indent, active) + Pending(stack, active) == Pending(stack, active);
    } else {
      var rest := stack + Reversed(Items(ts[1..], indent));
      assert stack + Reversed(Items(ts, indent)) == rest + [Flat(ts[0], indent)];
      PendingSnoc(rest, Flat(ts[0], indent), active);
      PushedPending(stack, ts[1..], indent, active);
      Regroup(Shown(ts[0], indent, active), InOrder(ts[1..], indent, active), Pending(stack, active));
    }
  }

  lemma Regroup<T>(a: seq<T>, b: seq<T>, c: seq<T>)
    ensures (a + b) + c == a + (b + c)
  {
  }

  function StackSize(stack: seq<Flat>): nat {
    if stack == [] then 0 else Size(stack[|stack| - 1].node) + StackSize(stack[..|stack| - 1])
  }

  lemma {:induction false} PushedSize(stack: seq<Flat>, ts: seq<TreeNode>, indent: nat)
    ensures StackSize(stack + Reversed(Items(ts, indent))) == StackSize(stack) + SizeAll(ts)
    decreases |ts|
  {
    if ts == [] {
      assert stack + Reversed(Items(ts, indent)) == stack;
    } else {
      var after := stack + Reversed(Items(ts, indent));
      assert after[..|after| - 1] == stack + Reversed(Items(ts[1..], indent));
      PushedSize(stack, ts[1..], indent);
    }
  }

  lemma {:induction false} SortedShown(ts: seq<TreeNode>, indent: nat, active: set<nat>)
    ensures var sorted := Where(ts, active, true) + Where(ts, active, false);
      InOrder(sorted, indent, active) == ShownAll(ts, indent, active) && SizeAll(sorted) == SizeAll(ts)
  {
    InOrderJoins(Where(ts, active, true), Where(ts, active, false), indent, active);
    WhereShown(ts, indent, active, true);
    WhereShown(ts, indent, active, false);
    SizeJoins(Where(ts, active, true), Where(ts, active, false));
    WhereSize(ts, active);
  }

  /** The nodes on the stack are marked, and so are all below them. */
  ghost predicate AllMarked(stack: seq<Flat>, marks: map<TreeNode, bool>) {
    forall k, n :: 0 <= k < |stack| && n in Nodes(stack[k].node) ==> n in marks
  }

  lemma PushedMarked(stack: seq<Flat>, item: Flat, sorted: seq<TreeNode>, indent: nat, marks: map<TreeNode, bool>)
    requires AllMarked(stack + [item], marks) && forall t :: t in sorted ==> t in item.node.children
    ensures AllMarked(stack + Reversed(Items(sorted, indent)), marks)
  {
    var before, after := stack + [item], stack + Reversed(Items(sorted, indent));
    assert before[|stack|] == item;
    forall k, n | 0 <= k < |after| && n in Nodes(after[k].node)
      ensures n in marks
    {
      if k < |stack| {
        assert before[k] == after[k];
      } else {
        var t := sorted[|sorted| - 1 - (k - |stack|)];
        assert after[k].node == t && t in sorted;
        var i :| 0 <= i < |item.node.children| && item.node.children[i] == t;
        NodeIn(item.node.children, i);
      }
    }
  }

  lemma {:induction false} WhereIn(ts: seq<TreeNode>, active: set<nat>, contains: bool)
    ensures forall t :: t in Where(ts, active, contains) ==> t in ts
  {
    if ts != [] {
      WhereIn(ts[1..], active, contains);
    }
  }

  ghost predicate Flattening(result: seq<Flat>, stack: seq<Flat>, marks: map<TreeNode, bool>, roots: seq<TreeNode>,
      active: set<nat>)
  {
    && result + Pending(stack, active) == ShownAll(roots, 0, active)
    && AllMarked(stack, marks) && Marked(marks, active)
  }

  lemma {:induction false} StartMarked(roots: seq<TreeNode>, marks: map<TreeNode, bool>, sorted: seq<TreeNode>)
    requires (forall n :: n in NodesAll(roots) ==> n in marks) && forall t :: t in sorted ==> t in roots
    ensures AllMarked(Reversed(Items(sorted, 0)), marks)
  {
    var stack := Reversed(Items(sorted, 0));
    forall k, n | 0 <= k < |stack| && n in Nodes(stack[k].node)
      ensures n in marks
    {
      var t := sorted[|sorted| - 1 - k];
      assert stack[k].node == t && t in sorted;
      var i :| 0 <= i < |roots| && roots[i] == t;
      NodeIn(roots, i);
    }
  }

  lemma {:induction false} StartPending(sorted: seq<TreeNode>, active: set<nat>)
    ensures Pending(Reversed(Items(sorted, 0)), active) == InOrder(sorted, 0, active)
  {
    var stack := Reversed(Items(sorted, 0));
    PushedPending([], sorted, 0, active);
    assert [] + stack == stack;
    assert InOrder(sorted, 0, active) + Pending([], active) == InOrder(sorted, 0, active);
  }

  lemma {:induction false} FlattenStarts(roots: seq<TreeNode>, marks: map<TreeNode, bool>, sorted: seq<TreeNode>,
      active: set<nat>)
    requires Marked(marks, active) && forall n :: n in NodesAll(roots) ==> n in marks
    requires sorted == Where(roots, active, true) + Where(roots, active, false)
    ensures Flattening([], Reversed(Items(sorted, 0)), marks, roots, active)
  {
    SortedShown(roots, 0, active);
    StartPending(sorted, active);
    WhereIn(roots, active, true);
    WhereIn(roots, active, false);
    StartMarked(roots, marks, sorted);
  }

  /** The last loop of flattenTree. */
  method Flatten(roots: seq<TreeNode>, marks: map<TreeNode, bool>, ghost active: set<nat>) returns (result: seq<Flat>)
    requires Marked(marks, active) && forall n :: n in NodesAll(roots) ==> n in marks
    ensures result == ShownAll(roots, 0, active)
  {
    forall i | 0 <= i < |roots|
      ensures roots[i] in marks
    {
      NodeIn(roots, i);
    }
    var sorted := SortActive(roots, marks, active);
    FlattenStarts(roots, marks, sorted, active);
    result := [];
    var stack := Reversed(Items(sorted, 0));
    while stack != []
      invariant Flattening(result, stack, marks, roots, active)
      decreases StackSize(stack)
    {
      result, stack := FlattenOne(stack, result, marks, roots, active);
    }
  }

  lemma {:induction false} FlattenStep(front: seq<Flat>, item: Flat, before: seq<Flat>, marks: map<TreeNode, bool>,
      sorted: seq<TreeNode>, roots: seq<TreeNode>, active: set<nat>)
    requires Flattening(before, front + [item], marks, roots, active)
    requires sorted == Where(item.node.children, active, true) + Where(item.node.children, active, false)
    ensures var next := front + Reversed(Items(sorted, ChildIndent(item.node, item.indent)));
      Flattening(before + [item], next, marks, roots, active) && StackSize(next) < StackSize(front + [item])
  {
    var indent := ChildIndent(item.node, item.indent);
    WhereIn(item.node.children, active, true);
    WhereIn(item.node.children, active, false);
    PushedMarked(front, item, sorted, indent, marks);
    PushedPending(front, sorted, indent, active);
    PendingSnoc(front, item, active);
    SortedShown(item.node.children, indent, active);
    Regroup(before, [item], ShownAll(item.node.children, indent, active) + Pending(front, active));
    Regroup([item], ShownAll(item.node.children, indent, active), Pending(front, active));
    FlattenSize(front, item, sorted);
  }

  lemma {:induction false} FlattenSize(front: seq<Flat>, item: Flat, sorted: seq<TreeNode>)
    requires SizeAll(sorted) == SizeAll(item.node.children)
    ensures StackSize(front + Reversed(Items(sorted, ChildIndent(item.node, item.indent)))) < StackSize(front + [item])
  {
    PushedSize(front, sorted, ChildIndent(item.node, item.indent));
    assert (front + [item])[..|front|] == front;
  }

  method FlattenOne(stack: seq<Flat>, before: seq<Flat>, marks: map<TreeNode, bool>, ghost roots: seq<TreeNode>,
      ghost active: set<nat>) returns (result: seq<Flat>, next: seq<Flat>)
    requires stack != [] && Flattening(before, stack, marks, roots, active)
    ensures Flattening(result, next, marks, roots, active) && StackSize(next) < StackSize(stack)
  {
    var item, front := stack[|stack| - 1], stack[..|stack| - 1];
    assert stack == front + [item];
    forall t | t in item.node.children
      ensures t in marks
    {
      var i :| 0 <= i < |item.node.children| && item.node.children[i] == t;
      NodeIn(item.node.children, i);
      assert t in Nodes(stack[|stack| - 1].node);
    }
    var children := SortActive(item.node.children, marks, active);
    FlattenStep(front, item, before, marks, children, roots, active);
    result := before + [item];
    next := front + Reversed(Items(children, ChildIndent(item.node, item.indent)));
  }

  /** flattenTree. */
  method FlattenTree(roots: seq<TreeNode>, active: set<nat>) returns (result: seq<Flat>)
    ensures result == ShownAll(roots, 0, active)
  {
    var traversal := Traverse(roots);
    var marks := Mark(traversal, active);
    forall n | n in NodesAll(roots)
      ensures n in marks
    {
      var i := NodeFrom(roots, n);
      TraversalHasAll(traversal, roots[i]);
    }
    result := Flatten(roots, marks, active);
  }

  // ---- What the flat list shows

  function NodesOf(flats: seq<Flat>): (nodes: seq<TreeNode>)
    ensures |nodes| == |flats| && forall k :: 0 <= k < |flats| ==> nodes[k] == flats[k].node
  {
    seq(|flats|, k requires 0 <= k < |flats| => flats[k].node)
  }

  lemma NodesOfJoin(a: seq<Flat>, b: seq<Flat>)
    ensures NodesOf(a + b) == NodesOf(a) + NodesOf(b)
  {
  }

  /** The list is a permutation of all nodes. */
  lemma {:induction false} ShownIsPermutation(t: TreeNode, indent: nat, active: set<nat>)
    ensures multiset(NodesOf(Shown(t, indent, active))) == multiset(Nodes(t))
    decreases t, 2
  {
    var below := ShownAll(t.children, ChildIndent(t, indent), active);
    ShownAllIsPermutation(t.children, ChildIndent(t, indent), active);
    NodesOfJoin([Flat(t, indent)], below);
    assert NodesOf([Flat(t, indent)]) == [t];
  }

  lemma {:induction false} ShownAllIsPermutation(ts: seq<TreeNode>, indent: nat, active: set<nat>)
    ensures multiset(NodesOf(ShownAll(ts, indent, active))) == multiset(NodesAll(ts))
    decreases ts, 1
  {
    WhereIsPermutation(ts, indent, active);
    NodesOfJoin(ShownWhere(ts, indent, active, true), ShownWhere(ts, indent, active, false));
  }

  lemma {:induction false} WhereIsPermutation(ts: seq<TreeNode>, indent: nat, active: set<nat>)
    ensures multiset(NodesOf(ShownWhere(ts, indent, active, true))) +
      multiset(NodesOf(ShownWhere(ts, indent, active, false))) == multiset(NodesAll(ts))
    decreases ts, 0
  {
    if ts == [] {
      assert NodesOf([]) == [];
    } else {
      var c := Contains(ts[0], active);
      WhereIsPermutation(ts[1..], indent, active);
      ShownIsPermutation(ts[0], indent, active);
      NodesOfJoin(Shown(ts[0], indent, active), ShownWhere(ts[1..], indent, active, c));
      assert [] + ShownWhere(ts[1..], indent, active, !c) == ShownWhere(ts[1..], indent, active, !c);
    }
  }

  /** A node on the list is one of the tops, or a child of a node before it. */
  ghost predicate ParentBefore(flats: seq<Flat>, tops: seq<TreeNode>, k: nat)
    requires k < |flats|
  {
    flats[k].node in tops || exists j :: 0 <= j < k && flats[k].node in flats[j].node.children
  }

  ghost predicate ParentsBefore(flats: seq<Flat>, tops: seq<TreeNode>) {
    forall k {:trigger ParentBefore(flats, tops, k)} :: 0 <= k < |flats| ==> ParentBefore(flats, tops, k)
  }

  lemma BeforeJoins(a: seq<Flat>, b: seq<Flat>, tops: seq<TreeNode>, more: seq<TreeNode>)
    requires ParentsBefore(a, tops) && ParentsBefore(b, more)
    requires forall t :: t in more ==> t in tops || exists j :: 0 <= j < |a| && t in a[j].node.children
    ensures ParentsBefore(a + b, tops)
  {
    forall k: nat | k < |a + b|
      ensures ParentBefore(a + b, tops, k)
    {
      if k < |a| {
        assert ParentBefore(a, tops, k);
        if a[k].node !in tops {
          var j :| 0 <= j < k && a[k].node in a[j].node.children;
          assert (a + b)[j] == a[j];
        }
      } else {
        assert ParentBefore(b, more, k - |a|);
        if b[k - |a|].node in more {
          BeforeIn(a, b, tops, k);
        } else {
          var j :| 0 <= j < k - |a| && b[k - |a|].node in b[j].node.children;
          assert (a + b)[|a| + j] == b[j];
        }
      }
    }
  }

  lemma BeforeIn(a: seq<Flat>, b: seq<Flat>, tops: seq<TreeNode>, k: nat)
    requires |a| <= k < |a + b|
    requires (a + b)[k].node in tops || exists j :: 0 <= j < |a| && (a + b)[k].node in a[j].node.children
    ensures ParentBefore(a + b, tops, k)
  {
    if (a + b)[k].node !in tops {
      var j :| 0 <= j < |a| && (a + b)[k].node in a[j].node.children;
      assert (a + b)[j] == a[j];
    }
  }

  /** Parents come before their children. */
  lemma {:induction false} ShownParentsFirst(t: TreeNode, indent: nat, active: set<nat>)
    ensures ParentsBefore(Shown(t, indent, active), [t])
    decreases t, 2
  {
    var below := ShownAll(t.children, ChildIndent(t, indent), active);
    ShownAllParentsFirst(t.children, ChildIndent(t, indent), active);
    assert ParentBefore([Flat(t, indent)], [t], 0);
    assert [Flat(t, indent)][0].node.children == t.children;
    BeforeJoins([Flat(t, indent)], below, [t], t.children);
  }

  lemma {:induction false} ShownAllParentsFirst(ts: seq<TreeNode>, indent: nat, active: set<nat>)
    ensures ParentsBefore(ShownAll(ts, indent, active), ts)
    decreases ts, 1
  {
    ShownWhereParentsFirst(ts, indent, active, true);
    ShownWhereParentsFirst(ts, indent, active, false);
    BeforeJoins(ShownWhere(ts, indent, active, true), ShownWhere(ts, indent, active, false), ts, ts);
  }

  lemma BeforeMoreTops(flats: seq<Flat>, tops: seq<TreeNode>, more: seq<TreeNode>)
    requires ParentsBefore(flats, tops) && forall t :: t in tops ==> t in more
    ensures ParentsBefore(flats, more)
  {
    forall k: nat | k < |flats|
      ensures ParentBefore(flats, more, k)
    {
      assert ParentBefore(flats, tops, k);
    }
  }

  lemma {:induction false} ShownWhereParentsFirst(ts: seq<TreeNode>, indent: nat, active: set<nat>, contains: bool)
    ensures ParentsBefore(ShownWhere(ts, indent, active, contains), ts)
    decreases ts, 0
  {
    if ts != [] {
      var rest := ShownWhere(ts[1..], indent, active, contains);
      ShownWhereParentsFirst(ts[1..], indent, active, contains);
      BeforeMoreTops(rest, ts[1..], ts);
      ShownParentsFirst(ts[0], indent, active);
      BeforeMoreTops(Shown(ts[0], indent, active), [ts[0]], ts);
      BeforeJoins(Shown(ts[0], indent, active), rest, ts, ts);
      assert [] + rest == rest;
    }
  }

  // ---- The active path

  /** From one of the tops down, each a child of the one before. */
  ghost predicate TreePath(tops: seq<TreeNode>, path: seq<TreeNode>)
    decreases |path|
  {
    path == [] || (path[0] in tops && TreePath(path[0].children, path[1..]))
  }

  ghost predicate DistinctIds(nodes: seq<TreeNode>) {
    forall i, j :: 0 <= i < j < |nodes| ==> nodes[i].id != nodes[j].id
  }

  /** No id twice in the forest. */
  ghost predicate Unique(ts: seq<TreeNode>) {
    DistinctIds(NodesAll(ts))
  }

  lemma DistinctParts(a: seq<TreeNode>, b: seq<TreeNode>)
    requires DistinctIds(a + b)
    ensures DistinctIds(a) && DistinctIds(b)
    ensures forall x, y :: x in a && y in b ==> x.id != y.id
  {
    forall i, j | 0 <= i < j < |a|
      ensures a[i].id != a[j].id
    {
      assert (a + b)[i] == a[i] && (a + b)[j] == a[j];
    }
    forall i, j | 0 <= i < j < |b|
      ensures b[i].id != b[j].id
    {
      assert (a + b)[|a| + i] == b[i] && (a + b)[|a| + j] == b[j];
    }
    forall i, j | 0 <= i < |a| && 0 <= j < |b|
      ensures a[i].id != b[j].id
    {
      assert (a + b)[i] == a[i] && (a + b)[|a| + j] == b[j];
    }
  }

  lemma {:induction false} NodesSplit(ts: seq<TreeNode>, i: nat)
    requires i < |ts|
    ensures NodesAll(ts) == NodesAll(ts[..i]) + (Nodes(ts[i]) + NodesAll(ts[i + 1..]))
  {
    assert ts == ts[..i] + ts[i..];
    NodesJoin(ts[..i], ts[i..]);
    assert ts[i..][1..] == ts[i + 1..];
  }

  lemma UniqueBelow(ts: seq<TreeNode>, i: nat)
    requires Unique(ts) && i < |ts|
    ensures Unique(ts[i].children) && ts[i] !in NodesAll(ts[i].children)
    ensures forall j, x, y :: 0 <= j < |ts| && j != i && x in Nodes(ts[i]) && y in Nodes(ts[j]) ==> x.id != y.id
  {
    NodesSplit(ts, i);
    DistinctParts(NodesAll(ts[..i]), Nodes(ts[i]) + NodesAll(ts[i + 1..]));
    DistinctParts(Nodes(ts[i]), NodesAll(ts[i + 1..]));
    DistinctParts([ts[i]], NodesAll(ts[i].children));
    assert ts[i] in [ts[i]];
    forall j, y | 0 <= j < |ts| && j != i && y in Nodes(ts[j])
      ensures y in NodesAll(ts[..i]) || y in NodesAll(ts[i + 1..])
    {
      if j < i {
        assert ts[..i][j] == ts[j];
        NodeIn(ts[..i], j);
      } else {
        assert ts[i + 1..][j - i - 1] == ts[j];
        NodeIn(ts[i + 1..], j - i - 1);
      }
    }
  }

  lemma {:induction false} PathBelow(t: TreeNode, path: seq<TreeNode>)
    requires TreePath(t.children, path)
    ensures forall n :: n in path ==> n in NodesAll(t.children)
    decreases |path|
  {
    if path != [] {
      PathBelow(path[0], path[1..]);
      var i :| 0 <= i < |t.children| && t.children[i] == path[0];
      NodeIn(t.children, i);
      assert forall n :: n in path ==> n == path[0] || n in path[1..];
    }
  }

  lemma {:induction false} OnlyOne(ts: seq<TreeNode>, i: nat, indent: nat, active: set<nat>)
    requires i < |ts| && forall j :: 0 <= j < |ts| ==> (Contains(ts[j], active) <==> j == i)
    ensures ShownWhere(ts, indent, active, true) == Shown(ts[i], indent, active)
  {
    var rest := ShownWhere(ts[1..], indent, active, true);
    if i == 0 {
      assert forall j :: 0 <= j < |ts[1..]| ==> !Contains(ts[1..][j], active);
      NoneShown(ts[1..], indent, active);
      assert Shown(ts[0], indent, active) + [] == Shown(ts[0], indent, active);
    } else {
      OnlyOne(ts[1..], i - 1, indent, active);
      assert [] + rest == rest;
    }
  }

  lemma {:induction false} NoneShown(ts: seq<TreeNode>, indent: nat, active: set<nat>)
    requires forall j :: 0 <= j < |ts| ==> !Contains(ts[j], active)
    ensures ShownWhere(ts, indent, active, true) == []
  {
    if ts != [] {
      NoneShown(ts[1..], indent, active);
    }
  }

  /** The active ids among the nodes are those of the path. */
  ghost predicate ActivePath(ts: seq<TreeNode>, path: seq<TreeNode>, active: set<nat>) {
    forall n :: n in NodesAll(ts) ==> (n.id in active <==> n in path)
  }

  lemma {:induction false} PathHolder(ts: seq<TreeNode>, path: seq<TreeNode>, active: set<nat>, i: nat)
    requires Unique(ts) && path != [] && i < |ts| && ts[i] == path[0] && TreePath(ts[i].children, path[1..])
    requires ActivePath(ts, path, active)
    ensures forall j :: 0 <= j < |ts| ==> (Contains(ts[j], active) <==> j == i)
    ensures ActivePath(ts[i].children, path[1..], active)
  {
    UniqueBelow(ts, i);
    PathBelow(ts[i], path[1..]);
    assert forall n :: n in path ==> n == path[0] || n in path[1..];
    NodeIn(ts, i);
    forall j | 0 <= j < |ts|
      ensures Contains(ts[j], active) <==> j == i
    {
      ContainsMeets(ts[j], active);
      NodeIn(ts, j);
      assert ts[j] in Nodes(ts[j]);
    }
  }

  /** With the ids of a path active, the list starts with exactly that path. */
  lemma {:induction false} ActivePathFirst(ts: seq<TreeNode>, path: seq<TreeNode>, indent: nat, active: set<nat>)
    requires Unique(ts) && TreePath(ts, path) && ActivePath(ts, path, active)
    ensures |path| <= |ShownAll(ts, indent, active)|
    ensures NodesOf(ShownAll(ts, indent, active))[..|path|] == path
    decreases |path|
  {
    if path != [] {
      var i :| 0 <= i < |ts| && ts[i] == path[0];
      PathHolder(ts, path, active, i);
      UniqueBelow(ts, i);
      OnlyOne(ts, i, indent, active);
      ActivePathFirst(ts[i].children, path[1..], ChildIndent(ts[i], indent), active);
      var below := ShownAll(ts[i].children, ChildIndent(ts[i], indent), active);
      assert path == [path[0]] + path[1..];
      PathStart(below, path, Flat(ts[i], indent), ShownWhere(ts, indent, active, false));
    }
  }

  lemma PathStart(below: seq<Flat>, path: seq<TreeNode>, top: Flat, rest: seq<Flat>)
    requires path != [] && |path| - 1 <= |below| && NodesOf(below)[..|path| - 1] == path[1..] && top.node == path[0]
    ensures |path| <= |([top] + below) + rest| && NodesOf(([top] + below) + rest)[..|path|] == path
  {
    var all := ([top] + below) + rest;
    forall k | 0 <= k < |path|
      ensures NodesOf(all)[k] == path[k]
    {
      if k > 0 {
        assert all[k] == below[k - 1];
        assert NodesOf(below)[..|path| - 1][k - 1] == path[1..][k - 1];
      }
    }
  }
}
