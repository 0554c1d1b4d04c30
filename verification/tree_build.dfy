/** buildTree over a session's entries: on a forest, a tree that holds every entry once. */
module TreeBuild {
  import opened Utf8
  import opened ParentGraph
  import opened Tree
  import S = Session

  // ---- buildTree

  /** The entry has no parent, itself for one, or one that is not there. */
  predicate IsRoot(ids: seq<nat>, parents: Graph<nat>, x: nat) {
    x !in parents || parents[x] == x || parents[x] !in ids
  }

  function ChildrenOf(among: seq<nat>, ids: seq<nat>, parents: Graph<nat>, x: nat): seq<nat> {
    if among == [] then []
    else
      var last := among[|among| - 1];
      ChildrenOf(among[..|among| - 1], ids, parents, x) + (if !IsRoot(ids, parents, last) && parents[last] == x then [last] else [])
  }

  function RootsOf(among: seq<nat>, ids: seq<nat>, parents: Graph<nat>): seq<nat> {
    if among == [] then []
    else
      var last := among[|among| - 1];
      RootsOf(among[..|among| - 1], ids, parents) + (if IsRoot(ids, parents, last) then [last] else [])
  }

  /** The children pushed after some entries. */
  ghost predicate Pushed(children: map<nat, seq<nat>>, roots: seq<nat>, among: seq<nat>, ids: seq<nat>,
      parents: Graph<nat>)
  {
    && children.Keys == Elements(ids) && roots == RootsOf(among, ids, parents)
    && forall x :: x in children ==> children[x] == ChildrenOf(among, ids, parents, x)
  }

  lemma PushedMore(children: map<nat, seq<nat>>, roots: seq<nat>, among: seq<nat>, ids: seq<nat>, parents: Graph<nat>,
      x: nat)
    requires Pushed(children, roots, among, ids, parents)
    ensures var more := among + [x];
      if IsRoot(ids, parents, x) then Pushed(children, roots + [x], more, ids, parents)
      else parents[x] in children && Pushed(children[parents[x] := children[parents[x]] + [x]], roots, more, ids, parents)
  {
    assert (among + [x])[..|among|] == among;
  }

  method BuildTree(ids: seq<nat>, parents: Graph<nat>) returns (children: map<nat, seq<nat>>, roots: seq<nat>)
    ensures Pushed(children, roots, ids, ids, parents)
  {
    children, roots := map x | x in ids :: [], [];
    var i := 0;
    assert ids[..0] == [];
    while i < |ids|
      invariant i <= |ids| && Pushed(children, roots, ids[..i], ids, parents)
    {
      var x := ids[i];
      PushedMore(children, roots, ids[..i], ids, parents, x);
      assert ids[..i] + [x] == ids[..i + 1];
      if IsRoot(ids, parents, x) {
        roots := roots + [x];
      } else {
        children := children[parents[x] := children[parents[x]] + [x]];
      }
      i := i + 1;
    }
    assert ids[..i] == ids;
  }

  lemma {:induction false} ChildrenAre(among: seq<nat>, ids: seq<nat>, parents: Graph<nat>, x: nat, y: nat)
    ensures y in ChildrenOf(among, ids, parents, x) <==> y in among && !IsRoot(ids, parents, y) && parents[y] == x
    ensures y in RootsOf(among, ids, parents) <==> y in among && IsRoot(ids, parents, y)
  {
    if among != [] {
      ChildrenAre(among[..|among| - 1], ids, parents, x, y);
    }
  }

  lemma {:induction false} ChildrenDistinct(among: seq<nat>, ids: seq<nat>, parents: Graph<nat>, x: nat)
    requires Distinct(among)
    ensures Distinct(ChildrenOf(among, ids, parents, x)) && Distinct(RootsOf(among, ids, parents))
  {
    if among != [] {
      var front, last := among[..|among| - 1], among[|among| - 1];
      ChildrenDistinct(front, ids, parents, x);
      ChildrenAre(front, ids, parents, x, last);
      assert last !in front;
    }
  }

  // ---- The tree the children lists make

  /** A forest of parent links with the depth ranks that show it is one. */
  datatype Forest = Forest(ids: seq<nat>, parents: Graph<nat>, rank: map<nat, nat>, bound: nat)

  ghost predicate Wooded(f: Forest) {
    && Distinct(f.ids) && Ranked(Known(f.parents, f.ids), f.rank) && f.rank.Keys == Elements(f.ids)
    && (forall x :: x in f.rank ==> f.rank[x] <= f.bound)
    && (forall x :: x in f.parents ==> x in f.ids)
  }

  ghost function Links(f: Forest): Graph<nat> {
    Known(f.parents, f.ids)
  }

  lemma RootsLinks(f: Forest, x: nat)
    requires Wooded(f) && x in f.ids
    ensures IsRoot(f.ids, f.parents, x) <==> x !in Links(f)
  {
  }

  lemma {:induction false} ChildDeeper(f: Forest, x: nat, y: nat)
    requires Wooded(f) && y in ChildrenOf(f.ids, f.ids, f.parents, x)
    ensures y in Links(f) && Links(f)[y] == x && x in f.rank && y in f.rank && f.rank[x] < f.rank[y]
  {
    ChildrenAre(f.ids, f.ids, f.parents, x, y);
  }

  ghost predicate Deeper(f: Forest, xs: seq<nat>, depth: int) {
    forall i :: 0 <= i < |xs| ==> xs[i] in f.rank && depth < f.rank[xs[i]]
  }

  lemma {:induction false} ChildrenDeeper(f: Forest, x: nat)
    requires Wooded(f) && x in f.rank
    ensures Deeper(f, ChildrenOf(f.ids, f.ids, f.parents, x), f.rank[x])
  {
    var children := ChildrenOf(f.ids, f.ids, f.parents, x);
    forall i | 0 <= i < |children|
      ensures children[i] in f.rank && f.rank[x] < f.rank[children[i]]
    {
      ChildDeeper(f, x, children[i]);
    }
  }

  ghost function Grow(f: Forest, x: nat): TreeNode
    requires Wooded(f) && x in f.rank
    decreases f.bound - f.rank[x], 1, 0
  {
    ChildrenDeeper(f, x);
    TreeNode(x, GrowAll(f, ChildrenOf(f.ids, f.ids, f.parents, x), f.rank[x]))
  }

  ghost function GrowAll(f: Forest, xs: seq<nat>, depth: int): (ts: seq<TreeNode>)
    requires Wooded(f) && Deeper(f, xs, depth) && -1 <= depth <= f.bound
    ensures |ts| == |xs|
    decreases f.bound - depth, 0, |xs|
  {
    if xs == [] then [] else [Grow(f, xs[0])] + GrowAll(f, xs[1..], depth)
  }

  lemma {:induction false} GrownAt(f: Forest, xs: seq<nat>, depth: int, i: nat)
    requires Wooded(f) && Deeper(f, xs, depth) && -1 <= depth <= f.bound && i < |xs|
    ensures xs[i] in f.rank && GrowAll(f, xs, depth)[i] == Grow(f, xs[i])
  {
    if i > 0 {
      GrownAt(f, xs[1..], depth, i - 1);
    }
  }

  lemma RootsDeeper(f: Forest)
    requires Wooded(f)
    ensures Deeper(f, RootsOf(f.ids, f.ids, f.parents), -1)
  {
    var roots := RootsOf(f.ids, f.ids, f.parents);
    forall i | 0 <= i < |roots|
      ensures roots[i] in f.rank
    {
      ChildrenAre(f.ids, f.ids, f.parents, 0, roots[i]);
    }
  }

  ghost function Grown(f: Forest): seq<TreeNode>
    requires Wooded(f)
  {
    RootsDeeper(f);
    GrowAll(f, RootsOf(f.ids, f.ids, f.parents), -1)
  }

  // ---- The nodes buildTree makes

  /** The node as the child lists have it, with all that is below it. */
  ghost predicate IsNode(children: map<nat, seq<nat>>, t: TreeNode) {
    && t.id in children && |t.children| == |children[t.id]|
    && (forall i :: 0 <= i < |t.children| ==> t.children[i].id == children[t.id][i])
    && AllNodes(children, t.children)
  }

  ghost predicate AllNodes(children: map<nat, seq<nat>>, ts: seq<TreeNode>) {
    ts == [] || (IsNode(children, ts[0]) && AllNodes(children, ts[1..]))
  }

  /** The roots with what the child lists put below them. */
  ghost predicate IsTree(children: map<nat, seq<nat>>, roots: seq<nat>, ts: seq<TreeNode>) {
    |ts| == |roots| && AllNodes(children, ts) && forall i :: 0 <= i < |ts| ==> ts[i].id == roots[i]
  }

  lemma {:induction false} GrowIsNode(f: Forest, children: map<nat, seq<nat>>, roots: seq<nat>, x: nat)
    requires Wooded(f) && x in f.rank && Pushed(children, roots, f.ids, f.ids, f.parents)
    ensures IsNode(children, Grow(f, x))
    decreases f.bound - f.rank[x], 1, 0
  {
    var xs := ChildrenOf(f.ids, f.ids, f.parents, x);
    ChildrenDeeper(f, x);
    forall i: nat | i < |xs|
      ensures GrowAll(f, xs, f.rank[x])[i].id == xs[i]
    {
      GrownAt(f, xs, f.rank[x], i);
    }
    GrowAllNodes(f, children, roots, xs, f.rank[x]);
  }

  lemma {:induction false} GrowAllNodes(f: Forest, children: map<nat, seq<nat>>, roots: seq<nat>, xs: seq<nat>,
      depth: int)
    requires Wooded(f) && Deeper(f, xs, depth) && -1 <= depth <= f.bound
    requires Pushed(children, roots, f.ids, f.ids, f.parents)
    ensures AllNodes(children, GrowAll(f, xs, depth))
    decreases f.bound - depth, 0, |xs|
  {
    if xs != [] {
      GrowIsNode(f, children, roots, xs[0]);
      GrowAllNodes(f, children, roots, xs[1..], depth);
    }
  }

  /** Child lists make one node of an id. */
  lemma {:induction false} NodeIsOne(children: map<nat, seq<nat>>, a: TreeNode, b: TreeNode)
    requires IsNode(children, a) && IsNode(children, b) && a.id == b.id
    ensures a == b
    decreases a, |a.children| + 1
  {
    NodesAreOne(children, a.children, b.children, a);
  }

  lemma {:induction false} NodesAreOne(children: map<nat, seq<nat>>, a: seq<TreeNode>, b: seq<TreeNode>,
      above: TreeNode)
    requires AllNodes(children, a) && AllNodes(children, b) && |a| == |b| && forall i :: 0 <= i < |a| ==>
      a[i].id == b[i].id
    requires forall t :: t in a ==> t in above.children
    ensures a == b
    decreases above, |a|
  {
    if a != [] {
      assert a[0] in a && a[0] in above.children;
      NodeIsOne(children, a[0], b[0]);
      NodesAreOne(children, a[1..], b[1..], above);
      assert a == [a[0]] + a[1..] && b == [b[0]] + b[1..];
    }
  }

  /** On a forest the nodes buildTree links up are the grown tree and nothing else. */
  lemma {:induction false} BuiltIsGrown(f: Forest, children: map<nat, seq<nat>>, roots: seq<nat>, ts: seq<TreeNode>)
    requires Wooded(f) && Pushed(children, roots, f.ids, f.ids, f.parents)
    ensures IsTree(children, roots, ts) <==> ts == Grown(f)
  {
    RootsDeeper(f);
    GrowAllNodes(f, children, roots, RootsOf(f.ids, f.ids, f.parents), -1);
    forall i: nat | i < |roots|
      ensures Grown(f)[i].id == roots[i]
    {
      GrownAt(f, roots, -1, i);
    }
    if IsTree(children, roots, ts) {
      NodesAreOne(children, ts, Grown(f), TreeNode(0, ts));
    }
  }

  // ---- Every entry once

  lemma {:induction false} NodeBelow(t: TreeNode, n: TreeNode, c: TreeNode)
    requires n in Nodes(t) && c in n.children
    ensures c in Nodes(t)
    decreases t
  {
    if n == t {
      var i :| 0 <= i < |t.children| && t.children[i] == c;
      NodeIn(t.children, i);
    } else {
      var i := NodeFrom(t.children, n);
      NodeBelow(t.children[i], n, c);
      NodeIn(t.children, i);
    }
  }

  lemma {:induction false} NodeBelowAll(ts: seq<TreeNode>, n: TreeNode, c: TreeNode)
    requires n in NodesAll(ts) && c in n.children
    ensures c in NodesAll(ts)
  {
    var i := NodeFrom(ts, n);
    NodeBelow(ts[i], n, c);
    NodeIn(ts, i);
  }

  lemma {:induction false} GrownChild(f: Forest, x: nat)
    requires Wooded(f) && x in f.rank && x in Links(f)
    ensures Links(f)[x] in f.rank && Grow(f, x) in Grow(f, Links(f)[x]).children
  {
    var p := Links(f)[x];
    var children := ChildrenOf(f.ids, f.ids, f.parents, p);
    ChildrenAre(f.ids, f.ids, f.parents, p, x);
    ChildrenDeeper(f, p);
    var i :| 0 <= i < |children| && children[i] == x;
    GrownAt(f, children, f.rank[p], i);
  }

  /** Every entry is on the tree. */
  lemma {:induction false} EveryEntry(f: Forest, x: nat)
    requires Wooded(f) && x in f.rank
    ensures Grow(f, x) in NodesAll(Grown(f))
    decreases f.rank[x]
  {
    if x in Links(f) {
      GrownChild(f, x);
      EveryEntry(f, Links(f)[x]);
      NodeBelowAll(Grown(f), Grow(f, Links(f)[x]), Grow(f, x));
    } else {
      var roots := RootsOf(f.ids, f.ids, f.parents);
      RootsDeeper(f);
      ChildrenAre(f.ids, f.ids, f.parents, 0, x);
      var i :| 0 <= i < |roots| && roots[i] == x;
      GrownAt(f, roots, -1, i);
      NodeIn(Grown(f), i);
    }
  }

  /** A node below x is the tree of an entry that climbs to x. */
  ghost predicate Below(f: Forest, n: TreeNode, x: nat)
    requires Wooded(f)
  {
    n.id in f.rank && n == Grow(f, n.id) && Reaches(Links(f), n.id, x)
  }

  lemma {:induction false} NodesBelow(f: Forest, x: nat, n: TreeNode)
    requires Wooded(f) && x in f.rank && n in Nodes(Grow(f, x))
    ensures Below(f, n, x)
    decreases f.bound - f.rank[x], 1, 0
  {
    var children := ChildrenOf(f.ids, f.ids, f.parents, x);
    ChildrenDeeper(f, x);
    if n == Grow(f, x) {
      assert Climb(Links(f), x, 0) == Some(x);
    } else {
      var i := AllNodesBelow(f, children, f.rank[x], n);
      ChildDeeper(f, x, children[i]);
      ReachesStep(Links(f), children[i]);
      ReachesTrans(Links(f), n.id, children[i], x);
    }
  }

  lemma {:induction false} AllNodesBelow(f: Forest, xs: seq<nat>, depth: int, n: TreeNode) returns (i: nat)
    requires Wooded(f) && Deeper(f, xs, depth) && -1 <= depth <= f.bound && n in NodesAll(GrowAll(f, xs, depth))
    ensures i < |xs| && Below(f, n, xs[i])
    decreases f.bound - depth, 0, |xs|
  {
    if n in Nodes(Grow(f, xs[0])) {
      NodesBelow(f, xs[0], n);
      i := 0;
    } else {
      i := AllNodesBelow(f, xs[1..], depth, n);
      i := i + 1;
    }
  }

  lemma {:induction false} Linear(g: Graph<nat>, n: nat, j: nat, k: nat)
    requires j <= k && Climb(g, n, j).Some? && Climb(g, n, k).Some?
    ensures Reaches(g, Climb(g, n, j).value, Climb(g, n, k).value)
  {
    ClimbAdds(g, n, j, k - j);
    assert Climb(g, Climb(g, n, j).value, k - j) == Climb(g, n, k);
  }

  /** Neither of two siblings, or of two roots, climbs to the other. */
  ghost predicate Apart(f: Forest, a: nat, b: nat) {
    !Reaches(Links(f), a, b) && !Reaches(Links(f), b, a)
  }

  lemma ApartBelow(f: Forest, n: nat, a: nat, b: nat)
    requires Apart(f, a, b) && Reaches(Links(f), n, a)
    ensures !Reaches(Links(f), n, b)
  {
    if Reaches(Links(f), n, b) {
      var j: nat :| Climb(Links(f), n, j) == Some(a);
      var k: nat :| Climb(Links(f), n, k) == Some(b);
      if j <= k {
        Linear(Links(f), n, j, k);
      } else {
        Linear(Links(f), n, k, j);
      }
    }
  }

  lemma NotUp(f: Forest, a: nat, b: nat)
    requires Wooded(f) && a != b && b in f.rank
    requires a in Links(f) ==> Links(f)[a] in f.rank && f.rank[Links(f)[a]] < f.rank[b]
    ensures !Reaches(Links(f), a, b)
  {
    if Reaches(Links(f), a, b) {
      var k: nat :| Climb(Links(f), a, k) == Some(b);
      RankFalls(Links(f), f.rank, Links(f)[a], k - 1);
    }
  }

  ghost predicate AllApart(f: Forest, xs: seq<nat>) {
    forall i, j :: 0 <= i < j < |xs| ==> Apart(f, xs[i], xs[j])
  }

  lemma {:induction false} ChildrenApart(f: Forest, x: nat)
    requires Wooded(f) && x in f.rank
    ensures AllApart(f, ChildrenOf(f.ids, f.ids, f.parents, x))
  {
    var children := ChildrenOf(f.ids, f.ids, f.parents, x);
    ChildrenDistinct(f.ids, f.ids, f.parents, x);
    forall i, j | 0 <= i < j < |children|
      ensures Apart(f, children[i], children[j])
    {
      ChildDeeper(f, x, children[i]);
      ChildDeeper(f, x, children[j]);
      NotUp(f, children[i], children[j]);
      NotUp(f, children[j], children[i]);
    }
  }

  lemma RootsApart(f: Forest)
    requires Wooded(f)
    ensures AllApart(f, RootsOf(f.ids, f.ids, f.parents))
  {
    var roots := RootsOf(f.ids, f.ids, f.parents);
    ChildrenDistinct(f.ids, f.ids, f.parents, 0);
    RootsDeeper(f);
    forall i, j | 0 <= i < j < |roots|
      ensures Apart(f, roots[i], roots[j])
    {
      ChildrenAre(f.ids, f.ids, f.parents, 0, roots[i]);
      ChildrenAre(f.ids, f.ids, f.parents, 0, roots[j]);
      RootsLinks(f, roots[i]);
      RootsLinks(f, roots[j]);
      NotUp(f, roots[i], roots[j]);
      NotUp(f, roots[j], roots[i]);
    }
  }

  lemma DistinctJoin(a: seq<TreeNode>, b: seq<TreeNode>)
    requires DistinctIds(a) && DistinctIds(b) && forall x, y :: x in a && y in b ==> x.id != y.id
    ensures DistinctIds(a + b)
  {
  }

  lemma {:induction false} GrownDistinct(f: Forest, x: nat)
    requires Wooded(f) && x in f.rank
    ensures DistinctIds(Nodes(Grow(f, x)))
    decreases f.bound - f.rank[x], 1, 0
  {
    var children := ChildrenOf(f.ids, f.ids, f.parents, x);
    ChildrenDeeper(f, x);
    var below := GrowAll(f, children, f.rank[x]);
    ChildrenApart(f, x);
    GrownAllDistinct(f, children, f.rank[x]);
    forall n | n in NodesAll(below)
      ensures n.id != x
    {
      var i := AllNodesBelow(f, children, f.rank[x], n);
      var k: nat :| Climb(Links(f), n.id, k) == Some(children[i]);
      RankFalls(Links(f), f.rank, n.id, k);
    }
    DistinctJoin([Grow(f, x)], NodesAll(below));
  }

  lemma {:induction false} GrownAllDistinct(f: Forest, xs: seq<nat>, depth: int)
    requires Wooded(f) && Deeper(f, xs, depth) && -1 <= depth <= f.bound && AllApart(f, xs)
    ensures DistinctIds(NodesAll(GrowAll(f, xs, depth)))
    decreases f.bound - depth, 0, |xs|
  {
    if xs != [] {
      var first, rest := Nodes(Grow(f, xs[0])), NodesAll(GrowAll(f, xs[1..], depth));
      GrownDistinct(f, xs[0]);
      GrownAllDistinct(f, xs[1..], depth);
      forall n, m | n in first && m in rest
        ensures n.id != m.id
      {
        NodesBelow(f, xs[0], n);
        var i := AllNodesBelow(f, xs[1..], depth, m);
        assert xs[1..][i] == xs[i + 1];
        ApartBelow(f, m.id, xs[i + 1], xs[0]);
      }
      DistinctJoin(first, rest);
    }
  }

  /** The tree holds every entry exactly once. */
  lemma {:induction false} TreeHoldsAll(f: Forest)
    requires Wooded(f)
    ensures Unique(Grown(f))
    ensures forall x :: x in f.ids <==> exists n :: n in NodesAll(Grown(f)) && n.id == x
    ensures forall n :: n in NodesAll(Grown(f)) ==> n.id in f.rank && n == Grow(f, n.id)
  {
    RootsDeeper(f);
    RootsApart(f);
    GrownAllDistinct(f, RootsOf(f.ids, f.ids, f.parents), -1);
    forall n | n in NodesAll(Grown(f))
      ensures n.id in f.rank && n == Grow(f, n.id)
    {
      var i := AllNodesBelow(f, RootsOf(f.ids, f.ids, f.parents), -1, n);
    }
    forall x | x in f.ids
      ensures exists n :: n in NodesAll(Grown(f)) && n.id == x
    {
      EveryEntry(f, x);
      assert Grow(f, x).id == x;
    }
  }

  // ---- The shown path

  /** buildActivePathIds. */
  function PathIds(path: seq<nat>): set<nat> {
    set x | x in path
  }

  ghost function GrowPath(f: Forest, path: seq<nat>): (nodes: seq<TreeNode>)
    requires Wooded(f) && forall k :: 0 <= k < |path| ==> path[k] in f.rank
    ensures |nodes| == |path| && forall k :: 0 <= k < |path| ==> nodes[k] == Grow(f, path[k])
  {
    seq(|path|, k requires 0 <= k < |path| => Grow(f, path[k]))
  }

  /** Each node of the path is the parent of the next. */
  ghost predicate Downwards(f: Forest, path: seq<nat>) {
    && (forall k :: 0 <= k < |path| ==> path[k] in f.rank)
    && (forall k {:trigger DownStep(f, path, k)} :: 0 <= k < |path| - 1 ==> DownStep(f, path, k))
  }

  ghost predicate DownStep(f: Forest, path: seq<nat>, k: nat)
    requires k + 1 < |path|
  {
    path[k + 1] in Links(f) && Links(f)[path[k + 1]] == path[k]
  }

  lemma {:induction false} PathOnTree(f: Forest, tops: seq<TreeNode>, path: seq<nat>)
    requires Wooded(f) && Downwards(f, path) && (path != [] ==> Grow(f, path[0]) in tops)
    ensures TreePath(tops, GrowPath(f, path))
    decreases |path|
  {
    if path != [] {
      assert GrowPath(f, path)[1..] == GrowPath(f, path[1..]);
      if |path| > 1 {
        assert DownStep(f, path, 0);
        GrownChild(f, path[1]);
      }
      forall k: nat | k < |path[1..]| - 1
        ensures DownStep(f, path[1..], k)
      {
        assert DownStep(f, path, k + 1);
      }
      PathOnTree(f, Grow(f, path[0]).children, path[1..]);
    }
  }

  lemma {:induction false} PathGoesDown(f: Forest, path: seq<nat>, target: nat)
    requires Wooded(f) && IsPath(f.parents, f.ids, path, target)
    ensures Downwards(f, path) && Grow(f, path[0]) in Grown(f)
  {
    forall k: nat | k < |path| - 1
      ensures DownStep(f, path, k)
    {
      assert Linked(f.parents, Reversed(path), |path| - 2 - k);
    }
    var roots := RootsOf(f.ids, f.ids, f.parents);
    RootsDeeper(f);
    ChildrenAre(f.ids, f.ids, f.parents, 0, path[0]);
    var i :| 0 <= i < |roots| && roots[i] == path[0];
    GrownAt(f, roots, -1, i);
  }

  /** With the ids on the path to the target active, the flat list starts with exactly the path. */
  lemma PathShownFirst(f: Forest, path: seq<nat>, target: nat)
    requires Wooded(f) && IsPath(f.parents, f.ids, path, target)
    ensures var flat := ShownAll(Grown(f), 0, PathIds(path));
      |path| <= |flat| && forall k :: 0 <= k < |path| ==> flat[k].node.id == path[k]
  {
    PathGoesDown(f, path, target);
    var nodes := GrowPath(f, path);
    var flat := ShownAll(Grown(f), 0, PathIds(path));
    PathOnTree(f, Grown(f), path);
    TreeHoldsAll(f);
    forall n | n in NodesAll(Grown(f))
      ensures n.id in PathIds(path) <==> n in nodes
    {
      if n.id in PathIds(path) {
        var k :| 0 <= k < |path| && path[k] == n.id;
        assert nodes[k] == n;
      }
    }
    ActivePathFirst(Grown(f), nodes, 0, PathIds(path));
    forall k | 0 <= k < |path|
      ensures flat[k].node.id == path[k]
    {
      assert NodesOf(flat)[..|path|][k] == nodes[k];
    }
  }

  // ---- A session's tree

  /** The entries of a session make such a forest. */
  lemma SessionIsWooded(events: seq<S.SessionGroups.Event>, linked: seq<S.SessionEntries.Entry>,
      entries: seq<S.SessionEntries.Entry>, cut: seq<nat>, rank: map<nat, nat>, bound: nat)
    requires S.OnlyCut(events, linked, entries, cut, rank) && forall x :: x in rank ==> rank[x] <= bound
    ensures Wooded(Forest(S.Ids(entries), S.Parents(entries), rank, bound))
  {
    forall x | x in S.Parents(entries)
      ensures x in S.Ids(entries)
    {
      var n :| 0 <= n < |entries| && entries[n].parentId.Some? && entries[n].id == x;
      assert S.Ids(entries)[n] == x;
    }
  }

  lemma {:induction false} RankBound(rank: map<nat, nat>) returns (bound: nat)
    ensures forall x :: x in rank ==> rank[x] <= bound
    decreases |rank|
  {
    if rank == map[] {
      bound := 0;
    } else {
      var x: nat :| x in rank;
      assert |rank - {x}| < |rank| by {
        assert rank.Keys == (rank - {x}).Keys + {x};
      }
      var rest := RankBound(rank - {x});
      bound := if rank[x] > rest then rank[x] else rest;
    }
  }

  /** Whatever the records say, the nodes buildTree makes of a session are a tree that shows each of
      its entries once. */
  lemma SessionTree(events: seq<S.SessionGroups.Event>, linked: seq<S.SessionEntries.Entry>,
      entries: seq<S.SessionEntries.Entry>, cut: seq<nat>, rank: map<nat, nat>, children: map<nat, seq<nat>>, roots: seq<nat>)
      returns (ts: seq<TreeNode>)
    requires S.OnlyCut(events, linked, entries, cut, rank)
    requires Pushed(children, roots, S.Ids(entries), S.Ids(entries), S.Parents(entries))
    ensures forall us :: IsTree(children, roots, us) <==> us == ts
    ensures Unique(ts) && forall x :: x in S.Ids(entries) <==> exists n :: n in NodesAll(ts) && n.id == x
  {
    var bound := RankBound(rank);
    var f := Forest(S.Ids(entries), S.Parents(entries), rank, bound);
    SessionIsWooded(events, linked, entries, cut, rank, bound);
    ts := Grown(f);
    TreeHoldsAll(f);
    forall us
      ensures IsTree(children, roots, us) <==> us == ts
    {
      BuiltIsGrown(f, children, roots, us);
    }
  }
}
