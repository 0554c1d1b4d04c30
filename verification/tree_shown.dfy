/** How the flat list lays out the tree: indents, siblings and subtrees. */
module TreeShown {
  import opened Tree

  // ---- Indents

  /** How many nodes of a path, but for its last, have several children. */
  function Forks(path: seq<TreeNode>): nat {
    if |path| <= 1 then 0 else (if |path[0].children| > 1 then 1 else 0) + Forks(path[1..])
  }

  ghost predicate LeadsTo(tops: seq<TreeNode>, path: seq<TreeNode>, node: TreeNode) {
    path != [] && TreePath(tops, path) && path[|path| - 1] == node
  }

  /** The node is indented once for each fork above it. */
  ghost predicate IndentIs(tops: seq<TreeNode>, indent: nat, f: Flat) {
    exists path :: LeadsTo(tops, path, f.node) && f.indent == indent + Forks(path)
  }

  lemma {:induction false} LeadsFurther(t: TreeNode, path: seq<TreeNode>, node: TreeNode)
    requires LeadsTo(t.children, path, node)
    ensures LeadsTo([t], [t] + path, node)
    ensures Forks([t] + path) == (if |t.children| > 1 then 1 else 0) + Forks(path)
  {
    assert ([t] + path)[1..] == path;
  }

  lemma IndentAmong(tops: seq<TreeNode>, more: seq<TreeNode>, indent: nat, f: Flat)
    requires IndentIs(tops, indent, f) && forall t :: t in tops ==> t in more
    ensures IndentIs(more, indent, f)
  {
    var path :| LeadsTo(tops, path, f.node) && f.indent == indent + Forks(path);
    assert LeadsTo(more, path, f.node);
  }

  lemma {:induction false} ShownIndents(t: TreeNode, indent: nat, active: set<nat>, f: Flat)
    requires f in Shown(t, indent, active)
    ensures IndentIs([t], indent, f)
    decreases t, 2
  {
    if f == Flat(t, indent) {
      assert [t][1..] == [] && LeadsTo([t], [t], t);
    } else {
      var below := if |t.children| > 1 then indent + 1 else indent;
      ShownAllIndents(t.children, below, active, f);
      var path :| LeadsTo(t.children, path, f.node) && f.indent == below + Forks(path);
      LeadsFurther(t, path, f.node);
    }
  }

  lemma {:induction false} WhereIndents(ts: seq<TreeNode>, indent: nat, active: set<nat>, c: bool, f: Flat)
    requires f in ShownWhere(ts, indent, active, c)
    ensures IndentIs(ts, indent, f)
    decreases ts, 0
  {
    if f in ShownWhere(ts[1..], indent, active, c) {
      WhereIndents(ts[1..], indent, active, c, f);
      IndentAmong(ts[1..], ts, indent, f);
    } else {
      ShownIndents(ts[0], indent, active, f);
      IndentAmong([ts[0]], ts, indent, f);
    }
  }

  /** Every listed node is indented once for each node with several children above it. */
  lemma {:induction false} ShownAllIndents(ts: seq<TreeNode>, indent: nat, active: set<nat>, f: Flat)
    requires f in ShownAll(ts, indent, active)
    ensures IndentIs(ts, indent, f)
    decreases ts, 1
  {
    if f in ShownWhere(ts, indent, active, true) {
      WhereIndents(ts, indent, active, true, f);
    } else {
      WhereIndents(ts, indent, active, false, f);
    }
  }

  // ---- Siblings

  lemma {:induction false} ShownSize(t: TreeNode, indent: nat, active: set<nat>)
    ensures |Shown(t, indent, active)| == Size(t)
  {
    ShownIsPermutation(t, indent, active);
    NodesSize(t);
    assert |multiset(NodesOf(Shown(t, indent, active)))| == |multiset(Nodes(t))|;
  }

  lemma {:induction false} NodesSize(t: TreeNode)
    ensures |Nodes(t)| == Size(t)
    decreases t, 1
  {
    NodesAllSize(t.children);
  }

  lemma {:induction false} NodesAllSize(ts: seq<TreeNode>)
    ensures |NodesAll(ts)| == SizeAll(ts)
    decreases ts, 0
  {
    if ts != [] {
      NodesSize(ts[0]);
      NodesAllSize(ts[1..]);
    }
  }

  /** The node and all below it stand together from place p on. */
  ghost predicate StandsAt(flats: seq<Flat>, t: TreeNode, indent: nat, p: nat) {
    p + Size(t) <= |flats| && flats[p] == Flat(t, indent) && IsAllOf(flats[p..p + Size(t)], t)
  }

  ghost predicate IsAllOf(part: seq<Flat>, t: TreeNode) {
    multiset(NodesOf(part)) == multiset(Nodes(t))
  }

  lemma StandsLeft(a: seq<Flat>, b: seq<Flat>, t: TreeNode, indent: nat, p: nat)
    requires StandsAt(a, t, indent, p)
    ensures StandsAt(a + b, t, indent, p)
  {
    assert (a + b)[p..p + Size(t)] == a[p..p + Size(t)];
  }

  lemma StandsRight(a: seq<Flat>, b: seq<Flat>, t: TreeNode, indent: nat, p: nat)
    requires StandsAt(b, t, indent, p)
    ensures StandsAt(a + b, t, indent, |a| + p)
  {
    assert (a + b)[|a| + p..|a| + p + Size(t)] == b[p..p + Size(t)];
  }

  lemma {:induction false} ShownStands(t: TreeNode, indent: nat, active: set<nat>)
    ensures StandsAt(Shown(t, indent, active), t, indent, 0)
  {
    ShownSize(t, indent, active);
    ShownIsPermutation(t, indent, active);
    assert Shown(t, indent, active)[0..Size(t)] == Shown(t, indent, active);
  }

  ghost predicate Counts(ts: seq<TreeNode>, active: set<nat>, c: bool, k: nat) {
    k < |ts| && Contains(ts[k], active) == c
  }

  ghost predicate AllStand(flats: seq<Flat>, ts: seq<TreeNode>, indent: nat, active: set<nat>, c: bool, at: seq<nat>) {
    |at| == |ts| && forall k: nat {:trigger Counts(ts, active, c, k)} :: Counts(ts, active, c, k) ==>
      StandsAt(flats, ts[k], indent, at[k])
  }

  ghost predicate AllApart(ts: seq<TreeNode>, active: set<nat>, c: bool, at: seq<nat>) {
    |at| == |ts| && forall k: nat, l: nat {:trigger Counts(ts, active, c, k), Counts(ts, active, c, l)} ::
      Counts(ts, active, c, k) && Counts(ts, active, c, l) && k < l ==> at[k] + Size(ts[k]) <= at[l]
  }

  lemma CountsLater(ts: seq<TreeNode>, active: set<nat>, c: bool, k: nat)
    requires ts != [] && k > 0
    ensures Counts(ts, active, c, k) <==> Counts(ts[1..], active, c, k - 1)
  {
  }

  function Moved(rest: seq<nat>, shift: nat): (at: seq<nat>)
    ensures |at| == |rest| + 1 && at[0] == 0 && forall k :: 0 <= k < |rest| ==> at[k + 1] == shift + rest[k]
  {
    [0] + seq(|rest|, k requires 0 <= k < |rest| => shift + rest[k])
  }

  lemma MoreStand(first: seq<Flat>, later: seq<Flat>, ts: seq<TreeNode>, indent: nat, active: set<nat>, c: bool,
      rest: seq<nat>)
    requires ts != [] && AllStand(later, ts[1..], indent, active, c, rest)
    requires Counts(ts, active, c, 0) ==> StandsAt(first, ts[0], indent, 0)
    ensures AllStand(first + later, ts, indent, active, c, Moved(rest, |first|))
  {
    var at := Moved(rest, |first|);
    forall k: nat | Counts(ts, active, c, k)
      ensures StandsAt(first + later, ts[k], indent, at[k])
    {
      if k == 0 {
        StandsLeft(first, later, ts[0], indent, 0);
      } else {
        CountsLater(ts, active, c, k);
        assert at[(k - 1) + 1] == |first| + rest[k - 1];
        StandsRight(first, later, ts[k], indent, rest[k - 1]);
      }
    }
  }

  lemma MoreApart(ts: seq<TreeNode>, active: set<nat>, c: bool, rest: seq<nat>, shift: nat)
    requires ts != [] && AllApart(ts[1..], active, c, rest) && (Counts(ts, active, c, 0) ==> shift == Size(ts[0]))
    ensures AllApart(ts, active, c, Moved(rest, shift))
  {
    var at := Moved(rest, shift);
    forall k: nat, l: nat | Counts(ts, active, c, k) && Counts(ts, active, c, l) && k < l
      ensures at[k] + Size(ts[k]) <= at[l]
    {
      CountsLater(ts, active, c, l);
      assert at[(l - 1) + 1] == shift + rest[l - 1];
      if k > 0 {
        CountsLater(ts, active, c, k);
        assert at[(k - 1) + 1] == shift + rest[k - 1];
      }
    }
  }

  lemma {:induction false} WherePlaces(ts: seq<TreeNode>, indent: nat, active: set<nat>, c: bool) returns (at: seq<nat>)
    ensures AllStand(ShownWhere(ts, indent, active, c), ts, indent, active, c, at) && AllApart(ts, active, c, at)
  {
    if ts == [] {
      at := [];
    } else {
      var rest := WherePlaces(ts[1..], indent, active, c);
      var first := if Contains(ts[0], active) == c then Shown(ts[0], indent, active) else [];
      ShownStands(ts[0], indent, active);
      ShownSize(ts[0], indent, active);
      MoreStand(first, ShownWhere(ts[1..], indent, active, c), ts, indent, active, c, rest);
      MoreApart(ts, active, c, rest, |first|);
      at := Moved(rest, |first|);
    }
  }

  /** The subtree has an active node. */
  ghost predicate MeetsActive(t: TreeNode, active: set<nat>) {
    exists n :: n in Nodes(t) && n.id in active
  }

  /** Siblings come with those that have an active node first, and else as they are given. */
  ghost predicate ComesFirst(ts: seq<TreeNode>, active: set<nat>, k: nat, l: nat)
    requires k < |ts| && l < |ts|
  {
    if MeetsActive(ts[k], active) == MeetsActive(ts[l], active) then k < l else MeetsActive(ts[k], active)
  }

  ghost predicate Ranged(flats: seq<Flat>, ts: seq<TreeNode>, indent: nat, active: set<nat>, at: seq<nat>) {
    && |at| == |ts| && (forall k {:trigger at[k]} :: 0 <= k < |ts| ==> StandsAt(flats, ts[k], indent, at[k]))
    && forall k, l {:trigger ComesFirst(ts, active, k, l)} ::
      0 <= k < |ts| && 0 <= l < |ts| && ComesFirst(ts, active, k, l) ==> at[k] + Size(ts[k]) <= at[l]
  }

  lemma {:induction false} StandsInside(flats: seq<Flat>, t: TreeNode, indent: nat, p: nat)
    requires StandsAt(flats, t, indent, p)
    ensures p + Size(t) <= |flats|
  {
  }

  function Places(ts: seq<TreeNode>, active: set<nat>, size: nat, yes: seq<nat>, no: seq<nat>): (at: seq<nat>)
    requires |yes| == |no| == |ts|
    ensures |at| == |ts| && forall k :: 0 <= k < |ts| ==> at[k] == if Contains(ts[k], active) then yes[k] else size + no[k]
  {
    seq(|ts|, k requires 0 <= k < |ts| => if Contains(ts[k], active) then yes[k] else size + no[k])
  }

  lemma BothStand(a: seq<Flat>, b: seq<Flat>, ts: seq<TreeNode>, indent: nat, active: set<nat>, yes: seq<nat>,
      no: seq<nat>, k: nat)
    requires AllStand(a, ts, indent, active, true, yes) && AllStand(b, ts, indent, active, false, no) && k < |ts|
    ensures StandsAt(a + b, ts[k], indent, Places(ts, active, |a|, yes, no)[k])
  {
    assert Counts(ts, active, Contains(ts[k], active), k);
    if Contains(ts[k], active) {
      StandsLeft(a, b, ts[k], indent, yes[k]);
    } else {
      StandsRight(a, b, ts[k], indent, no[k]);
    }
  }

  lemma BothApart(a: seq<Flat>, ts: seq<TreeNode>, indent: nat, active: set<nat>, yes: seq<nat>, no: seq<nat>, k: nat,
      l: nat)
    requires AllStand(a, ts, indent, active, true, yes) && AllApart(ts, active, true, yes) && AllApart(ts, active, false, no)
    requires k < |ts| && l < |ts| && ComesFirst(ts, active, k, l)
    ensures Places(ts, active, |a|, yes, no)[k] + Size(ts[k]) <= Places(ts, active, |a|, yes, no)[l]
  {
    ContainsMeets(ts[k], active);
    ContainsMeets(ts[l], active);
    assert Counts(ts, active, Contains(ts[k], active), k) && Counts(ts, active, Contains(ts[l], active), l);
    if Contains(ts[k], active) {
      StandsInside(a, ts[k], indent, yes[k]);
    }
  }

  lemma BothPlaced(a: seq<Flat>, b: seq<Flat>, ts: seq<TreeNode>, indent: nat, active: set<nat>, yes: seq<nat>,
      no: seq<nat>)
    requires AllStand(a, ts, indent, active, true, yes) && AllStand(b, ts, indent, active, false, no)
    requires AllApart(ts, active, true, yes) && AllApart(ts, active, false, no)
    ensures Ranged(a + b, ts, indent, active, Places(ts, active, |a|, yes, no))
  {
    forall k: nat | k < |ts|
      ensures StandsAt(a + b, ts[k], indent, Places(ts, active, |a|, yes, no)[k])
    {
      BothStand(a, b, ts, indent, active, yes, no, k);
    }
    forall k: nat, l: nat | k < |ts| && l < |ts| && ComesFirst(ts, active, k, l) {
      BothApart(a, ts, indent, active, yes, no, k, l);
    }
  }

  /** Each top stands with all below it in one piece, those with an active node first. */
  lemma {:induction false} SiblingsInOrder(ts: seq<TreeNode>, indent: nat, active: set<nat>) returns (at: seq<nat>)
    ensures Ranged(ShownAll(ts, indent, active), ts, indent, active, at)
  {
    var yes := WherePlaces(ts, indent, active, true);
    var no := WherePlaces(ts, indent, active, false);
    BothPlaced(ShownWhere(ts, indent, active, true), ShownWhere(ts, indent, active, false), ts, indent, active, yes, no);
    at := Places(ts, active, |ShownWhere(ts, indent, active, true)|, yes, no);
  }

  /** What stands below a node. */
  function Below(flats: seq<Flat>, p: nat, size: nat): seq<Flat>
    requires p + size <= |flats| && size > 0
  {
    flats[p + 1..p + size]
  }

  lemma {:induction false} HasBelow(flats: seq<Flat>, f: Flat, active: set<nat>, p: nat)
    requires HasAt(flats, f, active, p)
    ensures StandsAt(flats, f.node, f.indent, p)
    ensures Below(flats, p, Size(f.node)) ==
      ShownAll(f.node.children, if |f.node.children| > 1 then f.indent + 1 else f.indent, active)
  {
    var part := flats[p..p + Size(f.node)];
    ShownStands(f.node, f.indent, active);
    assert part[0..Size(f.node)] == part;
    assert Below(flats, p, Size(f.node)) == part[1..];
  }

  /** So it is at every node: what stands below it are its children in that order. */
  lemma {:induction false} ChildrenInOrder(ts: seq<TreeNode>, indent: nat, active: set<nat>, f: Flat)
      returns (p: nat, at: seq<nat>)
    requires f in ShownAll(ts, indent, active)
    ensures StandsAt(ShownAll(ts, indent, active), f.node, f.indent, p)
    ensures Ranged(Below(ShownAll(ts, indent, active), p, Size(f.node)), f.node.children,
      if |f.node.children| > 1 then f.indent + 1 else f.indent, active, at)
  {
    p := SubtreeAt(ts, indent, active, f);
    HasBelow(ShownAll(ts, indent, active), f, active, p);
    at := SiblingsInOrder(f.node.children, if |f.node.children| > 1 then f.indent + 1 else f.indent, active);
  }

  ghost predicate HasAt(flats: seq<Flat>, f: Flat, active: set<nat>, p: nat) {
    p + Size(f.node) <= |flats| && flats[p..p + Size(f.node)] == Shown(f.node, f.indent, active)
  }

  lemma HasJoined(a: seq<Flat>, b: seq<Flat>, f: Flat, active: set<nat>, p: nat)
    ensures HasAt(a, f, active, p) ==> HasAt(a + b, f, active, p)
    ensures HasAt(b, f, active, p) ==> HasAt(a + b, f, active, |a| + p)
  {
    if HasAt(a, f, active, p) {
      assert (a + b)[p..p + Size(f.node)] == a[p..p + Size(f.node)];
    }
    if HasAt(b, f, active, p) {
      assert (a + b)[|a| + p..|a| + p + Size(f.node)] == b[p..p + Size(f.node)];
    }
  }

  lemma {:induction false} SubtreeOf(t: TreeNode, indent: nat, active: set<nat>, f: Flat) returns (p: nat)
    requires f in Shown(t, indent, active)
    ensures HasAt(Shown(t, indent, active), f, active, p)
    decreases t, 2
  {
    if f == Flat(t, indent) {
      p := 0;
      ShownSize(t, indent, active);
      assert Shown(t, indent, active)[0..Size(t)] == Shown(t, indent, active);
    } else {
      var below := ShownAll(t.children, ChildIndent(t, indent), active);
      var q := SubtreeAt(t.children, ChildIndent(t, indent), active, f);
      p := 1 + q;
      HasJoined([Flat(t, indent)], below, f, active, q);
    }
  }

  lemma {:induction false} SubtreeWhere(ts: seq<TreeNode>, indent: nat, active: set<nat>, c: bool, f: Flat)
      returns (p: nat)
    requires f in ShownWhere(ts, indent, active, c)
    ensures HasAt(ShownWhere(ts, indent, active, c), f, active, p)
    decreases ts, 0
  {
    var first := if Contains(ts[0], active) == c then Shown(ts[0], indent, active) else [];
    var later := ShownWhere(ts[1..], indent, active, c);
    if f in first {
      p := SubtreeOf(ts[0], indent, active, f);
      HasJoined(first, later, f, active, p);
    } else {
      var q := SubtreeWhere(ts[1..], indent, active, c, f);
      p := |first| + q;
      HasJoined(first, later, f, active, q);
    }
  }

  lemma {:induction false} SubtreeAt(ts: seq<TreeNode>, indent: nat, active: set<nat>, f: Flat) returns (p: nat)
    requires f in ShownAll(ts, indent, active)
    ensures HasAt(ShownAll(ts, indent, active), f, active, p)
    decreases ts, 1
  {
    var a, b := ShownWhere(ts, indent, active, true), ShownWhere(ts, indent, active, false);
    if f in a {
      p := SubtreeWhere(ts, indent, active, true, f);
      HasJoined(a, b, f, active, p);
    } else {
      var q := SubtreeWhere(ts, indent, active, false, f);
      p := |a| + q;
      HasJoined(a, b, f, active, q);
    }
  }
}
