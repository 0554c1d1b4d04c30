/** Graphs in which every node names at most one parent, possibly in loops: ordering parents first,
    cutting loops, and walking up. */
module ParentGraph {
  import opened Utf8

  type Graph<Node(==)> = map<Node, Node>

  // ---- Climbing

  /** The node k links up, or none when the links end before. */
  function Climb<Node(==)>(g: Graph<Node>, x: Node, k: nat): Option<Node> {
    if k == 0 then Some(x) else if x in g then Climb(g, g[x], k - 1) else None
  }

  ghost predicate Reaches<Node>(g: Graph<Node>, x: Node, y: Node) {
    exists k: nat :: Climb(g, x, k) == Some(y)
  }

  ghost predicate OnCycle<Node>(g: Graph<Node>, x: Node) {
    x in g && Reaches(g, g[x], x)
  }

  /** The two nodes are on one cycle, or the same. */
  ghost predicate Together<Node>(g: Graph<Node>, x: Node, y: Node) {
    Reaches(g, x, y) && Reaches(g, y, x)
  }

  lemma {:induction false} ClimbAdds<Node>(g: Graph<Node>, x: Node, j: nat, k: nat)
    requires Climb(g, x, j).Some?
    ensures Climb(g, x, j + k) == Climb(g, Climb(g, x, j).value, k)
  {
    if j > 0 {
      ClimbAdds(g, g[x], j - 1, k);
    }
  }

  lemma ReachesTrans<Node>(g: Graph<Node>, x: Node, y: Node, z: Node)
    requires Reaches(g, x, y) && Reaches(g, y, z)
    ensures Reaches(g, x, z)
  {
    var j: nat :| Climb(g, x, j) == Some(y);
    var k: nat :| Climb(g, y, k) == Some(z);
    ClimbAdds(g, x, j, k);
    assert Climb(g, x, j + k) == Some(z);
  }

  lemma ReachesStep<Node>(g: Graph<Node>, x: Node)
    requires x in g
    ensures Reaches(g, x, g[x]) && Reaches(g, x, x)
  {
    assert Climb(g, g[x], 0) == Some(g[x]);
    assert Climb(g, x, 1) == Some(g[x]);
    assert Climb(g, x, 0) == Some(x);
  }

  ghost predicate Closed<Node>(g: Graph<Node>, s: set<Node>) {
    forall x :: x in s && x in g ==> g[x] in s
  }

  lemma {:induction false} StaysInside<Node>(g: Graph<Node>, s: set<Node>, x: Node, k: nat)
    requires Closed(g, s) && x in s && Climb(g, x, k).Some?
    ensures Climb(g, x, k).value in s
  {
    if k > 0 {
      StaysInside(g, s, g[x], k - 1);
    }
  }

  lemma ReachesInside<Node>(g: Graph<Node>, s: set<Node>, x: Node, y: Node)
    requires Closed(g, s) && x in s && Reaches(g, x, y)
    ensures y in s
  {
    var k: nat :| Climb(g, x, k) == Some(y);
    StaysInside(g, s, x, k);
  }

  // ---- Chains

  ghost predicate Linked<Node>(g: Graph<Node>, chain: seq<Node>, k: nat)
    requires k + 1 < |chain|
  {
    chain[k] in g && g[chain[k]] == chain[k + 1]
  }

  /** Each node's parent comes next. */
  ghost predicate Chain<Node>(g: Graph<Node>, chain: seq<Node>) {
    forall k {:trigger Linked(g, chain, k)} :: 0 <= k < |chain| - 1 ==> Linked(g, chain, k)
  }

  lemma ChainSnoc<Node>(g: Graph<Node>, chain: seq<Node>, x: Node)
    requires Chain(g, chain) && (chain != [] ==> chain[|chain| - 1] in g && g[chain[|chain| - 1]] == x)
    ensures Chain(g, chain + [x])
  {
    forall k: nat | k < |chain|
      ensures Linked(g, chain + [x], k)
    {
      if k < |chain| - 1 {
        assert Linked(g, chain, k);
      }
    }
  }

  lemma {:induction false} ChainReaches<Node>(g: Graph<Node>, chain: seq<Node>, i: nat, j: nat)
    requires Chain(g, chain) && i <= j < |chain|
    ensures Reaches(g, chain[i], chain[j])
    decreases j - i
  {
    assert Climb(g, chain[i], 0) == Some(chain[i]);
    if i < j {
      assert Linked(g, chain, i);
      ReachesStep(g, chain[i]);
      ChainReaches(g, chain, i + 1, j);
      ReachesTrans(g, chain[i], chain[i + 1], chain[j]);
    }
  }

  ghost predicate Distinct<Node>(s: seq<Node>) {
    forall i, j :: 0 <= i < j < |s| ==> s[i] != s[j]
  }

  function Elements<Node(==)>(s: seq<Node>): set<Node> {
    set x | x in s
  }

  // ---- Parents first

  function Reversed<Node>(s: seq<Node>): (r: seq<Node>)
    ensures |r| == |s| && forall k :: 0 <= k < |s| ==> r[k] == s[|s| - 1 - k]
  {
    seq(|s|, k requires 0 <= k < |s| => s[|s| - 1 - k])
  }

  /** The node at i comes before its parent, or has itself for one. */
  ghost predicate Late<Node>(g: Graph<Node>, ordered: seq<Node>, i: nat)
    requires i < |ordered|
  {
    ordered[i] in g && g[ordered[i]] !in ordered[..i]
  }

  /** Parents come first, except across one link of each cycle. */
  ghost predicate ParentsFirst<Node>(g: Graph<Node>, ordered: seq<Node>) {
    && (forall i :: 0 <= i < |ordered| && Late(g, ordered, i) ==> OnCycle(g, ordered[i]))
    && (forall i, j :: 0 <= i < j < |ordered| && Late(g, ordered, i) && Late(g, ordered, j) ==>
      !Together(g, ordered[i], ordered[j]))
  }

  /** What is ordered so far. */
  ghost predicate Placed<Node>(g: Graph<Node>, ordered: seq<Node>) {
    Distinct(ordered) && Closed(g, Elements(ordered)) && ParentsFirst(g, ordered)
  }

  /** A chain of new nodes that ends at a node without parent, at an ordered one, or at itself. */
  ghost predicate Walked<Node>(g: Graph<Node>, ordered: seq<Node>, chain: seq<Node>) {
    && Chain(g, chain) && Distinct(chain) && chain != []
    && (forall k :: 0 <= k < |chain| ==> chain[k] !in ordered)
    && var last := chain[|chain| - 1];
    && (last in g ==> g[last] in ordered || g[last] in chain)
  }

  lemma LateBefore<Node>(g: Graph<Node>, ordered: seq<Node>, more: seq<Node>, i: nat)
    requires i < |ordered|
    ensures Late(g, ordered + more, i) == Late(g, ordered, i)
  {
    assert (ordered + more)[..i] == ordered[..i];
  }

  lemma LateInChain<Node>(g: Graph<Node>, ordered: seq<Node>, chain: seq<Node>, k: nat)
    requires Chain(g, chain) && 0 < k < |chain|
    ensures !Late(g, ordered + Reversed(chain), |ordered| + k)
  {
    var after := ordered + Reversed(chain);
    assert Linked(g, chain, |chain| - 1 - k);
    assert after[|ordered| + k - 1] == chain[|chain| - k];
    assert after[|ordered| + k - 1] in after[..|ordered| + k];
  }

  lemma LateAtEnd<Node>(g: Graph<Node>, ordered: seq<Node>, chain: seq<Node>)
    requires Walked(g, ordered, chain) && Late(g, ordered + Reversed(chain), |ordered|)
    ensures OnCycle(g, chain[|chain| - 1])
  {
    var last := chain[|chain| - 1];
    assert (ordered + Reversed(chain))[..|ordered|] == ordered;
    var k :| 0 <= k < |chain| && chain[k] == g[last];
    ChainReaches(g, chain, k, |chain| - 1);
  }

  lemma LateLater<Node>(g: Graph<Node>, ordered: seq<Node>, chain: seq<Node>, i: nat)
    requires Walked(g, ordered, chain) && i < |ordered| + |chain|
    ensures i < |ordered| ==> Late(g, ordered + Reversed(chain), i) == Late(g, ordered, i)
    ensures i >= |ordered| && Late(g, ordered + Reversed(chain), i) ==> i == |ordered| && OnCycle(g, chain[|chain| - 1])
  {
    if i < |ordered| {
      LateBefore(g, ordered, Reversed(chain), i);
    } else if i > |ordered| {
      LateInChain(g, ordered, chain, i - |ordered|);
    } else if Late(g, ordered + Reversed(chain), i) {
      LateAtEnd(g, ordered, chain);
    }
  }

  lemma ChainClosed<Node>(g: Graph<Node>, ordered: seq<Node>, chain: seq<Node>)
    requires Distinct(ordered) && Closed(g, Elements(ordered)) && Walked(g, ordered, chain)
    ensures Distinct(ordered + Reversed(chain)) && Closed(g, Elements(ordered + Reversed(chain)))
    ensures Elements(ordered + Reversed(chain)) == Elements(ordered) + Elements(chain)
  {
    var after := ordered + Reversed(chain);
    forall x | x in chain
      ensures x in after
    {
      var k :| 0 <= k < |chain| && chain[k] == x;
      assert Reversed(chain)[|chain| - 1 - k] == x;
    }
    assert forall x :: x in after <==> x in ordered || x in chain;
    forall x | x in chain && x in g
      ensures g[x] in after
    {
      var k :| 0 <= k < |chain| && chain[k] == x;
      if k < |chain| - 1 {
        assert Linked(g, chain, k);
      }
    }
  }

  lemma ChainPlaced<Node>(g: Graph<Node>, ordered: seq<Node>, chain: seq<Node>)
    requires Placed(g, ordered) && Walked(g, ordered, chain)
    ensures Placed(g, ordered + Reversed(chain))
    ensures Elements(ordered + Reversed(chain)) == Elements(ordered) + Elements(chain)
  {
    var after := ordered + Reversed(chain);
    ChainClosed(g, ordered, chain);
    forall i: nat | i < |after| && Late(g, after, i)
      ensures OnCycle(g, after[i])
    {
      LateLater(g, ordered, chain, i);
    }
    forall i: nat, j: nat | i < j < |after| && Late(g, after, i) && Late(g, after, j)
      ensures !Together(g, after[i], after[j])
    {
      LateLater(g, ordered, chain, i);
      LateLater(g, ordered, chain, j);
      if j == |ordered| && Reaches(g, after[i], after[j]) {
        ReachesInside(g, Elements(ordered), after[i], after[j]);
        assert false;
      }
    }
  }

  /** The walk up from x that stops at a node seen before. */
  function WalkUp<Node(==)>(g: Graph<Node>, nodes: set<Node>, stop: set<Node>, x: Node): seq<Node>
    requires x in nodes && forall y :: y in g ==> g[y] in nodes
    decreases nodes - stop
  {
    if x in stop then [] else [x] + (if x in g then WalkUp(g, nodes, stop + {x}, g[x]) else [])
  }

  /** Each node in turn, its unplaced ancestors before it. */
  function Order<Node(==)>(g: Graph<Node>, nodes: set<Node>, sorted: seq<Node>): seq<Node>
    requires (forall y :: y in g ==> g[y] in nodes) && forall i :: 0 <= i < |sorted| ==> sorted[i] in nodes
  {
    if sorted == [] then []
    else
      var before := Order(g, nodes, sorted[..|sorted| - 1]);
      before + Reversed(WalkUp(g, nodes, Elements(before), sorted[|sorted| - 1]))
  }

  lemma {:induction false} WalkInside<Node>(g: Graph<Node>, nodes: set<Node>, stop: set<Node>, x: Node)
    requires x in nodes && forall y :: y in g ==> g[y] in nodes
    ensures forall y :: y in WalkUp(g, nodes, stop, x) ==> y in nodes
    decreases nodes - stop
  {
    if x !in stop && x in g {
      WalkInside(g, nodes, stop + {x}, g[x]);
    }
  }

  lemma {:induction false} OrderInside<Node>(g: Graph<Node>, nodes: set<Node>, sorted: seq<Node>)
    requires (forall y :: y in g ==> g[y] in nodes) && forall i :: 0 <= i < |sorted| ==> sorted[i] in nodes
    ensures forall y :: y in Order(g, nodes, sorted) ==> y in nodes
  {
    if sorted != [] {
      var before := Order(g, nodes, sorted[..|sorted| - 1]);
      OrderInside(g, nodes, sorted[..|sorted| - 1]);
      WalkInside(g, nodes, Elements(before), sorted[|sorted| - 1]);
    }
  }

  /** Without links the nodes stay as they are sorted. */
  lemma {:induction false} UnlinkedStay<Node>(nodes: set<Node>, sorted: seq<Node>)
    requires Distinct(sorted) && forall i :: 0 <= i < |sorted| ==> sorted[i] in nodes
    ensures Order(map[], nodes, sorted) == sorted
  {
    if sorted != [] {
      var front, last := sorted[..|sorted| - 1], sorted[|sorted| - 1];
      UnlinkedStay(nodes, front);
      assert last !in Elements(front);
      assert WalkUp(map[], nodes, Elements(front), last) == [last];
      assert Reversed([last]) == [last];
    }
  }

  /** What is left of a walk. */
  ghost function RestOfWalk<Node>(g: Graph<Node>, nodes: set<Node>, stop: set<Node>, next: Option<Node>): seq<Node>
    requires (forall y :: y in g ==> g[y] in nodes) && (next.Some? ==> next.value in nodes)
  {
    if next.None? then [] else WalkUp(g, nodes, stop, next.value)
  }

  lemma WalkMore<Node>(g: Graph<Node>, nodes: set<Node>, ordered: seq<Node>, chain: seq<Node>, x: Node)
    requires (forall y :: y in g ==> g[y] in nodes) && x in nodes && x !in ordered && x !in chain
    ensures chain + RestOfWalk(g, nodes, Elements(ordered) + Elements(chain), Some(x)) ==
      chain + [x] + RestOfWalk(g, nodes, Elements(ordered) + Elements(chain + [x]), if x in g then Some(g[x]) else None)
  {
    assert Elements(chain + [x]) == Elements(chain) + {x} by {
      assert forall y :: y in chain + [x] <==> y in chain || y == x;
    }
    assert Elements(ordered) + Elements(chain) + {x} == Elements(ordered) + Elements(chain + [x]);
  }

  lemma {:induction false} OrderMore<Node>(g: Graph<Node>, nodes: set<Node>, sorted: seq<Node>, i: nat)
    requires (forall y :: y in g ==> g[y] in nodes) && (forall k :: 0 <= k < |sorted| ==> sorted[k] in nodes)
    requires i < |sorted|
    ensures var before := Order(g, nodes, sorted[..i]);
      Order(g, nodes, sorted[..i + 1]) == before + Reversed(WalkUp(g, nodes, Elements(before), sorted[i]))
  {
    assert sorted[..i + 1][..i] == sorted[..i];
  }

  /** A walk from start so far, and where it goes next. */
  ghost predicate Walking<Node>(g: Graph<Node>, nodes: set<Node>, ordered: seq<Node>, start: Node, placed: set<Node>,
      chain: seq<Node>, group: Option<Node>)
  {
    && (forall x :: x in g ==> g[x] in nodes) && (group.Some? ==> group.value in nodes) && start in nodes
    && placed == Elements(ordered) + Elements(chain) && placed <= nodes
    && Chain(g, chain) && Distinct(chain) && (forall k :: 0 <= k < |chain| ==> chain[k] !in ordered)
    && (if chain == [] then group == Some(start)
        else start in chain && var last := chain[|chain| - 1]; group == if last in g then Some(g[last]) else None)
    && chain + RestOfWalk(g, nodes, placed, group) == WalkUp(g, nodes, Elements(ordered), start)
  }

  lemma WalkingStarts<Node>(g: Graph<Node>, nodes: set<Node>, ordered: seq<Node>, start: Node)
    requires (forall x :: x in g ==> g[x] in nodes) && start in nodes && Elements(ordered) <= nodes
    ensures Walking(g, nodes, ordered, start, Elements(ordered), [], Some(start))
  {
    assert Elements(ordered) + Elements<Node>([]) == Elements(ordered);
  }

  lemma WalkingMore<Node>(g: Graph<Node>, nodes: set<Node>, ordered: seq<Node>, start: Node, placed: set<Node>,
      chain: seq<Node>, x: Node)
    requires Walking(g, nodes, ordered, start, placed, chain, Some(x)) && x !in placed
    ensures Walking(g, nodes, ordered, start, placed + {x}, chain + [x], if x in g then Some(g[x]) else None)
  {
    WalkMore(g, nodes, ordered, chain, x);
    assert Elements(chain + [x]) == Elements(chain) + {x} by {
      assert forall y :: y in chain + [x] <==> y in chain || y == x;
    }
    assert x in Elements(chain + [x]);
    assert placed + {x} == Elements(ordered) + Elements(chain + [x]);
    ChainSnoc(g, chain, x);
  }

  lemma {:induction false} WalkingEnds<Node>(g: Graph<Node>, nodes: set<Node>, ordered: seq<Node>, start: Node,
      placed: set<Node>,
      chain: seq<Node>, group: Option<Node>)
    requires Walking(g, nodes, ordered, start, placed, chain, group) && (group.Some? ==> group.value in placed)
    ensures chain == WalkUp(g, nodes, Elements(ordered), start) && Elements(chain) <= nodes
    ensures if chain == [] then start in ordered else start in chain && Walked(g, ordered, chain)
  {
    assert RestOfWalk(g, nodes, placed, group) == [];
  }

  /** The first i nodes are placed, each behind its ancestors. */
  ghost predicate Ordering<Node>(g: Graph<Node>, sorted: seq<Node>, i: nat, ordered: seq<Node>, placed: set<Node>) {
    && i <= |sorted| && (forall x :: x in g ==> g[x] in sorted)
    && Placed(g, ordered) && placed == Elements(ordered) && placed <= Elements(sorted)
    && (forall k :: 0 <= k < i ==> sorted[k] in placed)
    && ordered == Order(g, Elements(sorted), sorted[..i])
  }

  lemma {:induction false} OrderingMore<Node>(g: Graph<Node>, sorted: seq<Node>, i: nat, ordered: seq<Node>,
      placed: set<Node>,
      chain: seq<Node>)
    requires Ordering(g, sorted, i, ordered, placed) && i < |sorted|
    requires chain == WalkUp(g, Elements(sorted), Elements(ordered), sorted[i]) && Elements(chain) <= Elements(sorted)
    requires if chain == [] then sorted[i] in ordered else sorted[i] in chain && Walked(g, ordered, chain)
    ensures Ordering(g, sorted, i + 1, ordered + Reversed(chain), placed + Elements(chain))
  {
    OrderMore(g, Elements(sorted), sorted, i);
    if chain == [] {
      assert ordered + Reversed(chain) == ordered && placed + Elements(chain) == placed;
    } else {
      ChainPlaced(g, ordered, chain);
    }
  }

  lemma {:induction false} OrderingEnds<Node>(g: Graph<Node>, sorted: seq<Node>, ordered: seq<Node>, placed: set<Node>)
    requires Ordering(g, sorted, |sorted|, ordered, placed)
    ensures Distinct(ordered) && Elements(ordered) == Elements(sorted) && ParentsFirst(g, ordered)
    ensures ordered == Order(g, Elements(sorted), sorted)
  {
    assert sorted[..|sorted|] == sorted;
    assert forall x :: x in sorted ==> x in placed;
  }

  /** Walks from each start to its topmost unplaced ancestor and puts the walk down in reverse. */
  method OrderParentsFirst<Node(==)>(sorted: seq<Node>, g: Graph<Node>) returns (ordered: seq<Node>)
    requires Distinct(sorted) && forall x :: x in g ==> g[x] in sorted
    ensures Distinct(ordered) && Elements(ordered) == Elements(sorted)
    ensures ParentsFirst(g, ordered)
    ensures ordered == Order(g, Elements(sorted), sorted)
  {
    ordered := [];
    var placed: set<Node> := {};
    var i := 0;
    while i < |sorted|
      invariant i <= |sorted| && Ordering(g, sorted, i, ordered, placed)
    {
      var chain := WalkFrom(Elements(sorted), g, ordered, placed, sorted[i]);
      OrderingMore(g, sorted, i, ordered, placed, chain);
      ordered := ordered + Reversed(chain);
      placed := placed + Elements(chain);
      i := i + 1;
    }
    OrderingEnds(g, sorted, ordered, placed);
  }

  /** The walk from one start. */
  method WalkFrom<Node(==)>(nodes: set<Node>, g: Graph<Node>, ordered: seq<Node>, before: set<Node>, start: Node)
      returns (chain: seq<Node>)
    requires (forall x :: x in g ==> g[x] in nodes) && start in nodes
    requires before == Elements(ordered) && before <= nodes
    ensures chain == WalkUp(g, nodes, Elements(ordered), start) && Elements(chain) <= nodes
    ensures if chain == [] then start in ordered else start in chain && Walked(g, ordered, chain)
  {
    chain := [];
    var placed := before;
    var group := Some(start);
    WalkingStarts(g, nodes, ordered, start);
    while group.Some? && group.value !in placed
      invariant Walking(g, nodes, ordered, start, placed, chain, group)
      decreases nodes - placed
    {
      var x := group.value;
      WalkingMore(g, nodes, ordered, start, placed, chain, x);
      placed := placed + {x};
      chain := chain + [x];
      group := if x in g then Some(g[x]) else None;
    }
    WalkingEnds(g, nodes, ordered, start, placed, chain, group);
  }

  /** Whatever the order, a cycle has a late link: with ParentsFirst, exactly one. */
  lemma {:induction false} CycleHasLate<Node>(g: Graph<Node>, ordered: seq<Node>, i: nat) returns (j: nat)
    requires Closed(g, Elements(ordered)) && i < |ordered| && OnCycle(g, ordered[i])
    ensures j < |ordered| && Late(g, ordered, j) && Together(g, ordered[i], ordered[j])
    decreases i
  {
    var x := ordered[i];
    ReachesStep(g, x);
    if Late(g, ordered, i) {
      j := i;
    } else {
      var k: nat :| k < i && ordered[k] == g[x];
      assert Together(g, x, g[x]);
      CycleStep(g, x);
      j := CycleHasLate(g, ordered, k);
      ReachesTrans(g, x, g[x], ordered[j]);
      ReachesTrans(g, ordered[j], g[x], x);
    }
  }

  lemma CycleStep<Node>(g: Graph<Node>, x: Node)
    requires OnCycle(g, x)
    ensures OnCycle(g, g[x])
  {
    var k: nat :| Climb(g, g[x], k) == Some(x);
    ClimbAdds(g, g[x], k, 1);
    assert Climb(g, g[x], k + 1) == Some(g[x]);
    assert Climb(g, g[g[x]], k) == Some(g[x]);
  }

  // ---- Cutting cycles

  /** The links to nodes there are. */
  ghost function Known<Node>(g: Graph<Node>, nodes: seq<Node>): Graph<Node> {
    map x | x in g && g[x] in nodes :: g[x]
  }

  /** A rank that falls with every link, so that climbing ends. */
  ghost predicate Ranked<Node>(g: Graph<Node>, rank: map<Node, nat>) {
    forall x :: x in g ==> x in rank && g[x] in rank && rank[g[x]] < rank[x]
  }

  lemma {:induction false} RankFalls<Node>(g: Graph<Node>, rank: map<Node, nat>, x: Node, k: nat)
    requires Ranked(g, rank) && x in rank && Climb(g, x, k).Some?
    ensures Climb(g, x, k).value in rank && rank[Climb(g, x, k).value] + k <= rank[x]
  {
    if k > 0 {
      RankFalls(g, rank, g[x], k - 1);
    }
  }

  lemma RankedIsForest<Node>(g: Graph<Node>, rank: map<Node, nat>, x: Node)
    requires Ranked(g, rank)
    ensures !OnCycle(g, x)
  {
    if OnCycle(g, x) {
      var k: nat :| Climb(g, g[x], k) == Some(x);
      RankFalls(g, rank, g[x], k);
      assert false;
    }
  }

  ghost predicate Parted<Node>(g: Graph<Node>, cut: seq<Node>) {
    && (forall i :: 0 <= i < |cut| ==> OnCycle(g, cut[i]))
    && (forall i, j :: 0 <= i < j < |cut| ==> !Together(g, cut[i], cut[j]))
  }

  function Without<Node(==)>(g: Graph<Node>, cut: seq<Node>): Graph<Node> {
    map x | x in g && x !in cut :: g[x]
  }

  /** A node on a cycle without a cut would still be on it. */
  lemma {:induction false} UncutClimb<Node>(g: Graph<Node>, cut: seq<Node>, x: Node, y: Node, j: nat, k: nat)
    requires Climb(g, x, j) == Some(y) && Climb(g, y, k) == Some(x)
    requires forall z :: z in cut ==> !Together(g, x, z)
    ensures Climb(Without(g, cut), y, k) == Some(x)
    decreases k
  {
    if k > 0 {
      assert Together(g, x, y);
      ClimbAdds(g, x, j, 1);
      assert Climb(g, y, 1) == Some(g[y]);
      UncutClimb(g, cut, x, g[y], j + 1, k - 1);
    }
  }

  /** The node's cycle lost a link. */
  ghost predicate CutNear<Node>(g: Graph<Node>, cut: seq<Node>, x: Node) {
    exists y :: y in cut && Together(g, x, y)
  }

  ghost predicate AllCut<Node>(g: Graph<Node>, cut: seq<Node>) {
    forall x {:trigger CutNear(g, cut, x)} :: x in g && OnCycle(g, x) ==> CutNear(g, cut, x)
  }

  lemma EveryCycleIsCut<Node>(g: Graph<Node>, cut: seq<Node>, rank: map<Node, nat>, x: Node)
    requires OnCycle(g, x) && Ranked(Without(g, cut), rank)
    ensures CutNear(g, cut, x)
  {
    ReachesStep(g, x);
    if forall z :: z in cut ==> !Together(g, x, z) {
      var k: nat :| Climb(g, g[x], k) == Some(x);
      assert Together(g, x, x);
      assert Climb(g, x, 1) == Some(g[x]);
      UncutClimb(g, cut, x, g[x], 1, k);
      assert Climb(Without(g, cut), Without(g, cut)[x], k) == Some(x);
      RankedIsForest(Without(g, cut), rank, x);
    }
  }

  /** The rank of a chain above what it ends at. */
  ghost function Extended<Node>(rank: map<Node, nat>, chain: seq<Node>, base: nat): map<Node, nat>
    requires Distinct(chain)
  {
    rank + map k | 0 <= k < |chain| :: chain[k] := base + |chain| - 1 - k
  }

  lemma ExtendedAt<Node>(rank: map<Node, nat>, chain: seq<Node>, base: nat)
    requires Distinct(chain) && forall k :: 0 <= k < |chain| ==> chain[k] !in rank
    ensures forall x :: x in rank ==> x in Extended(rank, chain, base) && Extended(rank, chain, base)[x] == rank[x]
    ensures forall k :: 0 <= k < |chain| ==>
      chain[k] in Extended(rank, chain, base) && Extended(rank, chain, base)[chain[k]] == base + |chain| - 1 - k
    ensures Extended(rank, chain, base).Keys == rank.Keys + Elements(chain)
  {
    var fresh_ := map k | 0 <= k < |chain| :: chain[k] := base + |chain| - 1 - k;
    assert forall k :: 0 <= k < |chain| ==> chain[k] in fresh_;
    assert forall x :: x in fresh_ ==> x in chain;
  }

  /** What the visits so far leave: g is the graph of links to known nodes, without those cut. */
  ghost predicate Visited<Node>(g: Graph<Node>, cut: seq<Node>, rank: map<Node, nat>) {
    && Closed(g, rank.Keys) && Parted(g, cut) && (forall i :: 0 <= i < |cut| ==> cut[i] in rank)
    && (forall x :: x in rank && x in g && x !in cut ==> rank[g[x]] < rank[x])
  }

  /** How a walk over unvisited nodes ends: above a visited node, at a root, or back on itself. */
  ghost predicate WalkEnds<Node>(g: Graph<Node>, rank: map<Node, nat>, chain: seq<Node>, back: bool) {
    && Chain(g, chain) && Distinct(chain) && chain != []
    && (forall k :: 0 <= k < |chain| ==> chain[k] !in rank)
    && var last := chain[|chain| - 1];
    && (back ==> last in g && g[last] in chain)
    && (!back && last in g ==> g[last] in rank)
  }

  ghost function Base<Node>(g: Graph<Node>, rank: map<Node, nat>, last: Node): nat {
    if last in g && g[last] in rank then rank[g[last]] + 1 else 0
  }

  lemma ChainRank<Node>(g: Graph<Node>, rank: map<Node, nat>, chain: seq<Node>, back: bool, k: nat)
    requires WalkEnds(g, rank, chain, back) && k < |chain| && chain[k] in g
    ensures var last := chain[|chain| - 1];
      var after := Extended(rank, chain, Base(g, rank, last));
      && g[chain[k]] in after
      && (k < |chain| - 1 || !back ==> after[g[chain[k]]] < after[chain[k]])
  {
    var last := chain[|chain| - 1];
    ExtendedAt(rank, chain, Base(g, rank, last));
    if k < |chain| - 1 {
      assert Linked(g, chain, k);
    }
  }

  lemma WalkRanks<Node>(g: Graph<Node>, cut: seq<Node>, rank: map<Node, nat>, chain: seq<Node>, back: bool)
    requires Visited(g, cut, rank) && WalkEnds(g, rank, chain, back)
    ensures var last := chain[|chain| - 1];
      var after := Extended(rank, chain, Base(g, rank, last));
      && Closed(g, after.Keys)
      && forall x :: x in after && x in g && x !in (if back then cut + [last] else cut) ==> after[g[x]] < after[x]
  {
    var last := chain[|chain| - 1];
    var after := Extended(rank, chain, Base(g, rank, last));
    ExtendedAt(rank, chain, Base(g, rank, last));
    forall x | x in after && x in g
      ensures g[x] in after
      ensures x !in (if back then cut + [last] else cut) ==> after[g[x]] < after[x]
    {
      if x in rank {
        assert g[x] in rank.Keys;
      } else {
        var k :| 0 <= k < |chain| && chain[k] == x;
        ChainRank(g, rank, chain, back, k);
      }
    }
  }

  lemma BackOnCycle<Node>(g: Graph<Node>, chain: seq<Node>)
    requires Chain(g, chain) && chain != [] && chain[|chain| - 1] in g && g[chain[|chain| - 1]] in chain
    ensures OnCycle(g, chain[|chain| - 1])
  {
    var last := chain[|chain| - 1];
    var k :| 0 <= k < |chain| && chain[k] == g[last];
    ChainReaches(g, chain, k, |chain| - 1);
  }

  /** A cycle walked into for the first time has no cut yet. */
  lemma PartedMore<Node>(g: Graph<Node>, cut: seq<Node>, seen: set<Node>, last: Node)
    requires Parted(g, cut) && Closed(g, seen) && (forall i :: 0 <= i < |cut| ==> cut[i] in seen)
    requires last !in seen && OnCycle(g, last)
    ensures Parted(g, cut + [last])
  {
    forall i | 0 <= i < |cut|
      ensures !Together(g, cut[i], last)
    {
      if Reaches(g, cut[i], last) {
        ReachesInside(g, seen, cut[i], last);
        assert false;
      }
    }
  }

  lemma WalkVisited<Node>(g: Graph<Node>, cut: seq<Node>, rank: map<Node, nat>, chain: seq<Node>, back: bool)
    requires Visited(g, cut, rank) && WalkEnds(g, rank, chain, back)
    ensures var last := chain[|chain| - 1];
      Visited(g, if back then cut + [last] else cut, Extended(rank, chain, Base(g, rank, last)))
  {
    var last := chain[|chain| - 1];
    WalkRanks(g, cut, rank, chain, back);
    ExtendedAt(rank, chain, Base(g, rank, last));
    if back {
      BackOnCycle(g, chain);
      PartedMore(g, cut, rank.Keys, last);
    }
  }

  lemma KnownWithout<Node>(parents: Graph<Node>, entries: seq<Node>, cut: seq<Node>)
    ensures Known(Without(parents, cut), entries) == Without(Known(parents, entries), cut)
  {
  }

  lemma WithoutMore<Node>(g: Graph<Node>, cut: seq<Node>, x: Node)
    ensures Without(g, cut) - {x} == Without(g, cut + [x])
  {
    assert forall y :: y in cut + [x] <==> y in cut || y == x;
  }

  /** Walks up from an unvisited entry; a link back into the walk is cut. */
  method Walk<Node(==)>(entries: seq<Node>, start: Node, visited: set<Node>, parents: Graph<Node>)
      returns (links: Graph<Node>, seen: seq<Node>, back: bool)
    requires start in entries && start !in visited
    ensures Chain(Known(parents, entries), seen) && Distinct(seen) && seen != [] && start in seen
    ensures forall k :: 0 <= k < |seen| ==> seen[k] !in visited && seen[k] in entries
    ensures var g, last := Known(parents, entries), seen[|seen| - 1];
      && links == (if back then parents - {last} else parents)
      && (back ==> last in g && g[last] in seen)
      && (!back && last in g ==> g[last] in visited)
  {
    links, seen, back := parents, [start], false;
    var node := start;
    ghost var g := Known(parents, entries);
    while node in links && links[node] in entries && links[node] !in visited
      invariant Chain(g, seen) && Distinct(seen) && seen != [] && node == seen[|seen| - 1] && start in seen
      invariant forall k :: 0 <= k < |seen| ==> seen[k] !in visited && seen[k] in entries
      invariant links == parents && !back
      decreases Elements(entries) - Elements(seen)
    {
      var parent := links[node];
      if parent in seen {
        links, back := links - {node}, true;
        return;
      }
      assert parent in Elements(entries) && parent !in Elements(seen);
      assert Elements(seen + [parent]) == Elements(seen) + {parent};
      ChainSnoc(g, seen, parent);
      seen, node := seen + [parent], parent;
    }
  }

  lemma KnownOf<Node>(parents: Graph<Node>, entries: seq<Node>, cut: seq<Node>, seen: seq<Node>)
    requires forall k :: 0 <= k < |seen| ==> seen[k] !in cut
    ensures Chain(Known(Without(parents, cut), entries), seen) ==> Chain(Known(parents, entries), seen)
    ensures forall k :: 0 <= k < |seen| ==>
      (seen[k] in Known(parents, entries) <==> seen[k] in Known(Without(parents, cut), entries))
  {
    var less, all := Known(Without(parents, cut), entries), Known(parents, entries);
    if Chain(less, seen) {
      forall k: nat | k < |seen| - 1
        ensures Linked(all, seen, k)
      {
        assert Linked(less, seen, k);
      }
    }
  }

  lemma NotCut<Node>(g: Graph<Node>, cut: seq<Node>, rank: map<Node, nat>, seen: seq<Node>)
    requires Visited(g, cut, rank) && forall k :: 0 <= k < |seen| ==> seen[k] !in rank
    ensures forall k :: 0 <= k < |seen| ==> seen[k] !in cut
  {
  }

  lemma WalkDone<Node>(parents: Graph<Node>, entries: seq<Node>, cut: seq<Node>, rank: map<Node, nat>, seen: seq<Node>,
      back: bool)
    requires Visited(Known(parents, entries), cut, rank)
    requires Chain(Known(Without(parents, cut), entries), seen) && Distinct(seen) && seen != []
    requires forall k :: 0 <= k < |seen| ==> seen[k] !in rank && seen[k] in entries
    requires var g, last := Known(Without(parents, cut), entries), seen[|seen| - 1];
      && (back ==> last in g && g[last] in seen)
      && (!back && last in g ==> g[last] in rank)
    ensures var g, last := Known(parents, entries), seen[|seen| - 1];
      Visited(g, if back then cut + [last] else cut, Extended(rank, seen, Base(g, rank, last)))
  {
    NotCut(Known(parents, entries), cut, rank, seen);
    KnownOf(parents, entries, cut, seen);
    WalkVisited(Known(parents, entries), cut, rank, seen, back);
  }

  /** The links and the cuts after some visits. */
  ghost predicate Cutting<Node>(entries: seq<Node>, parents: Graph<Node>, links: Graph<Node>, cut: seq<Node>,
      visited: set<Node>, rank: map<Node, nat>)
  {
    && links == Without(parents, cut) && Visited(Known(parents, entries), cut, rank)
    && visited == rank.Keys && visited <= Elements(entries)
  }

  /** What is left is a forest, ranked by depth; each cycle lost exactly one link, and no other
      link is lost. */
  ghost predicate Forested<Node>(entries: seq<Node>, parents: Graph<Node>, links: Graph<Node>, cut: seq<Node>,
      rank: map<Node, nat>)
  {
    && links == Without(parents, cut)
    && Ranked(Known(links, entries), rank) && rank.Keys == Elements(entries)
    && Parted(Known(parents, entries), cut) && AllCut(Known(parents, entries), cut)
  }

  /** The links cut are one of each loop, and no loop is left. */
  ghost predicate Broken<Node>(entries: seq<Node>, parents: Graph<Node>, links: Graph<Node>, cut: seq<Node>) {
    && links == Without(parents, cut) && Parted(Known(parents, entries), cut) && AllCut(Known(parents, entries), cut)
    && forall x :: x in links ==> !OnCycle(Known(links, entries), x)
  }

  lemma ForestedIsBroken<Node>(entries: seq<Node>, parents: Graph<Node>, links: Graph<Node>, cut: seq<Node>,
      rank: map<Node, nat>)
    requires Forested(entries, parents, links, cut, rank)
    ensures Broken(entries, parents, links, cut)
  {
    forall x | x in links
      ensures !OnCycle(Known(links, entries), x)
    {
      RankedIsForest(Known(links, entries), rank, x);
    }
  }

  lemma CuttingStarts<Node>(entries: seq<Node>, parents: Graph<Node>)
    ensures Cutting(entries, parents, parents, [], {}, map[])
  {
  }

  lemma CuttingEnds<Node>(entries: seq<Node>, parents: Graph<Node>, links: Graph<Node>, cut: seq<Node>,
      visited: set<Node>, rank: map<Node, nat>)
    requires (forall x :: x in parents ==> x in entries) && Cutting(entries, parents, links, cut, visited, rank)
    requires forall x :: x in entries ==> x in visited
    ensures Forested(entries, parents, links, cut, rank)
  {
    KnownWithout(parents, entries, cut);
    forall x | OnCycle(Known(parents, entries), x)
      ensures CutNear(Known(parents, entries), cut, x)
    {
      EveryCycleIsCut(Known(parents, entries), cut, rank, x);
    }
  }

  /** One turn of the loop: the walk from an entry not visited yet. */
  method Visit<Node(==)>(entries: seq<Node>, start: Node, visited: set<Node>, links: Graph<Node>, cut: seq<Node>,
      ghost parents: Graph<Node>, ghost rank: map<Node, nat>)
    returns (less: Graph<Node>, more: seq<Node>, nodes: set<Node>, ghost ranked: map<Node, nat>)
    requires Cutting(entries, parents, links, cut, visited, rank) && start in entries && start !in visited
    ensures Cutting(entries, parents, less, more, nodes, ranked) && visited + {start} <= nodes
  {
    var seen, back;
    less, seen, back := Walk(entries, start, visited, links);
    var last := seen[|seen| - 1];
    WalkDone(parents, entries, cut, rank, seen, back);
    ExtendedAt(rank, seen, Base(Known(parents, entries), rank, last));
    ranked := Extended(rank, seen, Base(Known(parents, entries), rank, last));
    nodes := visited + Elements(seen);
    WithoutMore(parents, cut, last);
    more := if back then cut + [last] else cut;
  }

  /** Cuts the link that closes each loop of parent links. */
  method CutCycles<Node(==)>(entries: seq<Node>, parents: Graph<Node>)
      returns (links: Graph<Node>, cut: seq<Node>, ghost rank: map<Node, nat>)
    requires forall x :: x in parents ==> x in entries
    ensures Forested(entries, parents, links, cut, rank)
    ensures Broken(entries, parents, links, cut)
  {
    links, cut, rank := parents, [], map[];
    var visited: set<Node> := {};
    var i := 0;
    CuttingStarts(entries, parents);
    while i < |entries|
      invariant i <= |entries| && Cutting(entries, parents, links, cut, visited, rank)
      invariant forall k :: 0 <= k < i ==> entries[k] in visited
    {
      if entries[i] !in visited {
        links, cut, visited, rank := Visit(entries, entries[i], visited, links, cut, parents, rank);
      }
      i := i + 1;
    }
    CuttingEnds(entries, parents, links, cut, visited, rank);
    ForestedIsBroken(entries, parents, links, cut, rank);
  }

  // ---- The path to a node

  /** From a node whose parent is not known down to the target, each the parent of the next. */
  ghost predicate IsPath<Node>(links: Graph<Node>, entries: seq<Node>, path: seq<Node>, target: Node) {
    && path != [] && path[|path| - 1] == target
    && (forall k :: 0 <= k < |path| ==> path[k] in entries)
    && Chain(links, Reversed(path))
    && (path[0] in links ==> links[path[0]] !in entries)
  }

  lemma NoSelfLink<Node>(g: Graph<Node>, rank: map<Node, nat>, x: Node)
    requires Ranked(g, rank)
    ensures x in g ==> g[x] != x
  {
  }

  lemma UpIsPath<Node>(links: Graph<Node>, entries: seq<Node>, up: seq<Node>, target: Node)
    requires Chain(links, up) && up != [] && up[0] == target
    requires forall k :: 0 <= k < |up| ==> up[k] in entries
    requires up[|up| - 1] in links ==> links[up[|up| - 1]] !in entries
    ensures IsPath(links, entries, Reversed(up), target)
  {
    var path := Reversed(up);
    assert Reversed(path) == up by {
      BackAgain(up);
    }
    forall k | 0 <= k < |path|
      ensures path[k] in entries
    {
      assert path[k] == up[|up| - 1 - k];
    }
  }

  lemma BackAgain<Node>(s: seq<Node>)
    ensures Reversed(Reversed(s)) == s
  {
    var back := Reversed(s);
    forall k | 0 <= k < |s|
      ensures Reversed(back)[k] == s[k]
    {
      assert back[|s| - 1 - k] == s[k];
    }
  }

  method GetPath<Node(==)>(entries: seq<Node>, links: Graph<Node>, target: Node, ghost rank: map<Node, nat>)
      returns (path: seq<Node>)
    requires Ranked(Known(links, entries), rank)
    ensures target !in entries ==> path == []
    ensures target in entries ==> IsPath(links, entries, path, target)
  {
    var up: seq<Node> := [];
    var current := if target in entries then Some(target) else None;
    ghost var g := Known(links, entries);
    while current.Some?
      invariant target in entries ==> if up == [] then current == Some(target) else up[0] == target
      invariant target !in entries ==> up == [] && current.None?
      invariant forall k :: 0 <= k < |up| ==> up[k] in entries
      invariant Chain(links, up)
      invariant up != [] ==> var last := up[|up| - 1]; current == if last in g then Some(g[last]) else None
      invariant current.Some? ==> current.value in entries
      decreases if current.None? then 0 else if current.value in rank then rank[current.value] + 2 else 1
    {
      var x := current.value;
      ChainSnoc(links, up, x);
      up := up + [x];
      NoSelfLink(g, rank, x);
      if x !in links || links[x] == x {
        break;
      }
      assert links[x] in entries ==> x in g;
      current := if links[x] in entries then Some(links[x]) else None;
    }
    path := Reversed(up);
    if target in entries {
      UpIsPath(links, entries, up, target);
    }
  }
}
