/** Sessions: each trace with its child traces, from parent links that may be missing or loop. */
module Lineage {
  import opened Utf8
  import opened ParentGraph

  type Id = nat

  /** A traces row; parentNativeId is empty without a parent, and updated orders updated_at. */
  datatype Trace = Trace(harness: string, nativeId: string, parentNativeId: string, updated: nat)

  type Traces = map<Id, Trace>

  /** UNIQUE(harness, native_trace_id), and what validation demands of an archive. */
  ghost predicate Valid(traces: Traces) {
    && (forall a, b ::
          (a in traces && b in traces && traces[a].harness == traces[b].harness &&
           traces[a].nativeId == traces[b].nativeId) ==> a == b)
    && (forall a :: a in traces ==> a > 0 && traces[a].nativeId != "")
  }

  /** The row the parent id names, in the same harness. */
  predicate Names(traces: Traces, c: Id, p: Id)
    requires c in traces
  {
    p in traces && traces[p].harness == traces[c].harness && traces[p].nativeId == traces[c].parentNativeId
  }

  predicate Joins(traces: Traces, c: Id, p: Id) {
    c in traces && traces[c].parentNativeId != "" && Names(traces, c, p)
  }

  /** The links between collected traces. */
  ghost function Links(traces: Traces): (g: Graph<Id>)
    ensures forall c :: c in g ==> Joins(traces, c, g[c])
    ensures forall c: Id, p: Id :: Joins(traces, c, p) ==> c in g
  {
    map c: Id | c in traces && (exists p :: Joins(traces, c, p)) :: (var p :| Joins(traces, c, p); p)
  }

  lemma LinkIsJoin(traces: Traces, c: Id, p: Id)
    requires Valid(traces)
    ensures Joins(traces, c, p) <==> c in Links(traces) && Links(traces)[c] == p
  {
  }

  // ---- The recursive query

  /** c is below a. */
  ghost predicate Below(g: Graph<Id>, c: Id, a: Id) {
    c in g && Reaches<Id>(g, g[c], a)
  }

  /** All rows are below, and every link up from a row that is not new gives a row. */
  ghost predicate Rising(g: Graph<Id>, up: set<(Id, Id)>, added: set<(Id, Id)>) {
    && added <= up
    && (forall row :: row in up ==> Below(g, row.0, row.1))
    && (forall c :: c in g ==> (c, g[c]) in up)
    && (forall row :: row in up && row !in added && row.1 in g ==> (row.0, g[row.1]) in up)
  }

  lemma {:induction false} RisesTo(g: Graph<Id>, up: set<(Id, Id)>, c: Id, a: Id, k: nat)
    requires Rising(g, up, {}) && (c, a) in up && Climb<Id>(g, a, k).Some?
    ensures (c, Climb<Id>(g, a, k).value) in up
    decreases k
  {
    if k > 0 {
      assert (c, g[a]) in up;
      RisesTo(g, up, c, g[a], k - 1);
    }
  }

  lemma RiseEnds(g: Graph<Id>, up: set<(Id, Id)>)
    requires Rising(g, up, {})
    ensures forall c: Id, a: Id :: (c, a) in up <==> Below(g, c, a)
  {
    forall c: Id, a: Id | Below(g, c, a)
      ensures (c, a) in up
    {
      var k: nat :| Climb<Id>(g, g[c], k) == Some(a);
      RisesTo(g, up, c, g[c], k);
    }
    forall c: Id, a: Id | (c, a) in up
      ensures Below(g, c, a)
    {
      assert Below(g, (c, a).0, (c, a).1);
    }
  }

  function First(traces: Traces): set<(Id, Id)> {
    set c, p | c in traces && p in traces && Joins(traces, c, p) :: (c, p)
  }

  /** The recursive step over the rows added last. */
  function Next(traces: Traces, rows: set<(Id, Id)>): set<(Id, Id)> {
    set row, p | row in rows && p in traces && Joins(traces, row.1, p) :: (row.0, p)
  }

  lemma Starts(traces: Traces)
    requires Valid(traces)
    ensures Rising(Links(traces), First(traces), First(traces))
  {
    var g := Links(traces);
    forall row | row in First(traces)
      ensures Below(g, row.0, row.1)
    {
      LinkIsJoin(traces, row.0, row.1);
      ReachesStep(g, row.0);
      assert Climb<Id>(g, row.1, 0) == Some(row.1);
    }
  }

  lemma BelowMore(g: Graph<Id>, c: Id, a: Id)
    requires Below(g, c, a) && a in g
    ensures Below(g, c, g[a])
  {
    ReachesStep(g, a);
    ReachesTrans(g, g[c], a, g[a]);
  }

  lemma Rises(traces: Traces, up: set<(Id, Id)>, added: set<(Id, Id)>)
    requires Valid(traces) && Rising(Links(traces), up, added)
    ensures var more := Next(traces, added) - up; Rising(Links(traces), up + more, more)
  {
    var g, more := Links(traces), Next(traces, added) - up;
    forall row | row in more
      ensures Below(g, row.0, row.1)
    {
      var was, p :| was in added && p in traces && Joins(traces, was.1, p) && row == (was.0, p);
      LinkIsJoin(traces, was.1, p);
      BelowMore(g, was.0, was.1);
    }
    forall row | row in up + more && row !in more && row.1 in g
      ensures (row.0, g[row.1]) in up + more
    {
      if row in added {
        assert (row.0, g[row.1]) in Next(traces, added);
      }
    }
  }

  ghost function Pairs(traces: Traces): set<(Id, Id)> {
    set c, p | c in traces && p in traces :: (c, p)
  }

  lemma InPairs(traces: Traces, rows: set<(Id, Id)>)
    requires rows <= Pairs(traces)
    ensures Next(traces, rows) <= Pairs(traces)
  {
  }

  lemma FewerPairs(all: set<(Id, Id)>, up: set<(Id, Id)>, more: set<(Id, Id)>)
    requires more <= all && more !! up
    ensures |all - (up + more)| + |more| <= |all - up|
  {
    assert all - up == (all - (up + more)) + more;
  }

  /** One turn of the recursion. */
  lemma Turn(traces: Traces, up: set<(Id, Id)>, added: set<(Id, Id)>)
    requires Valid(traces) && added <= Pairs(traces) && Rising(Links(traces), up, added)
    ensures var more := Next(traces, added) - up;
      && more <= Pairs(traces) && Rising(Links(traces), up + more, more)
      && |Pairs(traces) - (up + more)| + |more| <= |Pairs(traces) - up|
  {
    Rises(traces, up, added);
    InPairs(traces, added);
    FewerPairs(Pairs(traces), up, Next(traces, added) - up);
  }

  /** The up table: SQLite adds rows until none is new, which ends even when links loop. */
  method Up(traces: Traces) returns (up: set<(Id, Id)>)
    requires Valid(traces)
    ensures forall c: Id, a: Id :: (c, a) in up <==> Below(Links(traces), c, a)
  {
    up := First(traces);
    var added := up;
    Starts(traces);
    while added != {}
      invariant added <= Pairs(traces) && Rising(Links(traces), up, added)
      decreases |Pairs(traces) - up| + (if added == {} then 0 else 1)
    {
      Turn(traces, up, added);
      added := Next(traces, added) - up;
      up := up + added;
    }
    RiseEnds(Links(traces), up);
  }

  // ---- Sessions

  /** The top ancestor, when the climb from a trace ends above it. */
  ghost predicate Root(g: Graph<Id>, c: Id, a: Id) {
    Below(g, c, a) && a !in g
  }

  /** The trace whose card lists this one. */
  ghost function SessionOf(g: Graph<Id>, c: Id): Id {
    if a: Id :| Root(g, c, a) then a else c
  }

  ghost predicate Ends(g: Graph<Id>, x: Id) {
    exists a: Id :: Reaches<Id>(g, x, a) && a !in g
  }

  lemma {:induction false} OneEnd(g: Graph<Id>, x: Id, j: nat, k: nat)
    requires Climb<Id>(g, x, j).Some? && Climb<Id>(g, x, k).Some? && Climb<Id>(g, x, j).value !in g
    requires Climb<Id>(g, x, k).value !in g
    ensures Climb<Id>(g, x, j) == Climb<Id>(g, x, k)
    decreases j
  {
    if j > 0 && k > 0 {
      OneEnd(g, g[x], j - 1, k - 1);
    }
  }

  /** A trace has at most one root, so joining it never repeats a row. */
  lemma RootIsOne(g: Graph<Id>, c: Id, a: Id, b: Id)
    requires Root(g, c, a) && Root(g, c, b)
    ensures a == b && SessionOf(g, c) == a
  {
    forall b: Id | Root(g, c, b)
      ensures a == b
    {
      var j: nat :| Climb<Id>(g, g[c], j) == Some(a);
      var k: nat :| Climb<Id>(g, g[c], k) == Some(b);
      OneEnd(g, g[c], j, k);
    }
  }

  /** Sessions partition the traces: each is its top trace's session. */
  lemma SessionIsItsOwn(g: Graph<Id>, c: Id)
    ensures SessionOf(g, SessionOf(g, c)) == SessionOf(g, c)
  {
  }

  lemma ReachesFrom(g: Graph<Id>, c: Id, a: Id)
    requires c in g && Reaches<Id>(g, c, a) && c != a
    ensures Reaches<Id>(g, g[c], a)
  {
    var k: nat :| Climb<Id>(g, c, k) == Some(a);
    assert Climb<Id>(g, g[c], k - 1) == Some(a);
  }

  /** A child is listed with its parent exactly when the climb ends; in or under a loop both keep
      their own cards. */
  lemma ListedWithParent(g: Graph<Id>, c: Id)
    requires c in g && g[c] != c
    ensures SessionOf(g, c) == SessionOf(g, g[c]) <==> Ends(g, c)
    ensures !Ends(g, c) ==> SessionOf(g, c) == c && SessionOf(g, g[c]) == g[c]
  {
    var p := g[c];
    if a: Id :| Reaches<Id>(g, c, a) && a !in g {
      ReachesFrom(g, c, a);
      assert Root(g, c, a);
      RootIsOne(g, c, a, a);
      if p in g {
        ReachesFrom(g, p, a);
        RootIsOne(g, p, a, a);
      } else {
        assert Climb<Id>(g, p, 0) == Some(p);
        RootIsOne(g, c, a, p);
      }
    } else {
      NoRoot(g, c);
      if a: Id :| Root(g, p, a) {
        ReachesStep(g, c);
        ReachesStep(g, p);
        ReachesTrans(g, p, g[p], a);
        ReachesTrans(g, c, p, a);
      }
    }
  }

  lemma NoRoot(g: Graph<Id>, c: Id)
    requires !Ends(g, c)
    ensures SessionOf(g, c) == c
  {
    if a: Id :| Root(g, c, a) {
      ReachesStep(g, c);
      ReachesTrans(g, c, g[c], a);
    }
  }

  /** A climb that does not end runs into a loop. */
  lemma {:induction false} EndsOrLoops(g: Graph<Id>, x: Id, seen: set<Id>)
    requires seen <= g.Keys && forall y :: y in seen ==>
      Reaches<Id>(g, y, x) && (x in g ==> Reaches<Id>(g, y, x) && y in g && Reaches<Id>(g, g[y], x))
    ensures Ends(g, x) || exists y: Id :: Reaches<Id>(g, x, y) && OnCycle<Id>(g, y)
    decreases |g.Keys - seen|
  {
    assert Climb<Id>(g, x, 0) == Some(x);
    if x !in g {
      assert Reaches<Id>(g, x, x);
    } else if x in seen {
      assert OnCycle<Id>(g, x) && Reaches<Id>(g, x, x);
    } else {
      ReachesStep(g, x);
      forall y | y in seen + {x}
        ensures Reaches<Id>(g, y, g[x]) && Reaches<Id>(g, g[y], g[x])
      {
        if y != x {
          ReachesTrans(g, y, x, g[x]);
          ReachesTrans(g, g[y], x, g[x]);
        } else {
          assert Climb<Id>(g, g[x], 0) == Some(g[x]);
        }
      }
      assert g.Keys - (seen + {x}) == (g.Keys - seen) - {x};
      EndsOrLoops(g, g[x], seen + {x});
      LoopAbove(g, x);
    }
  }

  lemma LoopAbove(g: Graph<Id>, x: Id)
    requires x in g && (Ends(g, g[x]) || exists y: Id :: Reaches<Id>(g, g[x], y) && OnCycle<Id>(g, y))
    ensures Ends(g, x) || exists y: Id :: Reaches<Id>(g, x, y) && OnCycle<Id>(g, y)
  {
    ReachesStep(g, x);
    if a: Id :| Reaches<Id>(g, g[x], a) && a !in g {
      ReachesTrans(g, x, g[x], a);
    } else {
      var y: Id :| Reaches<Id>(g, g[x], y) && OnCycle<Id>(g, y);
      ReachesTrans(g, x, g[x], y);
    }
  }

  /** A trace keeps its own card exactly when its parent was never collected, or its parents run
      into a loop. */
  lemma OwnCard(traces: Traces, c: Id)
    requires Valid(traces) && c in traces
    ensures var g := Links(traces);
      SessionOf(g, c) == c <==> c !in g || exists y: Id :: Reaches<Id>(g, c, y) && OnCycle<Id>(g, y)
  {
    var g := Links(traces);
    if c in g {
      EndsOrLoops(g, c, {});
      if y: Id :| Reaches<Id>(g, c, y) && OnCycle<Id>(g, y) {
        LoopNeverEnds(g, c, y);
        NoRoot(g, c);
      } else {
        var a: Id :| Reaches<Id>(g, c, a) && a !in g;
        ReachesFrom(g, c, a);
        RootIsOne(g, c, a, a);
      }
    }
  }

  lemma {:induction false} OnCycleStays(g: Graph<Id>, y: Id, k: nat)
    requires OnCycle<Id>(g, y)
    ensures Climb<Id>(g, y, k).Some? && OnCycle<Id>(g, Climb<Id>(g, y, k).value)
    decreases k
  {
    if k > 0 {
      CycleStep(g, y);
      OnCycleStays(g, g[y], k - 1);
    }
  }

  lemma LoopNeverEnds(g: Graph<Id>, x: Id, y: Id)
    requires Reaches<Id>(g, x, y) && OnCycle<Id>(g, y)
    ensures !Ends(g, x)
  {
    if a: Id :| Reaches<Id>(g, x, a) && a !in g {
      var j: nat :| Climb<Id>(g, x, j) == Some(y);
      var k: nat :| Climb<Id>(g, x, k) == Some(a);
      if j <= k {
        ClimbAdds(g, x, j, k - j);
        OnCycleStays(g, y, k - j);
      } else {
        ClimbAdds(g, x, k, j - k);
      }
      assert false;
    }
  }

  lemma {:induction false} HarnessStays(traces: Traces, c: Id, k: nat)
    requires c in traces && Climb<Id>(Links(traces), c, k).Some?
    ensures var a := Climb<Id>(Links(traces), c, k).value; a in traces && traces[a].harness == traces[c].harness
    decreases k
  {
    if k > 0 {
      HarnessStays(traces, Links(traces)[c], k - 1);
    }
  }

  /** A session's traces are of one harness. */
  lemma SessionInHarness(traces: Traces, c: Id)
    requires c in traces
    ensures var s := SessionOf(Links(traces), c); s in traces && traces[s].harness == traces[c].harness
  {
    var g := Links(traces);
    var s := SessionOf(g, c);
    if s != c {
      var k: nat :| Climb<Id>(g, g[c], k) == Some(s);
      HarnessStays(traces, g[c], k);
    }
  }

  /** The lineage table. */
  ghost predicate IsLineage(traces: Traces, lineage: set<(Id, Id)>) {
    forall c: Id, a: Id :: (c, a) in lineage <==> c in traces && Root(Links(traces), c, a)
  }

  method Lineage(traces: Traces) returns (lineage: set<(Id, Id)>)
    requires Valid(traces)
    ensures IsLineage(traces, lineage)
  {
    var up := Up(traces);
    lineage := set row | row in up && row.1 in traces && !(exists p :: p in traces && Names(traces, row.1, p));
    forall c: Id, a: Id
      ensures (c, a) in lineage <==> c in traces && Root(Links(traces), c, a)
    {
      if c in traces {
        TopHasNoRow(traces, c, a);
      }
    }
  }

  /** COALESCE(l.root, t.id). */
  method Session(traces: Traces, lineage: set<(Id, Id)>, c: Id) returns (session: Id)
    requires IsLineage(traces, lineage) && c in traces
    ensures session == SessionOf(Links(traces), c)
  {
    var roots := set row | row in lineage && row.0 == c;
    if roots == {} {
      forall a: Id
        ensures !Root(Links(traces), c, a)
      {
        assert (c, a) !in roots;
      }
      return c;
    }
    var root :| root in roots;
    RootIsOne(Links(traces), c, root.1, root.1);
    return root.1;
  }

  lemma TopHasNoRow(traces: Traces, c: Id, a: Id)
    requires Valid(traces) && c in traces
    ensures Root(Links(traces), c, a) <==>
      Below(Links(traces), c, a) && a in traces && !exists p :: p in traces && Names(traces, a, p)
  {
    var g := Links(traces);
    if Below(g, c, a) {
      var k: nat :| Climb<Id>(g, g[c], k) == Some(a);
      HarnessStays(traces, g[c], k);
      if p :| p in traces && Names(traces, a, p) {
        assert Joins(traces, a, p);
      } else {
        assert a !in g;
      }
    }
  }
}
