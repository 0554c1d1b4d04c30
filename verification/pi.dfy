/** Pi transcripts: entries form a parent graph, so file order gives neither event order nor the
    model in force. */
module Pi {
  import opened Utf8
  import opened ParentGraph

  /** A record after the header; `repeated` marks another session header. */
  datatype Record = Record(id: string, parentId: string, repeated: bool, change: Option<Model>)

  datatype Model = Model(model: string, provider: string)

  const NO_MODEL := Model("", "")

  datatype PiWarning = NoId | Duplicate(id: string)

  // ---- Entries

  /** The entry map: the first record of each id. */
  function Entries(records: seq<Record>): map<string, Record> {
    if records == [] then map[]
    else
      var before, last := Entries(records[..|records| - 1]), records[|records| - 1];
      if last.repeated || last.id == "" || last.id in before then before else before[last.id := last]
  }

  /** The links between entries there are. */
  function Links(entries: map<string, Record>): Graph<string> {
    map id | id in entries && entries[id].parentId != "" && entries[id].parentId in entries :: entries[id].parentId
  }

  lemma {:induction false} EntriesNamed(records: seq<Record>, id: string)
    requires id in Entries(records)
    ensures Entries(records)[id].id == id && id != "" && Entries(records)[id] in records
  {
    var front := records[..|records| - 1];
    if id in Entries(front) {
      EntriesNamed(front, id);
    }
  }

  predicate IsEntry(r: Record) {
    !r.repeated && r.id != ""
  }

  ghost predicate UniqueIds(records: seq<Record>) {
    forall i, j :: 0 <= i < j < |records| && IsEntry(records[i]) && IsEntry(records[j]) ==>
      records[i].id != records[j].id
  }

  lemma {:induction false} NoSuchEntry(records: seq<Record>, id: string)
    requires forall i :: 0 <= i < |records| && IsEntry(records[i]) ==> records[i].id != id
    ensures id !in Entries(records)
  {
    if records != [] {
      NoSuchEntry(records[..|records| - 1], id);
    }
  }

  lemma {:induction false} EntryKept(records: seq<Record>, r: Record)
    requires UniqueIds(records) && r in records && IsEntry(r)
    ensures r.id in Entries(records) && Entries(records)[r.id] == r
  {
    var front, last := records[..|records| - 1], records[|records| - 1];
    if r in front {
      EntryKept(front, r);
    } else {
      NoSuchEntry(front, r.id);
    }
  }

  lemma {:induction false} EntriesAre(records: seq<Record>, id: string)
    requires id in Entries(records)
    ensures IsEntry(Entries(records)[id])
  {
    var front := records[..|records| - 1];
    if id in Entries(front) {
      EntriesAre(front, id);
    }
  }

  /** With unique ids the entries do not depend on the order of the file. */
  lemma {:induction false} FileOrderIsNothing(a: seq<Record>, b: seq<Record>)
    requires UniqueIds(a) && UniqueIds(b) && forall r :: r in a <==> r in b
    ensures Entries(a) == Entries(b)
  {
    forall id | id in Entries(a)
      ensures id in Entries(b) && Entries(b)[id] == Entries(a)[id]
    {
      EntriesNamed(a, id);
      EntriesAre(a, id);
      EntryKept(b, Entries(a)[id]);
    }
    forall id | id in Entries(b)
      ensures id in Entries(a)
    {
      EntriesNamed(b, id);
      EntriesAre(b, id);
      EntryKept(a, Entries(b)[id]);
    }
  }

  // ---- Sorted ids

  predicate StringLess(a: string, b: string)
    decreases |a|
  {
    if b == "" then false
    else if a == "" then true
    else a[0] < b[0] || (a[0] == b[0] && StringLess(a[1..], b[1..]))
  }

  lemma {:induction false} NotLessItself(a: string)
    ensures !StringLess(a, a)
  {
    if a != "" {
      NotLessItself(a[1..]);
    }
  }

  lemma {:induction false} LessOneWay(a: string, b: string)
    requires StringLess(a, b)
    ensures !StringLess(b, a)
    decreases |a|
  {
    if a != "" && a[0] == b[0] {
      LessOneWay(a[1..], b[1..]);
    }
  }

  ghost predicate Ascending(ids: seq<string>) {
    forall i, j :: 0 <= i < j < |ids| ==> StringLess(ids[i], ids[j])
  }

  lemma HasElements(ids: seq<string>)
    requires ids != []
    ensures Elements(ids) != {}
  {
    assert ids[0] in Elements(ids);
  }

  /** sort.Strings: one set of ids has one sorted order. */
  lemma {:induction false} SortedOnce(a: seq<string>, b: seq<string>)
    requires Ascending(a) && Ascending(b) && Elements(a) == Elements(b)
    ensures a == b
    decreases |a|
  {
    if a == [] {
      if b != [] {
        HasElements(b);
      }
    } else {
      assert a[0] in Elements(a);
      var j :| 0 <= j < |b| && b[j] == a[0];
      assert b[0] in Elements(b);
      var i :| 0 <= i < |a| && a[i] == b[0];
      if StringLess(a[0], b[0]) {
        LessOneWay(a[0], b[0]);
      }
      assert a[0] == b[0];
      TailElements(a);
      TailElements(b);
      SortedOnce(a[1..], b[1..]);
    }
  }

  lemma TailElements(a: seq<string>)
    requires Ascending(a) && a != []
    ensures Elements(a[1..]) == Elements(a) - {a[0]}
  {
    forall x | x in a[1..]
      ensures x != a[0]
    {
      var i :| 0 <= i < |a[1..]| && a[1..][i] == x;
      assert StringLess(a[0], a[i + 1]);
      NotLessItself(a[0]);
    }
  }

  lemma {:induction false} LessIsTotal(a: string, b: string)
    ensures StringLess(a, b) || StringLess(b, a) || a == b
    decreases |a|
  {
    if a != "" && b != "" && a[0] == b[0] {
      LessIsTotal(a[1..], b[1..]);
      assert a == [a[0]] + a[1..] && b == [b[0]] + b[1..];
    }
  }

  lemma {:induction false} LessGoesOn(a: string, b: string, c: string)
    requires StringLess(a, b) && StringLess(b, c)
    ensures StringLess(a, c)
    decreases |a|
  {
    if a != "" && a[0] == b[0] && b[0] == c[0] {
      LessGoesOn(a[1..], b[1..], c[1..]);
    }
  }

  /** A new id has its place among ascending ones. */
  lemma {:induction false} Placeable(ids: seq<string>, id: string) returns (more: seq<string>)
    requires Ascending(ids) && id !in ids
    ensures Ascending(more) && Elements(more) == Elements(ids) + {id}
    decreases |ids|
  {
    if ids == [] {
      more := [id];
    } else {
      var front, last := ids[..|ids| - 1], ids[|ids| - 1];
      if StringLess(last, id) {
        more := ids + [id];
        forall i: nat | i < |ids|
          ensures StringLess(ids[i], id)
        {
          if i < |ids| - 1 {
            LessGoesOn(ids[i], last, id);
          }
        }
      } else {
        LessIsTotal(last, id);
        var rest := Placeable(front, id);
        more := rest + [last];
        forall i: nat | i < |rest|
          ensures StringLess(rest[i], last)
        {
          assert rest[i] in Elements(rest);
        }
      }
      assert ids == front + [last];
    }
  }

  /** Any set of ids can be sorted. */
  lemma {:induction false} SortedIs(ids: set<string>) returns (sorted: seq<string>)
    ensures Ascending(sorted) && Elements(sorted) == ids
  {
    if ids == {} {
      sorted := [];
    } else {
      var id :| id in ids;
      var rest := SortedIs(ids - {id});
      assert id !in Elements(rest);
      sorted := Placeable(rest, id);
    }
  }

  // ---- The order

  /** With unique ids and the ids sorted, the order does not depend on the order of the file. */
  lemma {:induction false} OrderIsOne(a: seq<Record>, b: seq<Record>, sortedA: seq<string>, sortedB: seq<string>)
    requires UniqueIds(a) && UniqueIds(b) && forall r :: r in a <==> r in b
    requires Ascending(sortedA) && Elements(sortedA) == Entries(a).Keys && Ascending(sortedB)
    requires Elements(sortedB) == Entries(b).Keys
    requires forall i :: 0 <= i < |sortedA| ==> sortedA[i] in Entries(a).Keys
    ensures sortedA == sortedB && Entries(a) == Entries(b)
    ensures Order(Links(Entries(a)), Entries(a).Keys, sortedA) == Order(Links(Entries(b)), Entries(b).Keys, sortedB)
  {
    FileOrderIsNothing(a, b);
    SortedOnce(sortedA, sortedB);
  }

  // ---- orderPiEntries

  /** What visiting leaves: the placed entries, and a warning for each cycle met. */
  ghost predicate Ordered(g: Graph<string>, ordered: seq<string>, cycles: seq<string>) {
    && Placed(g, ordered) && Parted(g, cycles)
    && (forall k :: 0 <= k < |cycles| ==> cycles[k] in ordered)
    && LatesWarned(g, ordered, cycles)
  }

  ghost predicate LatesWarned(g: Graph<string>, ordered: seq<string>, cycles: seq<string>) {
    forall i {:trigger LateWarned(g, ordered, cycles, i)} :: 0 <= i < |ordered| ==> LateWarned(g, ordered, cycles, i)
  }

  ghost predicate LateWarned(g: Graph<string>, ordered: seq<string>, cycles: seq<string>, i: nat)
    requires i < |ordered|
  {
    Late(g, ordered, i) ==> g[ordered[i]] in cycles
  }

  /** How a visit with the path open ends. */
  ghost predicate VisitEnds(g: Graph<string>, ordered: seq<string>, path: seq<string>, walk: seq<string>, id: string,
      back: Option<string>)
  {
    && Distinct(path + walk) && Chain(g, path + walk)
    && (forall k :: 0 <= k < |walk| ==> walk[k] !in ordered)
    && (walk != [] ==> walk[0] == id)
    && var end := if walk == [] then Some(id) else var last := walk[|walk| - 1]; if last in g then Some(g[last]) else None;
    && (end.Some? ==> end.value in ordered || end.value in path + walk)
    && (back.Some? <==> end.Some? && end.value !in ordered) && (back.Some? ==> back == end)
  }

  const SEEN := 1
  const DONE := 2

  ghost predicate States(state: map<string, int>, ordered: seq<string>, path: seq<string>) {
    && (forall x :: x in path <==> x in state && state[x] == SEEN)
    && (forall x :: x in ordered <==> x in state && state[x] == DONE)
    && (forall x :: x in state ==> state[x] == SEEN || state[x] == DONE)
  }

  ghost predicate OpenPath(g: Graph<string>, path: seq<string>, id: string) {
    Distinct(path) && Chain(g, path) && (path != [] ==> path[|path| - 1] in g && g[path[|path| - 1]] == id)
  }

  lemma LongerPath(g: Graph<string>, path: seq<string>, id: string)
    requires OpenPath(g, path, id) && id !in path
    ensures Distinct(path + [id]) && Chain(g, path + [id]) && (id in g ==> OpenPath(g, path + [id], g[id]))
    ensures Elements(path + [id]) == Elements(path) + {id}
  {
    ChainSnoc(g, path, id);
    assert forall x :: x in path + [id] <==> x in path || x == id;
  }

  lemma VisitedParent(g: Graph<string>, ordered: seq<string>, path: seq<string>, walk: seq<string>, id: string,
      back: Option<string>)
    requires id !in path && id !in ordered && id in g
    requires VisitEnds(g, ordered, path + [id], walk, g[id], back)
    ensures VisitEnds(g, ordered, path, [id] + walk, id, back)
  {
    assert (path + [id]) + walk == path + ([id] + walk);
    assert walk == [] ==> [id] + walk == [id];
    assert walk != [] ==> ([id] + walk)[|walk|] == walk[|walk| - 1];
  }

  lemma DoneState(state: map<string, int>, ordered: seq<string>, path: seq<string>, id: string)
    requires States(state, ordered, path + [id]) && id !in path && id !in ordered
    ensures States(state[id := DONE], ordered + [id], path)
  {
    assert forall x :: x in path + [id] <==> x in path || x == id;
  }

  lemma SeenState(state: map<string, int>, ordered: seq<string>, path: seq<string>, id: string)
    requires States(state, ordered, path) && id !in state
    ensures States(state[id := SEEN], ordered, path + [id])
  {
    assert forall x :: x in path + [id] <==> x in path || x == id;
  }

  lemma OneAlone(g: Graph<string>, ordered: seq<string>, path: seq<string>, id: string)
    requires OpenPath(g, path, id) && id !in path && id !in ordered && id !in g
    ensures VisitEnds(g, ordered, path, [id], id, None)
  {
    LongerPath(g, path, id);
  }

  predicate LacksParent(entries: map<string, Record>, id: string) {
    id in entries && entries[id].parentId != "" && entries[id].parentId !in entries
  }

  /** Only the top of a walk can lack its parent. */
  function TopLacking(entries: map<string, Record>, walk: seq<string>): seq<string> {
    if walk != [] && LacksParent(entries, walk[|walk| - 1]) then [walk[|walk| - 1]] else []
  }

  /** What a visit adds: the walk above the entry, in reverse, and a warning if it closed a cycle
      or found a parent missing. */
  ghost predicate VisitResult(entries: map<string, Record>, id: string, ordered: seq<string>, cycles: seq<string>,
      missing: seq<string>, path: seq<string>,
                              states: map<string, int>, placed: seq<string>, warned: seq<string>, absent: seq<string>,
                                walk: seq<string>, back: Option<string>)
    requires id in entries
  {
    && walk == WalkUp(Links(entries), entries.Keys, Elements(ordered) + Elements(path), id)
    && placed == ordered + Reversed(walk) && States(states, placed, path)
    && VisitEnds(Links(entries), ordered, path, walk, id, back)
    && warned == cycles + (if back.Some? then [back.value] else []) && absent == missing + TopLacking(entries, walk)
  }

  lemma VisitedBefore(entries: map<string, Record>, id: string, state: map<string, int>, ordered: seq<string>,
      cycles: seq<string>, missing: seq<string>, path: seq<string>)
    requires id in entries && id in state && States(state, ordered, path) && OpenPath(Links(entries), path, id)
    ensures state[id] == DONE ==>
      VisitResult(entries, id, ordered, cycles, missing, path, state, ordered, cycles, missing, [], None)
    ensures state[id] == SEEN ==>
      VisitResult(entries, id, ordered, cycles, missing, path, state, ordered, cycles + [id], missing, [], Some(id))
  {
    assert path + [] == path && ordered + Reversed([]) == ordered;
    assert cycles + [] == cycles && missing + [] == missing;
  }

  lemma VisitedAlone(entries: map<string, Record>, id: string, state: map<string, int>, ordered: seq<string>,
      cycles: seq<string>, missing: seq<string>, path: seq<string>)
    requires id in entries && id !in state && States(state, ordered, path) && OpenPath(Links(entries), path, id)
    requires id !in Links(entries)
    ensures VisitResult(entries, id, ordered, cycles, missing, path, state[id := DONE], ordered + [id], cycles,
                        if LacksParent(entries, id) then missing + [id] else missing, [id], None)
  {
    SeenState(state, ordered, path, id);
    assert ordered + Reversed([]) == ordered && [id] + [] == [id];
    FinishVisit(state[id := SEEN], ordered, path, [], id);
    assert state[id := SEEN][id := DONE] == state[id := DONE];
    OneAlone(Links(entries), ordered, path, id);
    WalkFirst(entries, ordered, path, id, []);
    assert cycles + [] == cycles && missing + [] == missing;
  }

  lemma VisitedAbove(entries: map<string, Record>, id: string, ordered: seq<string>, cycles: seq<string>,
      missing: seq<string>, path: seq<string>,
                     states: map<string, int>, placed: seq<string>, warned: seq<string>, absent: seq<string>,
                       rest: seq<string>, back: Option<string>)
    requires id in entries && id in Links(entries) && id !in path && id !in ordered
    requires VisitResult(entries, Links(entries)[id], ordered, cycles, missing, path + [id], states, placed, warned, absent, rest, back)
    ensures VisitResult(entries, id, ordered, cycles, missing, path, states[id := DONE], placed + [id], warned, absent, [id] + rest, back)
  {
    VisitedParent(Links(entries), ordered, path, rest, id, back);
    WalkFirst(entries, ordered, path, id, rest);
    FinishVisit(states, ordered, path, rest, id);
    assert rest != [] ==> ([id] + rest)[|rest|] == rest[|rest| - 1];
  }

  /** The closure visit: an entry's parent first, then the entry. */
  method Visit(entries: map<string, Record>, id: string, state: map<string, int>, ordered: seq<string>,
      cycles: seq<string>, missing: seq<string>, ghost path: seq<string>)
    returns (states: map<string, int>, placed: seq<string>, warned: seq<string>, absent: seq<string>,
      ghost walk: seq<string>, ghost back: Option<string>)
    requires id in entries && States(state, ordered, path) && OpenPath(Links(entries), path, id)
    ensures VisitResult(entries, id, ordered, cycles, missing, path, states, placed, warned, absent, walk, back)
    decreases entries.Keys - Elements(path)
  {
    states, placed, warned, absent, walk, back := state, ordered, cycles, missing, [], None;
    if id in state {
      VisitedBefore(entries, id, state, ordered, cycles, missing, path);
      if state[id] == SEEN {
        warned, back := cycles + [id], Some(id);
      }
      return;
    }
    states := state[id := SEEN];
    var parentId := entries[id].parentId;
    if parentId != "" && parentId in entries {
      LongerPath(Links(entries), path, id);
      SeenState(state, ordered, path, id);
      ghost var rest;
      states, placed, warned, absent, rest, back := Visit(entries, parentId, states, ordered, cycles, missing, path + [id]);
      VisitedAbove(entries, id, ordered, cycles, missing, path, states, placed, warned, absent, rest, back);
      walk := [id] + rest;
    } else {
      if parentId != "" {
        absent := missing + [id];
      }
      VisitedAlone(entries, id, state, ordered, cycles, missing, path);
      walk := [id];
    }
    states := states[id := DONE];
    placed := placed + [id];
  }

  lemma {:induction false} WalkFirst(entries: map<string, Record>, ordered: seq<string>, path: seq<string>, id: string,
      rest: seq<string>)
    requires id in entries && id !in ordered && id !in path
    requires var g := Links(entries);
      rest == if id in g then WalkUp(g, entries.Keys, Elements(ordered) + Elements(path + [id]), g[id]) else []
    ensures [id] + rest == WalkUp(Links(entries), entries.Keys, Elements(ordered) + Elements(path), id)
  {
    assert Elements(path + [id]) == Elements(path) + {id} by {
      assert forall x :: x in path + [id] <==> x in path || x == id;
    }
    assert Elements(ordered) + Elements(path) + {id} == Elements(ordered) + Elements(path + [id]);
  }

  lemma FinishVisit(states: map<string, int>, ordered: seq<string>, path: seq<string>, rest: seq<string>, id: string)
    requires States(states, ordered + Reversed(rest), path + [id]) && id !in path
    ensures States(states[id := DONE], ordered + Reversed(rest) + [id], path)
    ensures ordered + Reversed(rest) + [id] == ordered + Reversed([id] + rest)
  {
    IdApart(path, ordered, rest, id, states);
    DoneState(states, ordered + Reversed(rest), path, id);
  }

  lemma IdApart(path: seq<string>, ordered: seq<string>, walk: seq<string>, id: string, states: map<string, int>)
    requires States(states, ordered + Reversed(walk), path + [id])
    ensures id !in ordered + Reversed(walk)
  {
    assert (path + [id])[|path|] == id;
  }

  // ---- One warning per cycle

  lemma NothingWalked(g: Graph<string>, ordered: seq<string>, id: string, back: Option<string>)
    requires VisitEnds(g, ordered, [], [], id, back)
    ensures back.None? && ordered + Reversed([]) == ordered
  {
  }

  lemma WalkedUp(g: Graph<string>, ordered: seq<string>, walk: seq<string>, id: string, back: Option<string>)
    requires VisitEnds(g, ordered, [], walk, id, back) && walk != []
    ensures Walked(g, ordered, walk)
    ensures back.Some? ==>
      walk[|walk| - 1] in g && back.value == g[walk[|walk| - 1]] && back.value in walk && back.value !in ordered
    ensures back.None? && walk[|walk| - 1] in g ==> g[walk[|walk| - 1]] in ordered
  {
    assert [] + walk == walk;
  }

  lemma BackIsOnCycle(g: Graph<string>, walk: seq<string>)
    requires Chain(g, walk) && walk != [] && walk[|walk| - 1] in g && g[walk[|walk| - 1]] in walk
    ensures OnCycle(g, g[walk[|walk| - 1]])
  {
    BackOnCycle(g, walk);
    CycleStep(g, walk[|walk| - 1]);
  }

  lemma WarnedStays(g: Graph<string>, ordered: seq<string>, cycles: seq<string>, walk: seq<string>,
      back: Option<string>, i: nat)
    requires Walked(g, ordered, walk) && i < |ordered| + |walk|
    requires back.None? && walk[|walk| - 1] in g ==> g[walk[|walk| - 1]] in ordered
    requires back.Some? ==> walk[|walk| - 1] in g && back.value == g[walk[|walk| - 1]]
    requires i < |ordered| ==> LateWarned(g, ordered, cycles, i)
    ensures LateWarned(g, ordered + Reversed(walk), cycles + (if back.Some? then [back.value] else []), i)
  {
    LateLater(g, ordered, walk, i);
    if i == |ordered| {
      assert (ordered + Reversed(walk))[..i] == ordered;
    }
  }

  lemma AllLateWarned(g: Graph<string>, ordered: seq<string>, cycles: seq<string>, walk: seq<string>,
      back: Option<string>)
    requires Ordered(g, ordered, cycles) && Walked(g, ordered, walk)
    requires back.None? && walk[|walk| - 1] in g ==> g[walk[|walk| - 1]] in ordered
    requires back.Some? ==> walk[|walk| - 1] in g && back.value == g[walk[|walk| - 1]]
    ensures LatesWarned(g, ordered + Reversed(walk), cycles + (if back.Some? then [back.value] else []))
  {
    var after, warned := ordered + Reversed(walk), cycles + (if back.Some? then [back.value] else []);
    forall i: nat | i < |after|
      ensures LateWarned(g, after, warned, i)
    {
      if i < |ordered| {
        assert LateWarned(g, ordered, cycles, i);
      }
      WarnedStays(g, ordered, cycles, walk, back, i);
    }
  }

  lemma WalkOrders(g: Graph<string>, ordered: seq<string>, cycles: seq<string>, walk: seq<string>, id: string,
      back: Option<string>)
    requires Ordered(g, ordered, cycles) && VisitEnds(g, ordered, [], walk, id, back) && walk != []
    ensures Ordered(g, ordered + Reversed(walk), cycles + (if back.Some? then [back.value] else []))
  {
    WalkedUp(g, ordered, walk, id, back);
    ChainPlaced(g, ordered, walk);
    AllLateWarned(g, ordered, cycles, walk, back);
    if back.Some? {
      BackIsOnCycle(g, walk);
      PartedMore(g, cycles, Elements(ordered), back.value);
      assert back.value in Elements(ordered + Reversed(walk));
    }
  }

  /** A visit from outside keeps parents first and warns once for the cycle it closes, if any. */
  lemma VisitOrders(g: Graph<string>, ordered: seq<string>, cycles: seq<string>, walk: seq<string>, id: string,
      back: Option<string>)
    requires Ordered(g, ordered, cycles) && VisitEnds(g, ordered, [], walk, id, back)
    ensures Ordered(g, ordered + Reversed(walk), cycles + (if back.Some? then [back.value] else []))
  {
    if walk == [] {
      NothingWalked(g, ordered, id, back);
      assert cycles + [] == cycles;
    } else {
      WalkOrders(g, ordered, cycles, walk, id, back);
    }
  }

  lemma ReversedElements(ordered: seq<string>, walk: seq<string>)
    ensures Elements(ordered + Reversed(walk)) == Elements(ordered) + Elements(walk)
  {
    forall x | x in walk
      ensures x in Reversed(walk)
    {
      var k :| 0 <= k < |walk| && walk[k] == x;
      assert Reversed(walk)[|walk| - 1 - k] == x;
    }
    assert forall x :: x in ordered + Reversed(walk) <==> x in ordered || x in walk;
  }

  /** Every cycle has its warning. */
  lemma AllWarned(g: Graph<string>, ordered: seq<string>, cycles: seq<string>)
    requires Ordered(g, ordered, cycles) && forall x :: x in g ==> x in ordered
    ensures AllCut(g, cycles)
  {
    forall x | x in g && OnCycle(g, x)
      ensures CutNear(g, cycles, x)
    {
      var i :| 0 <= i < |ordered| && ordered[i] == x;
      var j := CycleHasLate(g, ordered, i);
      assert LateWarned(g, ordered, cycles, j);
      ReachesStep(g, ordered[j]);
      ReachesTrans(g, x, ordered[j], g[ordered[j]]);
      ReachesTrans(g, g[ordered[j]], ordered[j], x);
    }
  }

  lemma {:induction false} VisitedIn(entries: map<string, Record>, ordered: seq<string>, id: string)
    requires id in entries
    ensures id in Elements(ordered) + Elements(WalkUp(Links(entries), entries.Keys, Elements(ordered), id))
    ensures forall x :: x in WalkUp(Links(entries), entries.Keys, Elements(ordered), id) ==> x in entries
  {
    WalkInside(Links(entries), entries.Keys, Elements(ordered), id);
    if id !in ordered {
      assert WalkUp(Links(entries), entries.Keys, Elements(ordered), id)[0] == id;
    }
  }

  /** What the loop over the sorted ids keeps. */
  ghost predicate Visiting(entries: map<string, Record>, ids: seq<string>, k: nat, state: map<string, int>,
      ordered: seq<string>, cycles: seq<string>)
    requires k <= |ids| && forall i :: 0 <= i < |ids| ==> ids[i] in entries
  {
    && States(state, ordered, []) && Ordered(Links(entries), ordered, cycles)
    && ordered == Order(Links(entries), entries.Keys, ids[..k])
    && Elements(ordered) <= entries.Keys && forall i :: 0 <= i < k ==> ids[i] in ordered
  }

  lemma VisitedSet(entries: map<string, Record>, ids: seq<string>, k: nat, ordered: seq<string>, walk: seq<string>)
    requires (forall i :: 0 <= i < |ids| ==> ids[i] in entries) && k < |ids|
    requires Elements(ordered) <= entries.Keys && forall i :: 0 <= i < k ==> ids[i] in ordered
    requires walk == WalkUp(Links(entries), entries.Keys, Elements(ordered), ids[k])
    ensures Elements(ordered + Reversed(walk)) <= entries.Keys && forall i :: 0 <= i < k + 1 ==>
      ids[i] in ordered + Reversed(walk)
  {
    VisitedIn(entries, ordered, ids[k]);
    ReversedElements(ordered, walk);
    forall i | 0 <= i < k + 1
      ensures ids[i] in ordered + Reversed(walk)
    {
      assert ids[i] in Elements(ordered + Reversed(walk));
    }
  }

  lemma VisitingMore(entries: map<string, Record>, ids: seq<string>, k: nat, state: map<string, int>,
      ordered: seq<string>, cycles: seq<string>, states: map<string, int>, walk: seq<string>, back: Option<string>)
    requires (forall i :: 0 <= i < |ids| ==> ids[i] in entries) && k < |ids|
    requires Visiting(entries, ids, k, state, ordered, cycles)
    requires walk == WalkUp(Links(entries), entries.Keys, Elements(ordered), ids[k])
    requires VisitEnds(Links(entries), ordered, [], walk, ids[k], back) && States(states, ordered + Reversed(walk), [])
    ensures Visiting(entries, ids, k + 1, states, ordered + Reversed(walk), cycles + (if back.Some? then [back.value] else []))
  {
    VisitOrders(Links(entries), ordered, cycles, walk, ids[k], back);
    VisitedSet(entries, ids, k, ordered, walk);
    assert ids[..k + 1][..k] == ids[..k];
  }

  /** The promise of orderPiEntries about the order. */
  ghost predicate WellOrdered(entries: map<string, Record>, ids: seq<string>, ordered: seq<string>, cycles: seq<string>)
    requires forall i :: 0 <= i < |ids| ==> ids[i] in entries
  {
    var g := Links(entries);
    && Distinct(ordered) && Elements(ordered) == entries.Keys
    && ordered == Order(g, entries.Keys, ids)
    && ParentsFirst(g, ordered)
    && Parted(g, cycles) && AllCut(g, cycles)
  }

  lemma VisitingStarts(entries: map<string, Record>, ids: seq<string>)
    requires forall i :: 0 <= i < |ids| ==> ids[i] in entries
    ensures Visiting(entries, ids, 0, map[], [], [])
  {
  }

  lemma VisitingEnds(entries: map<string, Record>, ids: seq<string>, state: map<string, int>, ordered: seq<string>,
      cycles: seq<string>)
    requires (forall i :: 0 <= i < |ids| ==> ids[i] in entries) && Elements(ids) == entries.Keys
    requires Visiting(entries, ids, |ids|, state, ordered, cycles)
    ensures WellOrdered(entries, ids, ordered, cycles)
  {
    assert ids[..|ids|] == ids;
    forall x | x in entries
      ensures x in ordered
    {
      assert x in Elements(ids);
    }
    AllWarned(Links(entries), ordered, cycles);
  }

  /** The entries whose parent no record has, in order. */
  function Lacking(entries: map<string, Record>, ids: seq<string>): seq<string> {
    if ids == [] then []
    else Lacking(entries, ids[..|ids| - 1]) + (if LacksParent(entries, ids[|ids| - 1]) then [ids[|ids| - 1]] else [])
  }

  lemma {:induction false} LackingSnoc(entries: map<string, Record>, ids: seq<string>, id: string)
    ensures Lacking(entries, ids + [id]) == Lacking(entries, ids) + (if LacksParent(entries, id) then [id] else [])
  {
    assert (ids + [id])[..|ids|] == ids;
  }

  /** Of a walk only the top may lack its parent. */
  lemma {:induction false} LackingWalk(entries: map<string, Record>, ordered: seq<string>, walk: seq<string>)
    requires Chain(Links(entries), walk)
    ensures Lacking(entries, ordered + Reversed(walk)) == Lacking(entries, ordered) + TopLacking(entries, walk)
    decreases |walk|
  {
    if walk == [] {
      assert ordered + Reversed(walk) == ordered;
    } else {
      var rest := walk[1..];
      assert ordered + Reversed(walk) == (ordered + Reversed(rest)) + [walk[0]];
      LackingSnoc(entries, ordered + Reversed(rest), walk[0]);
      ChainTail(Links(entries), walk);
      LackingWalk(entries, ordered, rest);
      if rest != [] {
        assert ParentGraph.Linked(Links(entries), walk, 0);
      }
    }
  }

  lemma ChainTail(g: Graph<string>, walk: seq<string>)
    requires Chain(g, walk) && walk != []
    ensures Chain(g, walk[1..])
  {
    forall k: nat | k < |walk| - 2
      ensures ParentGraph.Linked(g, walk[1..], k)
    {
      assert ParentGraph.Linked(g, walk, k + 1);
    }
  }

  /** One turn of the loop over the sorted ids. */
  method VisitNext(entries: map<string, Record>, ids: seq<string>, k: nat, state: map<string, int>,
      ordered: seq<string>, cycles: seq<string>, missing: seq<string>)
    returns (states: map<string, int>, placed: seq<string>, warned: seq<string>, absent: seq<string>)
    requires (forall i :: 0 <= i < |ids| ==> ids[i] in entries) && k < |ids|
    requires Visiting(entries, ids, k, state, ordered, cycles) && missing == Lacking(entries, ordered)
    ensures Visiting(entries, ids, k + 1, states, placed, warned) && absent == Lacking(entries, placed)
  {
    ghost var walk, back;
    assert Elements(ordered) + Elements([]) == Elements(ordered);
    states, placed, warned, absent, walk, back := Visit(entries, ids[k], state, ordered, cycles, missing, []);
    VisitingMore(entries, ids, k, state, ordered, cycles, states, walk, back);
    assert [] + walk == walk;
    LackingWalk(entries, ordered, walk);
  }

  /** Each native id once, parents first but for one link of each cycle, with exactly one warning
      for each cycle, and one for each entry whose parent is missing. */
  method OrderIds(entries: map<string, Record>, ids: seq<string>)
      returns (ordered: seq<string>, cycles: seq<string>, missing: seq<string>)
    requires (forall i :: 0 <= i < |ids| ==> ids[i] in entries) && Elements(ids) == entries.Keys
    ensures WellOrdered(entries, ids, ordered, cycles) && missing == Lacking(entries, ordered)
  {
    var state: map<string, int> := map[];
    ordered, cycles, missing := [], [], [];
    VisitingStarts(entries, ids);
    var k := 0;
    while k < |ids|
      invariant 0 <= k <= |ids| && Visiting(entries, ids, k, state, ordered, cycles)
      invariant missing == Lacking(entries, ordered)
    {
      state, ordered, cycles, missing := VisitNext(entries, ids, k, state, ordered, cycles, missing);
      k := k + 1;
    }
    VisitingEnds(entries, ids, state, ordered, cycles);
  }

  // ---- The model in force

  /** contexts after the first k entries. */
  ghost predicate Contexts(entries: map<string, Record>, ordered: seq<string>, k: nat, contexts: map<string, Model>)
    requires k <= |ordered| && forall i :: 0 <= i < |ordered| ==> ordered[i] in entries
  {
    && contexts.Keys == Elements(ordered[..k])
    && forall i {:trigger ModelRight(entries, ordered, contexts, i)} :: 0 <= i < k ==>
      ModelRight(entries, ordered, contexts, i)
  }

  /** An entry's own change, or its parent's model if the parent came before, or none. */
  ghost predicate ModelRight(entries: map<string, Record>, ordered: seq<string>, contexts: map<string, Model>, i: nat)
    requires i < |ordered| && ordered[i] in entries
  {
    var r := entries[ordered[i]];
    && ordered[i] in contexts
    && contexts[ordered[i]] == if r.change.Some? then r.change.value
                               else if r.parentId in ordered[..i] && r.parentId in contexts then contexts[r.parentId]
                               else NO_MODEL
  }

  lemma ContextsMore(entries: map<string, Record>, ordered: seq<string>, k: nat, contexts: map<string, Model>,
      model: Model)
    requires k < |ordered| && Distinct(ordered) && forall i :: 0 <= i < |ordered| ==> ordered[i] in entries
    requires Contexts(entries, ordered, k, contexts)
    requires var r := entries[ordered[k]];
      model == if r.change.Some? then r.change.value else if r.parentId in contexts then contexts[r.parentId] else NO_MODEL
    ensures Contexts(entries, ordered, k + 1, contexts[ordered[k] := model])
  {
    var after := contexts[ordered[k] := model];
    assert ordered[..k + 1] == ordered[..k] + [ordered[k]];
    assert forall x :: x in ordered[..k] <==> x in contexts;
    forall i: nat | i < k + 1
      ensures ModelRight(entries, ordered, after, i)
    {
      if i < k {
        assert ModelRight(entries, ordered, contexts, i);
        assert ordered[k] !in ordered[..i];
      }
    }
  }

  /** The second loop of orderPiEntries. */
  method Models(entries: map<string, Record>, ordered: seq<string>) returns (contexts: map<string, Model>)
    requires Distinct(ordered) && forall i :: 0 <= i < |ordered| ==> ordered[i] in entries
    ensures Contexts(entries, ordered, |ordered|, contexts)
  {
    contexts := map[];
    var k := 0;
    while k < |ordered|
      invariant 0 <= k <= |ordered| && Contexts(entries, ordered, k, contexts)
    {
      var r := entries[ordered[k]];
      var model := if r.parentId in contexts then contexts[r.parentId] else NO_MODEL;
      if r.change.Some? {
        model := r.change.value;
      }
      ContextsMore(entries, ordered, k, contexts, model);
      contexts := contexts[ordered[k] := model];
      k := k + 1;
    }
  }

  predicate Changes(entries: map<string, Record>, x: string) {
    x in entries && entries[x].change.Some?
  }

  /** The model of the nearest change at or above the entry, or none if there is no change. */
  ghost predicate IsNearest(entries: map<string, Record>, x: string, model: Model) {
    var g := Links(entries);
    || (exists k: nat {:trigger Climb(g, x, k)} ::
          && Climb(g, x, k).Some? && Changes(entries, Climb(g, x, k).value)
          && model == entries[Climb(g, x, k).value].change.value && NoneBelow(entries, x, k))
    || (model == NO_MODEL && forall k: nat :: NoneBelow(entries, x, k))
  }

  ghost predicate NoneBelow(entries: map<string, Record>, x: string, k: nat) {
    forall j: nat {:trigger Climb(Links(entries), x, j)} :: j < k && Climb(Links(entries), x, j).Some? ==>
      !Changes(entries, Climb(Links(entries), x, j).value)
  }

  lemma NearestAbove(entries: map<string, Record>, x: string, model: Model)
    requires x in Links(entries) && !Changes(entries, x) && IsNearest(entries, Links(entries)[x], model)
    ensures IsNearest(entries, x, model)
  {
    var g := Links(entries);
    var p := g[x];
    forall k: nat | NoneBelow(entries, p, k)
      ensures NoneBelow(entries, x, k + 1)
    {
      forall j: nat | j < k + 1 && Climb(g, x, j).Some?
        ensures !Changes(entries, Climb(g, x, j).value)
      {
        if j > 0 {
          assert Climb(g, p, j - 1) == Climb(g, x, j);
        }
      }
    }
    if k: nat :| (Climb(g, p, k).Some? && Changes(entries, Climb(g, p, k).value) &&
                  model == entries[Climb(g, p, k).value].change.value && NoneBelow(entries, p, k)) {
      assert Climb(g, x, k + 1) == Climb(g, p, k);
    } else {
      forall k: nat
        ensures NoneBelow(entries, x, k)
      {
        assert NoneBelow(entries, p, k);
        assert NoneBelow(entries, x, k + 1);
      }
    }
  }

  lemma NearestHere(entries: map<string, Record>, x: string, model: Model)
    requires x in entries && (x !in Links(entries) || Changes(entries, x))
    requires x in entries && model == if Changes(entries, x) then entries[x].change.value else NO_MODEL
    ensures IsNearest(entries, x, model)
  {
    var g := Links(entries);
    assert Climb(g, x, 0) == Some(x);
    if !Changes(entries, x) {
      forall k: nat
        ensures NoneBelow(entries, x, k)
      {
        forall j: nat | j < k && Climb(g, x, j).Some?
          ensures !Changes(entries, Climb(g, x, j).value)
        {
          assert j == 0;
        }
      }
    }
  }

  lemma ParentModel(entries: map<string, Record>, ordered: seq<string>, contexts: map<string, Model>, i: nat)
      returns (j: nat)
    requires (forall k :: 0 <= k < |ordered| ==> ordered[k] in entries)
    requires Contexts(entries, ordered, |ordered|, contexts) && i < |ordered|
    requires ordered[i] in Links(entries) && !Changes(entries, ordered[i]) && !Late(Links(entries), ordered, i)
    ensures j < i && ordered[j] == Links(entries)[ordered[i]]
    ensures ordered[i] in contexts && ordered[j] in contexts && contexts[ordered[i]] == contexts[ordered[j]]
  {
    var p := Links(entries)[ordered[i]];
    j :| 0 <= j < i && ordered[j] == p;
    assert ModelRight(entries, ordered, contexts, i) && ModelRight(entries, ordered, contexts, j);
  }

  lemma OwnModel(entries: map<string, Record>, ordered: seq<string>, contexts: map<string, Model>, i: nat)
    requires (forall k :: 0 <= k < |ordered| ==> ordered[k] in entries)
    requires Contexts(entries, ordered, |ordered|, contexts) && i < |ordered|
    requires ordered[i] !in Links(entries) || Changes(entries, ordered[i])
    requires "" !in entries
    ensures ordered[i] in contexts && IsNearest(entries, ordered[i], contexts[ordered[i]])
  {
    assert ModelRight(entries, ordered, contexts, i);
    if ordered[i] !in Links(entries) {
      NoEmptyParent(entries, ordered, i);
    }
    NearestHere(entries, ordered[i], contexts[ordered[i]]);
  }

  /** Where every parent comes first, each entry's model is that of the nearest change at or above
      it. */
  lemma {:induction false} ModelIsNearest(entries: map<string, Record>, ordered: seq<string>,
      contexts: map<string, Model>, i: nat)
    requires (forall k :: 0 <= k < |ordered| ==> ordered[k] in entries)
    requires Contexts(entries, ordered, |ordered|, contexts) && i < |ordered|
    requires (forall k :: 0 <= k < |ordered| ==> !Late(Links(entries), ordered, k)) && "" !in entries
    ensures ordered[i] in contexts && IsNearest(entries, ordered[i], contexts[ordered[i]])
    decreases i
  {
    if ordered[i] in Links(entries) && !Changes(entries, ordered[i]) {
      var j := ParentModel(entries, ordered, contexts, i);
      ModelIsNearest(entries, ordered, contexts, j);
      NearestAbove(entries, ordered[i], contexts[ordered[i]]);
    } else {
      OwnModel(entries, ordered, contexts, i);
    }
  }

  lemma NoEmptyParent(entries: map<string, Record>, ordered: seq<string>, i: nat)
    requires (forall j :: 0 <= j < |ordered| ==> ordered[j] in entries) && i < |ordered|
    requires ordered[i] !in Links(entries)
    requires "" !in entries
    ensures entries[ordered[i]].parentId !in ordered
  {
  }

  // ---- Reading the records

  function Warned(records: seq<Record>): seq<PiWarning> {
    if records == [] then []
    else
      var front, r := records[..|records| - 1], records[|records| - 1];
      Warned(front) + (if r.repeated then [] else if r.id == "" then [NoId] else if r.id in Entries(front) then [Duplicate(r.id)] else [])
  }

  /** The first loop: repeated headers are skipped; records without an id, or with one seen before,
      are warned about. */
  method ReadEntries(records: seq<Record>) returns (entries: map<string, Record>, warnings: seq<PiWarning>)
    ensures entries == Entries(records) && warnings == Warned(records)
  {
    entries, warnings := map[], [];
    var k := 0;
    while k < |records|
      invariant 0 <= k <= |records| && entries == Entries(records[..k]) && warnings == Warned(records[..k])
    {
      var r := records[k];
      assert records[..k + 1][..k] == records[..k];
      k := k + 1;
      if r.repeated {
        continue;
      }
      if r.id == "" {
        warnings := warnings + [NoId];
      } else if r.id in entries {
        warnings := warnings + [Duplicate(r.id)];
      } else {
        entries := entries[r.id := r];
      }
    }
    assert records[..k] == records;
  }

  // ---- The whole of orderPiEntries

  /** The entries in order, each with the model in force, and the warnings about the graph. */
  method OrderPiEntries(records: seq<Record>, sorted: seq<string>)
      returns (ordered: seq<string>, contexts: map<string, Model>, warnings: seq<PiWarning>, cycles: seq<string>,
      missing: seq<string>)
    requires Ascending(sorted) && Elements(sorted) == Entries(records).Keys && forall i :: 0 <= i < |sorted| ==>
      sorted[i] in Entries(records)
    ensures WellOrdered(Entries(records), sorted, ordered, cycles)
    ensures warnings == Warned(records) && missing == Lacking(Entries(records), ordered)
    ensures forall i :: 0 <= i < |ordered| ==> ordered[i] in Entries(records)
    ensures Contexts(Entries(records), ordered, |ordered|, contexts)
    ensures (forall x :: !OnCycle(Links(Entries(records)), x)) ==>
      forall i :: 0 <= i < |ordered| ==>
        ordered[i] in contexts && IsNearest(Entries(records), ordered[i], contexts[ordered[i]])
  {
    var entries;
    entries, warnings := ReadEntries(records);
    ordered, cycles, missing := OrderIds(entries, sorted);
    assert forall i :: 0 <= i < |ordered| ==> ordered[i] in Elements(ordered);
    contexts := Models(entries, ordered);
    if forall x :: !OnCycle(Links(entries), x) {
      NoEmptyId(records);
      forall i | 0 <= i < |ordered|
        ensures ordered[i] in contexts && IsNearest(entries, ordered[i], contexts[ordered[i]])
      {
        ModelIsNearest(entries, ordered, contexts, i);
      }
    }
  }

  lemma {:induction false} NoEmptyId(records: seq<Record>)
    ensures "" !in Entries(records)
  {
    if "" in Entries(records) {
      EntriesNamed(records, "");
    }
  }

  // ---- Linking events (the two passes of normalizePi)

  datatype Linked = Linked(key: string, parentKey: string)

  /** The key an entry's children name: that of its first event. */
  function Primary(emitted: map<string, seq<string>>, id: string): string {
    if id in emitted && emitted[id] != [] then emitted[id][0] else ""
  }

  function LinkAll(keys: seq<string>, parentKey: string): (events: seq<Linked>)
    ensures |events| == |keys| && forall n :: 0 <= n < |keys| ==> events[n] == Linked(keys[n], parentKey)
  {
    seq(|keys|, n requires 0 <= n < |keys| => Linked(keys[n], parentKey))
  }

  /** The events of the entries in order, each naming its parent entry's first event. */
  function Events(entries: map<string, Record>, emitted: map<string, seq<string>>, ordered: seq<string>): seq<Linked>
    requires forall i :: 0 <= i < |ordered| ==> ordered[i] in entries && ordered[i] in emitted
  {
    if ordered == [] then []
    else
      var last := ordered[|ordered| - 1];
      Events(entries, emitted, ordered[..|ordered| - 1]) + LinkAll(emitted[last], Primary(emitted, entries[last].parentId))
  }

  method LinkEvents(entries: map<string, Record>, emitted: map<string, seq<string>>, ordered: seq<string>)
      returns (events: seq<Linked>)
    requires forall i :: 0 <= i < |ordered| ==> ordered[i] in entries && ordered[i] in emitted
    requires emitted.Keys == Elements(ordered)
    ensures events == Events(entries, emitted, ordered)
    ensures AllLinked(entries, emitted, ordered, events)
  {
    var primaryKeys: map<string, string> := map[];
    var k := 0;
    while k < |ordered|
      invariant 0 <= k <= |ordered|
      invariant forall id :: id in primaryKeys <==> id in ordered[..k] && emitted[id] != []
      invariant forall id :: id in primaryKeys ==>
        id in emitted && emitted[id] != [] && primaryKeys[id] == emitted[id][0]
    {
      assert ordered[..k + 1] == ordered[..k] + [ordered[k]];
      if emitted[ordered[k]] != [] {
        primaryKeys := primaryKeys[ordered[k] := emitted[ordered[k]][0]];
      }
      k := k + 1;
    }
    assert ordered[..k] == ordered;
    events, k := [], 0;
    while k < |ordered|
      invariant 0 <= k <= |ordered| && events == Events(entries, emitted, ordered[..k])
    {
      var parentId := entries[ordered[k]].parentId;
      assert parentId in emitted <==> parentId in Elements(ordered);
      assert ordered[..k + 1][..k] == ordered[..k];
      events := events + LinkAll(emitted[ordered[k]], if parentId in primaryKeys then primaryKeys[parentId] else "");
      k := k + 1;
    }
    assert ordered[..k] == ordered;
    EventsAreLinked(entries, emitted, ordered);
  }

  lemma {:induction false} EntryEvent(entries: map<string, Record>, emitted: map<string, seq<string>>,
      ordered: seq<string>, i: nat, n: nat)
    requires (forall j :: 0 <= j < |ordered| ==> ordered[j] in entries && ordered[j] in emitted) && i < |ordered|
    requires n < |emitted[ordered[i]]|
    ensures var at := |Events(entries, emitted, ordered[..i])|;
      && at + n < |Events(entries, emitted, ordered)|
      && Events(entries, emitted, ordered)[at + n] == Linked(emitted[ordered[i]][n], Primary(emitted, entries[ordered[i]].parentId))
    decreases |ordered|
  {
    var front := ordered[..|ordered| - 1];
    if i < |front| {
      EntryEvent(entries, emitted, front, i, n);
      assert front[..i] == ordered[..i];
    } else {
      assert ordered[..i] == front;
    }
  }

  lemma {:induction false} EventEntry(entries: map<string, Record>, emitted: map<string, seq<string>>,
      ordered: seq<string>, m: nat) returns (i: nat)
    requires (forall j :: 0 <= j < |ordered| ==> ordered[j] in entries && ordered[j] in emitted)
    requires m < |Events(entries, emitted, ordered)|
    ensures i < |ordered|
    ensures |Events(entries, emitted, ordered[..i])| <= m < |Events(entries, emitted, ordered[..i])| + |emitted[ordered[i]]|
    decreases |ordered|
  {
    var front := ordered[..|ordered| - 1];
    if m < |Events(entries, emitted, front)| {
      i := EventEntry(entries, emitted, front, m);
      assert front[..i] == ordered[..i];
    } else {
      i := |ordered| - 1;
    }
  }

  lemma {:induction false} EventsGrow(entries: map<string, Record>, emitted: map<string, seq<string>>,
      ordered: seq<string>, j: nat, i: nat)
    requires (forall k :: 0 <= k < |ordered| ==> ordered[k] in entries && ordered[k] in emitted) && j < i <= |ordered|
    ensures |Events(entries, emitted, ordered[..j])| + |emitted[ordered[j]]| <= |Events(entries, emitted, ordered[..i])|
    decreases i
  {
    assert ordered[..i][..i - 1] == ordered[..i - 1];
    if j < i - 1 {
      EventsGrow(entries, emitted, ordered, j, i - 1);
    }
  }

  /** Where an entry's parent is: earlier, where parents come first. */
  lemma ParentPlace(entries: map<string, Record>, ordered: seq<string>, i: nat) returns (j: nat)
    requires i < |ordered| && (forall k :: 0 <= k < |ordered| ==> ordered[k] in entries)
    requires entries[ordered[i]].parentId in ordered
    ensures j < |ordered| && ordered[j] == entries[ordered[i]].parentId
    ensures (forall k :: 0 <= k < |ordered| ==> !Late(Links(entries), ordered, k)) && "" !in entries ==> j < i
  {
    var parentId := entries[ordered[i]].parentId;
    j :| j < |ordered| && ordered[j] == parentId;
    if (forall k :: 0 <= k < |ordered| ==> !Late(Links(entries), ordered, k)) && "" !in entries {
      assert !Late(Links(entries), ordered, i);
      j :| j < i && ordered[j] == parentId;
    }
  }

  /** Every parent key an event carries names an emitted event; where parents come first, an
      earlier one. */
  lemma ParentEmitted(entries: map<string, Record>, emitted: map<string, seq<string>>, ordered: seq<string>, m: nat)
      returns (n: nat)
    requires (forall j :: 0 <= j < |ordered| ==> ordered[j] in entries && ordered[j] in emitted)
    requires emitted.Keys == Elements(ordered)
    requires m < |Events(entries, emitted, ordered)| && Events(entries, emitted, ordered)[m].parentKey != ""
    ensures n < |Events(entries, emitted, ordered)|
    ensures Events(entries, emitted, ordered)[n].key == Events(entries, emitted, ordered)[m].parentKey
    ensures (forall k :: 0 <= k < |ordered| ==> !Late(Links(entries), ordered, k)) && "" !in entries ==> n < m
  {
    var i := EventEntry(entries, emitted, ordered, m);
    EntryEvent(entries, emitted, ordered, i, m - |Events(entries, emitted, ordered[..i])|);
    assert entries[ordered[i]].parentId in Elements(ordered);
    var j := ParentPlace(entries, ordered, i);
    if j < i {
      EventsGrow(entries, emitted, ordered, j, i);
    }
    EntryEvent(entries, emitted, ordered, j, 0);
    n := |Events(entries, emitted, ordered[..j])|;
  }

  /** Where the events of entry i begin in the list. */
  function Offset(emitted: map<string, seq<string>>, ordered: seq<string>, i: nat): nat
    requires i <= |ordered| && forall k :: 0 <= k < |ordered| ==> ordered[k] in emitted
  {
    if i == 0 then 0 else Offset(emitted, ordered, i - 1) + |emitted[ordered[i - 1]]|
  }

  /** Entry j is the parent of entry i and shows something. */
  predicate ShownParent(entries: map<string, Record>, emitted: map<string, seq<string>>, ordered: seq<string>, i: nat,
      j: nat)
  {
    && i < |ordered| && j < |ordered| && ordered[i] in entries && ordered[j] == entries[ordered[i]].parentId
    && ordered[j] in emitted && emitted[ordered[j]] != []
  }

  /** Event n of entry i comes at its place, and names the event that comes first of those of its
      parent entry; none, if that is absent or shows nothing. */
  ghost predicate LinkedAt(entries: map<string, Record>, emitted: map<string, seq<string>>, ordered: seq<string>,
      events: seq<Linked>, i: nat, n: nat)
    requires (forall k :: 0 <= k < |ordered| ==> ordered[k] in emitted) && i < |ordered| && n < |emitted[ordered[i]]|
  {
    var at := Offset(emitted, ordered, i) + n;
    && at < |events| && events[at].key == emitted[ordered[i]][n]
    && (forall j :: ShownParent(entries, emitted, ordered, i, j) ==>
      Offset(emitted, ordered, j) < |events| && events[at].parentKey == events[Offset(emitted, ordered, j)].key)
    && ((forall j :: !ShownParent(entries, emitted, ordered, i, j)) ==> events[at].parentKey == "")
  }

  ghost predicate AllLinked(entries: map<string, Record>, emitted: map<string, seq<string>>, ordered: seq<string>,
      events: seq<Linked>)
  {
    && (forall k :: 0 <= k < |ordered| ==> ordered[k] in emitted) && |events| == Offset(emitted, ordered, |ordered|)
    && forall i, n {:trigger LinkedAt(entries, emitted, ordered, events, i, n)} ::
      0 <= i < |ordered| && 0 <= n < |emitted[ordered[i]]| ==> LinkedAt(entries, emitted, ordered, events, i, n)
  }

  lemma {:induction false} OffsetIs(entries: map<string, Record>, emitted: map<string, seq<string>>,
      ordered: seq<string>, i: nat)
    requires (forall j :: 0 <= j < |ordered| ==> ordered[j] in entries && ordered[j] in emitted) && i <= |ordered|
    ensures Offset(emitted, ordered, i) == |Events(entries, emitted, ordered[..i])|
  {
    if i > 0 {
      assert ordered[..i][..i - 1] == ordered[..i - 1];
      OffsetIs(entries, emitted, ordered, i - 1);
    }
  }

  lemma {:induction false} EventIsLinked(entries: map<string, Record>, emitted: map<string, seq<string>>,
      ordered: seq<string>, i: nat, n: nat)
    requires (forall j :: 0 <= j < |ordered| ==> ordered[j] in entries && ordered[j] in emitted) && i < |ordered|
    requires emitted.Keys == Elements(ordered) && n < |emitted[ordered[i]]|
    ensures LinkedAt(entries, emitted, ordered, Events(entries, emitted, ordered), i, n)
  {
    OffsetIs(entries, emitted, ordered, i);
    EntryEvent(entries, emitted, ordered, i, n);
    var events := Events(entries, emitted, ordered);
    forall j: nat | ShownParent(entries, emitted, ordered, i, j)
      ensures Offset(emitted, ordered, j) < |events|
      ensures events[Offset(emitted, ordered, i) + n].parentKey == events[Offset(emitted, ordered, j)].key
    {
      OffsetIs(entries, emitted, ordered, j);
      EntryEvent(entries, emitted, ordered, j, 0);
    }
    var parentId := entries[ordered[i]].parentId;
    if parentId in emitted && emitted[parentId] != [] {
      assert parentId in Elements(ordered);
      var j: nat :| j < |ordered| && ordered[j] == parentId;
      assert ShownParent(entries, emitted, ordered, i, j);
    }
  }

  /** Every child names the first event of its parent. */
  lemma {:induction false} EventsAreLinked(entries: map<string, Record>, emitted: map<string, seq<string>>,
      ordered: seq<string>)
    requires (forall j :: 0 <= j < |ordered| ==> ordered[j] in entries && ordered[j] in emitted)
    requires emitted.Keys == Elements(ordered)
    ensures AllLinked(entries, emitted, ordered, Events(entries, emitted, ordered))
  {
    OffsetIs(entries, emitted, ordered, |ordered|);
    assert ordered[..|ordered|] == ordered;
    forall i: nat, n: nat | i < |ordered| && n < |emitted[ordered[i]]|
      ensures LinkedAt(entries, emitted, ordered, Events(entries, emitted, ordered), i, n)
    {
      EventIsLinked(entries, emitted, ordered, i, n);
    }
  }
}
