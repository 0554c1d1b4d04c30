/** Reading a transcript page by page while the archive changes, and when a cached order goes stale. */
module TranscriptReads {
  import opened Archive
  import opened ArchiveSteps
  import opened ArchiveRuns
  import opened TranscriptViews
  import opened TranscriptCache

  lemma ImportAgainKeeps(env: Env, sys: Sys, t: Id, r: Id, d: Descriptor, n: Normalization)
    requires Sound(env) && Valid(env, sys.db) && IsRevision(sys.db, t, r, d)
    ensures Valid(env, ImportAgain(env, sys, t, r, d, n).db)
  {
    ReimportKeeps(env, sys.db, t, r, d, n);
  }

  lemma ImportNewKeeps(env: Env, sys: Sys, d: Descriptor, n: Normalization)
    requires Sound(env) && Valid(env, sys.db) && !Imported(sys.db, d)
    ensures Valid(env, ImportNew(env, sys, d, n).db)
  {
    CommitKeeps(env, sys.db, d, n);
  }

  lemma ImportSysKeeps(env: Env, sys: Sys, d: Descriptor, n: Normalization)
    requires Sound(env) && Valid(env, sys.db)
    ensures Valid(env, ImportSys(env, sys, d, n).db)
  {
    if Imported(sys.db, d) {
      var t, r :| IsRevision(sys.db, t, r, d) && ImportSys(env, sys, d, n) == ImportAgain(env, sys, t, r, d, n);
      ImportAgainKeeps(env, sys, t, r, d, n);
    } else {
      ImportNewKeeps(env, sys, d, n);
    }
  }

  lemma AfterKeeps(env: Env, sys: Sys, turn: Turn)
    requires SoundLike(env, turn) && Valid(env, sys.db)
    ensures Valid(env, After(sys, turn).db)
  {
    ValidLike(env, turn.env, sys.db);
    match turn.step
    case Import(d, n) => ImportSysKeeps(turn.env, sys, d, n);
    case _ => ApplyKeeps(turn.env, sys.db, turn.step);
    ValidLike(turn.env, env, After(sys, turn).db);
  }

  ghost function RunSys(sys: Sys, turns: seq<Turn>): Sys
    decreases |turns|
  {
    if turns == [] then sys else RunSys(After(sys, turns[0]), turns[1..])
  }

  /** No step of the run deletes the trace that holds the newest normalizer run. */
  ghost predicate AllKeepNewest(env: Env, sys: Sys, turns: seq<Turn>)
    decreases |turns|
  {
    turns == [] ||
    (SoundLike(env, turns[0]) && KeepsNewest(sys, turns[0].step) && AllKeepNewest(env, After(sys, turns[0]), turns[1..]))
  }

  lemma {:induction false} RunStays(env: Env, sys: Sys, turns: seq<Turn>, order: Order, v: View, g: Id, ids: seq<Id>)
    requires Valid(env, sys.db) && RunsOk(sys) && Holds(sys, order, v, g, ids)
    requires AllKeepNewest(env, sys, turns)
    ensures var after := RunSys(sys, turns); Holds(after, order, v, g, ids) && Valid(env, after.db) && RunsOk(after)
    decreases |turns|
  {
    if turns != [] {
      StepStays(env, sys, turns[0], order, v, g, ids);
      AfterKeeps(env, sys, turns[0]);
      RunStays(env, After(sys, turns[0]), turns[1..], order, v, g, ids);
    }
  }

  /** Over every run of imports, rebuilds, renames and deletes that keep the newest run, a cached
      order of the current generation is the freshly sorted one. */
  lemma {:induction false} CacheIsFresh(env: Env, sys: Sys, turns: seq<Turn>, order: Order, items: map<Key, seq<Id>>)
    requires Valid(env, sys.db) && RunsOk(sys) && AllHold(sys, order, items)
    requires AllKeepNewest(env, sys, turns)
    ensures Coherent(RunSys(sys, turns), order, items) && AllHold(RunSys(sys, turns), order, items)
  {
    forall k | k in items {
      RunStays(env, sys, turns, order, k.view, k.generation, items[k]);
    }
  }

  // ---- Pages of one generation

  /** The state after the steps before each page so far. */
  ghost function AfterVisits(sys: Sys, visits: seq<seq<Turn>>): Sys {
    if visits == [] then sys
    else RunSys(AfterVisits(sys, visits[..|visits| - 1]), visits[|visits| - 1])
  }

  ghost predicate PageShown(now: Sys, order: Order, v: View, g: Id, limit: nat, pages: seq<seq<Id>>, k: nat)
    requires k < |pages|
  {
    && Exists(now.db, v) && Generation(now, v) == g
    && var all := Fresh(order, now.db, v);
    && pages[k] == Slice(all, k * limit, limit)
    && (k * limit + limit < |all| <==> k + 1 < |pages|)
  }

  /** Page k is of generation g, read after its steps and where the last one ended. */
  ghost predicate PageAt(env: Env, sys: Sys, order: Order, v: View, g: Id, limit: nat, visits: seq<seq<Turn>>,
      pages: seq<seq<Id>>, k: nat)
    requires k < |visits| == |pages|
  {
    var before := AfterVisits(sys, visits[..k]);
    AllKeepNewest(env, before, visits[k]) && PageShown(RunSys(before, visits[k]), order, v, g, limit, pages, k)
  }

  /** Pages of generation g until there is none left. */
  ghost predicate Read(env: Env, sys: Sys, order: Order, v: View, g: Id, limit: nat, visits: seq<seq<Turn>>,
      pages: seq<seq<Id>>)
  {
    && |visits| == |pages| && pages != []
    && forall k {:trigger PageAt(env, sys, order, v, g, limit, visits, pages, k)} :: 0 <= k < |pages| ==>
      PageAt(env, sys, order, v, g, limit, visits, pages, k)
  }

  function Joined(pages: seq<seq<Id>>): seq<Id> {
    if pages == [] then [] else pages[0] + Joined(pages[1..])
  }

  lemma SliceThenRest(ids: seq<Id>, from: nat, limit: nat, rest: seq<Id>)
    requires from <= |ids| && rest == if from + limit < |ids| then ids[from + limit..] else []
    ensures Slice(ids, from, limit) + rest == ids[from..]
  {
  }

  /** Whatever runs, a state that holds the order keeps it, and shows it while the generation stays. */
  ghost predicate Steady(env: Env, order: Order, v: View, g: Id, ids: seq<Id>, holds: Sys -> bool) {
    forall sys, turns {:trigger RunSys(sys, turns)} :: holds(sys) && AllKeepNewest(env, sys, turns) ==>
      StillShows(order, v, g, ids, holds, RunSys(sys, turns))
  }

  ghost predicate StillShows(order: Order, v: View, g: Id, ids: seq<Id>, holds: Sys -> bool, sys: Sys) {
    holds(sys) && (Exists(sys.db, v) && Generation(sys, v) == g ==> Fresh(order, sys.db, v) == ids)
  }

  lemma OrderIsSteady(env: Env, order: Order, v: View, g: Id, ids: seq<Id>) returns (holds: Sys -> bool)
    ensures Steady(env, order, v, g, ids, holds)
    ensures forall sys :: holds(sys) <==> Valid(env, sys.db) && RunsOk(sys) && Holds(sys, order, v, g, ids)
  {
    holds := (sys: Sys) => Valid(env, sys.db) && RunsOk(sys) && Holds(sys, order, v, g, ids);
    forall sys, turns | holds(sys) && AllKeepNewest(env, sys, turns)
      ensures StillShows(order, v, g, ids, holds, RunSys(sys, turns))
    {
      RunStays(env, sys, turns, order, v, g, ids);
    }
  }

  /** The pages a fixed order is cut into. */
  predicate Cut(ids: seq<Id>, limit: nat, from: nat, pages: seq<seq<Id>>)
    decreases |pages|
  {
    && pages != [] && pages[0] == Slice(ids, from, limit)
    && if from + limit < |ids| then Cut(ids, limit, from + limit, pages[1..]) else |pages| == 1
  }

  lemma {:induction false} CutJoins(ids: seq<Id>, limit: nat, from: nat, pages: seq<seq<Id>>)
    requires Cut(ids, limit, from, pages) && from <= |ids|
    ensures Joined(pages) == ids[from..]
    decreases |pages|
  {
    if from + limit < |ids| {
      CutJoins(ids, limit, from + limit, pages[1..]);
    }
    SliceThenRest(ids, from, limit, Joined(pages[1..]));
  }

  lemma CutMore(ids: seq<Id>, limit: nat, from: nat, pages: seq<seq<Id>>)
    requires pages != [] && pages[0] == Slice(ids, from, limit)
    requires if from + limit < |ids| then Cut(ids, limit, from + limit, pages[1..]) else |pages| == 1
    ensures Cut(ids, limit, from, pages)
  {
  }

  lemma {:induction false} StillHeld(env: Env, sys: Sys, order: Order, v: View, g: Id, limit: nat,
      visits: seq<seq<Turn>>, pages: seq<seq<Id>>, ids: seq<Id>, holds: Sys -> bool, k: nat)
    requires Steady(env, order, v, g, ids, holds) && holds(sys) && Read(env, sys, order, v, g, limit, visits, pages)
    requires k <= |visits|
    ensures holds(AfterVisits(sys, visits[..k]))
    decreases k
  {
    if k > 0 {
      StillHeld(env, sys, order, v, g, limit, visits, pages, ids, holds, k - 1);
      assert visits[..k][..k - 1] == visits[..k - 1];
      assert PageAt(env, sys, order, v, g, limit, visits, pages, k - 1);
      assert StillShows(order, v, g, ids, holds, RunSys(AfterVisits(sys, visits[..k - 1]), visits[k - 1]));
    }
  }

  lemma PageIs(env: Env, sys: Sys, order: Order, v: View, g: Id, limit: nat, visits: seq<seq<Turn>>,
      pages: seq<seq<Id>>, ids: seq<Id>, holds: Sys -> bool, k: nat)
    requires Steady(env, order, v, g, ids, holds) && holds(sys) && Read(env, sys, order, v, g, limit, visits, pages)
    requires k < |visits|
    ensures IsSlice(ids, limit, pages, k)
  {
    StillHeld(env, sys, order, v, g, limit, visits, pages, ids, holds, k);
    assert PageAt(env, sys, order, v, g, limit, visits, pages, k);
    assert StillShows(order, v, g, ids, holds, RunSys(AfterVisits(sys, visits[..k]), visits[k]));
  }

  ghost predicate IsSlice(ids: seq<Id>, limit: nat, pages: seq<seq<Id>>, k: nat)
    requires k < |pages|
  {
    pages[k] == Slice(ids, k * limit, limit) && (k * limit + limit < |ids| <==> k + 1 < |pages|)
  }

  lemma {:induction false} ReadIsCut(ids: seq<Id>, limit: nat, pages: seq<seq<Id>>, k: nat)
    requires k < |pages|
    requires forall i :: 0 <= i < |pages| ==> IsSlice(ids, limit, pages, i)
    ensures Cut(ids, limit, k * limit, pages[k..])
    decreases |pages| - k
  {
    assert pages[k..][0] == pages[k] && pages[k..][1..] == pages[k + 1..];
    assert IsSlice(ids, limit, pages, k);
    if k + 1 < |pages| {
      assert (k + 1) * limit == k * limit + limit;
      ReadIsCut(ids, limit, pages, k + 1);
    }
    CutMore(ids, limit, k * limit, pages[k..]);
  }

  /** Whatever the archive does between pages, pages with one generation concatenate to the whole
      order the first was cut from, so they show each event exactly once. */
  lemma {:induction false} PagesAreWhole(env: Env, sys: Sys, order: Order, v: View, limit: nat, visits: seq<seq<Turn>>,
      pages: seq<seq<Id>>)
    requires Valid(env, sys.db) && RunsOk(sys) && Exists(sys.db, v) && Sorting(order)
    requires Read(env, sys, order, v, Generation(sys, v), limit, visits, pages)
    ensures Joined(pages) == Fresh(order, sys.db, v)
    ensures forall i, j :: 0 <= i < j < |Joined(pages)| ==> Joined(pages)[i] != Joined(pages)[j]
    ensures forall e :: e in Joined(pages) <==> exists x :: x in Entries(sys.db, v) && x.event == e
  {
    var ids := Fresh(order, sys.db, v);
    ReadHolds(sys, order, v);
    var holds := OrderIsSteady(env, order, v, Generation(sys, v), ids);
    forall k: nat | k < |pages|
      ensures IsSlice(ids, limit, pages, k)
    {
      PageIs(env, sys, order, v, Generation(sys, v), limit, visits, pages, ids, holds, k);
    }
    ReadIsCut(ids, limit, pages, 0);
    assert pages[0..] == pages;
    CutJoins(ids, limit, 0, pages);
    assert ids[0..] == ids;
  }
}
