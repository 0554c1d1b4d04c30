/** Searching the session list: by the index or by every text, over every archive a run can reach. */
module CardSearch {
  import opened Utf8
  import A = Archive
  import Runs = ArchiveRuns
  import Plans = SearchPlans
  import Searches = SearchRuns
  import Regex
  import opened Cards
  import opened SessionList

  // ---- The tables as the list reads them

  ghost predicate SeenIs(db: A.Db, s: Seen) {
    && s.observation in db.observations && db.observations[s.observation].event == s.event
    && s.event in db.events && db.events[s.event].trace == s.trace
  }

  /** The observations, the texts recorded of them, and their traces are those of the archive. */
  ghost predicate Describes(db: A.Db, snap: Snapshot) {
    && (forall s :: s in snap.seen ==> SeenIs(db, s))
    && (forall o :: o in db.observations ==> exists s :: s in snap.seen && s.observation == o)
    && (forall s, t :: s in snap.seen && t in snap.seen && s.observation == t.observation ==> s == t)
    && (forall k :: k in snap.kept <==> KeptIs(db, k))
  }

  ghost predicate KeptIs(db: A.Db, k: Kept) {
    var link := A.Link(k.observation, k.revision);
    link in db.recordings && k.text == db.recordings[link].text
  }

  // ---- The statement over the index

  /** A chunk the index returns, with the row joined to it: its own event and that event's trace, and
      its observation only where a clause needs it. */
  ghost predicate IndexRow(db: A.Db, snap: Snapshot, f: Filter, hit: Plans.Hit, k: A.Link, n: nat, r: Row) {
    && k in db.recordings && n < |db.recordings[k].chunks|
    && var chunk := db.recordings[k].chunks[n];
    && hit(chunk.content) && chunk.event in db.events
    && var t := db.events[chunk.event].trace;
    && r == RowFor(snap, t, chunk.event, db.recordings[k].text)
    && TracePasses(snap, f, t) && RevisionPasses(snap, f, k.revision)
    && (NeedsObservation(f) ==> exists s :: s in snap.seen && s.observation == k.observation && ObservationPasses(f, s))
  }

  ghost predicate Indexed(db: A.Db, snap: Snapshot, f: Filter, hit: Plans.Hit, r: Row) {
    exists k, n :: IndexRow(db, snap, f, hit, k, n, r)
  }

  /** Without a clause on observations all pass. */
  lemma NothingNeeded(f: Filter, s: Seen)
    requires !NeedsObservation(f)
    ensures ObservationPasses(f, s)
  {
  }

  lemma IndexRowIs(db: A.Db, snap: Snapshot, f: Filter, hit: Plans.Hit, k: A.Link, n: nat, r: Row)
    requires A.Sane(db) && Describes(db, snap) && IndexRow(db, snap, f, hit, k, n, r)
    ensures r in Rows(snap, f, true)
  {
    assert A.GoodRecording(db, k);
    var chunk := db.recordings[k].chunks[n];
    assert chunk.event == db.observations[k.observation].event;
    var s :| s in snap.seen && s.observation == k.observation;
    assert SeenIs(db, s);
    if NeedsObservation(f) {
      var t :| t in snap.seen && t.observation == k.observation && ObservationPasses(f, t);
      assert s == t;
    } else {
      NothingNeeded(f, s);
    }
    var kept := Kept(k.observation, k.revision, db.recordings[k].text);
    assert KeptIs(db, kept) && kept in snap.kept;
    assert Selects(snap, f, s, kept);
  }

  lemma HitIsIndexed(db: A.Db, snap: Snapshot, f: Filter, hit: Plans.Hit, s: Seen, kept: Kept, k: A.Link)
    requires A.Sane(db) && SeenIs(db, s) && s in snap.seen && KeptIs(db, kept) && Selects(snap, f, s, kept)
    requires k == A.Link(kept.observation, kept.revision) && Plans.HasHit(db, k, hit)
    ensures Indexed(db, snap, f, hit, RowFor(snap, s.trace, s.event, kept.text))
  {
    var n: nat :| n < |db.recordings[k].chunks| && hit(db.recordings[k].chunks[n].content);
    assert A.GoodRecording(db, k);
    assert IndexRow(db, snap, f, hit, k, n, RowFor(snap, s.trace, s.event, kept.text));
  }

  lemma RowIsIndexed(db: A.Db, snap: Snapshot, f: Filter, hit: Plans.Hit, test: Test, r: Row)
    requires A.Sane(db) && Describes(db, snap) && Plans.Narrows(db, hit, test)
    requires r in Rows(snap, f, true) && test(r.text)
    ensures Indexed(db, snap, f, hit, r)
  {
    var s, kept :| s in snap.seen && kept in snap.kept && Selects(snap, f, s, kept) && r == RowFor(snap, s.trace, s.event, kept.text);
    var k := A.Link(kept.observation, kept.revision);
    assert KeptIs(db, kept) && SeenIs(db, s);
    HitIsIndexed(db, snap, f, hit, s, kept, k);
  }

  /** What the statement returns below a cursor: by the index, or every observation that passes. */
  ghost predicate Returns(rows: seq<Row>, db: A.Db, snap: Snapshot, f: Filter, hit: Option<Plans.Hit>,
      start: Option<Place>)
  {
    && Sorted(rows)
    && forall r :: r in rows <==>
      Under(start, RowPlace(r)) && (if hit.Some? then Indexed(db, snap, f, hit.value, r) else r in Rows(snap, f, true))
  }

  ghost predicate Usable(db: A.Db, hit: Option<Plans.Hit>, test: Test) {
    hit.Some? ==> Plans.Narrows(db, hit.value, test)
  }

  /** Either way it returns every row whose text passes. */
  lemma ReturnsAreGood(rows: seq<Row>, db: A.Db, snap: Snapshot, f: Filter, hit: Option<Plans.Hit>, test: Test,
      start: Option<Place>)
    requires A.Sane(db) && Describes(db, snap) && Usable(db, hit, test) && Returns(rows, db, snap, f, hit, start)
    ensures GoodRows(rows, Scan(Rows(snap, f, true), test), start)
  {
    forall k | 0 <= k < |rows|
      ensures rows[k] in Rows(snap, f, true) && Under(start, RowPlace(rows[k]))
    {
      assert rows[k] in rows;
      if hit.Some? {
        var link, n :| IndexRow(db, snap, f, hit.value, link, n, rows[k]);
        IndexRowIs(db, snap, f, hit.value, link, n, rows[k]);
      }
    }
    forall r | Wanted(Scan(Rows(snap, f, true), test), r) && Under(start, RowPlace(r))
      ensures r in rows
    {
      if hit.Some? {
        RowIsIndexed(db, snap, f, hit.value, test, r);
      }
    }
  }

  // ---- Over a run

  /** The index is asked for the query's parts, or not at all; without parts it cannot be. */
  ghost predicate HitFor(u: Regex.Unicode, s: Searches.Search, hit: Option<Plans.Hit>) {
    hit.Some? ==>
      Searches.Parts(s) != [] && forall chunk :: hit.value(chunk) == Plans.IndexHit(u, Searches.Parts(s), chunk)
  }

  lemma HitNarrows(db: A.Db, u: Regex.Unicode, s: Searches.Search, test: Test, hit: Option<Plans.Hit>)
    requires A.Sane(db) && Regex.Standard(u) && Searches.Searchable(u, s) && HitFor(u, s, hit)
    requires forall text :: test(text) ==> Searches.Matching(u, s, text)
    ensures Usable(db, hit, test)
  {
    if hit.Some? {
      Searches.Narrowed(db, u, s, test, Plans.SelectivePlan(hit.value));
    }
  }

  /** After any run of imports, rebuilds, renames and deletes, searching the session list, with any
      filter, by the index or not, and following every cursor lists each session with a matching
      text that passes exactly once, in card order. */
  method SearchCards(ghost env: A.Env, ghost turns: seq<Runs.Turn>, ghost snap: Snapshot, ghost u: Regex.Unicode,
      ghost s: Searches.Search, ghost f: Filter, ghost hit: Option<Plans.Hit>, fetch: Option<Place> -> seq<Row>, test: Test,
      limit: nat, expired: (Option<Place>, nat) -> bool)
    returns (pages: seq<Page>)
    requires Runs.AllSound(env, turns) && Describes(Runs.Run(A.EMPTY, turns), snap) && SessionList.Sound(snap)
    requires 0 < limit
    requires Regex.Standard(u) && Searches.Searchable(u, s) && HitFor(u, s, hit)
    requires forall text :: test(text) <==> Searches.Matching(u, s, text)
    requires forall start :: Returns(fetch(start), Runs.Run(A.EMPTY, turns), snap, f, hit, start)
    ensures Exact(AllCards(pages), Scan(Rows(snap, f, true), test), None, None)
    ensures |AllCards(pages)| == |Matching(Scan(Rows(snap, f, true), test))|
  {
    ghost var db := Runs.Run(A.EMPTY, turns);
    ghost var scan := Scan(Rows(snap, f, true), test);
    Runs.EmptyIsValid(env);
    Runs.RunKeeps(env, A.EMPTY, turns);
    HitNarrows(db, u, s, test, hit);
    forall start
      ensures GoodRows(fetch(start), scan, start)
    {
      ReturnsAreGood(fetch(start), db, snap, f, hit, test, start);
    }
    RowsAreUniform(snap, f, true, test);
    pages := ReadAll(fetch, scan, test, limit, None, expired);
    WholeList(snap, f, true, test, pages, limit);
  }

  /** So it does not matter whether the index was used. */
  lemma {:induction false} IndexChangesNothing(snap: Snapshot, f: Filter, test: Test, a: seq<Page>, b: seq<Page>)
    requires SessionList.Sound(snap)
    requires Exact(AllCards(a), Scan(Rows(snap, f, true), test), None, None)
    requires Exact(AllCards(b), Scan(Rows(snap, f, true), test), None, None)
    ensures AllCards(a) == AllCards(b)
  {
    RowsAreUniform(snap, f, true, test);
    ExactIsOne(AllCards(a), AllCards(b), Scan(Rows(snap, f, true), test), None);
  }
}
