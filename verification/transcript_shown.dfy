/** Whether a transcript will show anything after a transaction, told from the tables before it. */
module TranscriptShown {
  import opened Archive
  import opened ArchiveSteps
  import opened ArchiveRuns
  import opened TranscriptViews
  import opened TranscriptCache

  ghost predicate Fills(db: Db, v: View, k: Link) {
    && k in db.recordings && k.revision in db.revisions && db.revisions[k.revision].trace == v.trace
    && (v.Single? ==> k.revision == v.revision)
  }

  /** A revision the transcript shows recorded some event. */
  ghost predicate Filled(db: Db, v: View) {
    exists k :: Fills(db, v, k)
  }

  ghost predicate FilledBesides(db: Db, v: View, r: Id) {
    exists k :: Fills(db, v, k) && k.revision != r
  }

  ghost predicate OwnRecorded(db: Db, r: Id) {
    exists k: Link :: k in db.recordings && k.revision == r
  }

  /** Whether a transcript of revision r has something to show once the revision is written: a parse
      that failed leaves a revision that was there as it is. */
  ghost predicate WillShow(db: Db, n: Normalization, r: Id, v: View) {
    if Unusable(n) && r in db.revisions then Filled(db, v)
    else n.events != [] || (v.Whole? && FilledBesides(db, v, r))
  }

  lemma FillsEntry(env: Env, db: Db, v: View, k: Link)
    requires Valid(env, db) && Fills(db, v, k)
    ensures Entries(db, v) != {}
  {
    assert GoodRecording(db, k);
    var e := db.observations[k.observation].event;
    match v
    case Whole(t) =>
      ShownOnce(env, db, e);
      assert EntryOf(db, e, db.events[e].preferred.value) in Entries(db, v);
    case Single(t, r) =>
      assert RecordedIn(db, t, r, k);
      assert EntryOf(db, e, k.observation) in Entries(db, v);
  }

  lemma ShownOnce(env: Env, db: Db, e: Id)
    requires Valid(env, db) && e in db.events
    ensures Shows(db, e)
  {
    assert Settled(env, db, e);
  }

  lemma EntryFills(env: Env, db: Db, v: View, x: Entry)
    requires Valid(env, db) && x in Entries(db, v)
    ensures Filled(db, v)
  {
    match v
    case Whole(t) => EventFills(env, db, t, x.event);
    case Single(t, r) =>
      var k :| k in db.recordings && RecordedIn(db, t, r, k);
      assert GoodRecording(db, k);
      assert Fills(db, v, k);
  }

  lemma EventFills(env: Env, db: Db, t: Id, e: Id)
    requires Valid(env, db) && e in db.events && db.events[e].trace == t
    ensures Filled(db, Whole(t))
  {
    assert Settled(env, db, e);
    var best :| Highest(env, db, e, best);
    assert GoodRecording(db, best);
    assert Fills(db, Whole(t), best);
  }

  lemma FilledShows(env: Env, db: Db, v: View)
    requires Valid(env, db)
    ensures Filled(db, v) <==> Entries(db, v) != {}
  {
    if Filled(db, v) {
      var k :| Fills(db, v, k);
      FillsEntry(env, db, v, k);
    }
    if Entries(db, v) != {} {
      var x :| x in Entries(db, v);
      EntryFills(env, db, v, x);
    }
  }

  /** A transcript that has something to show shows some event, whatever the order. */
  lemma ShowsIfFilled(env: Env, db: Db, order: Order, v: View)
    requires Valid(env, db) && Sorting(order)
    ensures Fresh(order, db, v) == [] <==> !Filled(db, v)
  {
    FilledShows(env, db, v);
    var ids := Fresh(order, db, v);
    if Entries(db, v) != {} {
      var x :| x in Entries(db, v);
      assert x.event in ids;
    }
    if ids != [] {
      assert ids[0] in ids;
    }
  }

  // ---- What a revision that is written shows

  lemma WrittenFills(db: Db, after: Db, t: Id, r: Id, v: View, any: bool)
    requires Concerns(v, t, r) && r in after.revisions && after.revisions[r].trace == t
    requires KeepsNames(db, after) && (forall q :: q in after.revisions && q != r ==> q in db.revisions)
    requires forall k: Link :: k.revision != r ==> (k in after.recordings <==> k in db.recordings)
    requires OwnRecorded(after, r) <==> any
    ensures Filled(after, v) <==> any || (v.Whole? && FilledBesides(db, v, r))
  {
    if any {
      var k: Link :| k in after.recordings && k.revision == r;
      assert Fills(after, v, k);
    }
    if v.Whole? && FilledBesides(db, v, r) {
      var k :| Fills(db, v, k) && k.revision != r;
      assert Fills(after, v, k);
    }
    if Filled(after, v) && !any {
      var k :| Fills(after, v, k);
      assert Fills(db, v, k);
    }
  }

  lemma OfRevision(db: Db, r: Id, f: Fact)
    requires Named(db) && Knows(db, f) && r in db.revisions && db.revisions[r].trace in db.traces
    requires f.harness == db.traces[db.revisions[r].trace].harness
    requires f.nativeId == db.traces[db.revisions[r].trace].nativeId
    requires f.revision == db.revisions[r].digest
    ensures OwnRecorded(db, r)
  {
    var k :| Placed(db, k) && FactOf(db, k) == f;
    assert SameTrace(db, db.revisions[k.revision].trace, db.revisions[r].trace);
    assert SameRevision(db, k.revision, r);
  }

  lemma NotRecordedYet(db: Db, r: Id)
    requires Sane(db) && r !in db.revisions
    ensures !OwnRecorded(db, r)
  {
    forall k | k in db.recordings
      ensures k.revision in db.revisions
    {
      assert GoodRecording(db, k);
    }
  }

  lemma CommitEmpty(env: Env, db: Db, d: Descriptor, n: Normalization)
    requires Sound(env) && Valid(env, db) && !Imported(db, d) && n.events == []
    ensures !OwnRecorded(CommitRevision(env, db, d, n), Begun(env, db, d, n).2)
  {
    BegunIs(env, db, d, n);
    NotRecordedYet(db, Begun(env, db, d, n).2);
  }

  lemma CommitSome(env: Env, db: Db, d: Descriptor, n: Normalization)
    requires Sound(env) && Valid(env, db) && !Imported(db, d) && n.events != []
    ensures OwnRecorded(CommitRevision(env, db, d, n), Begun(env, db, d, n).2)
  {
    var (begun, t, r, labels) := Begun(env, db, d, n);
    var after := CommitRevision(env, db, d, n);
    var f := Fact(d.harness, d.nativeId, d.revision, d.Time(), n.events[0].key, n.events[0].body);
    assert ImportFact(d, n, f);
    CommitFacts(env, db, d, n, f);
    CommitKeeps(env, db, d, n);
    CommitParents(env, db, d, n);
    CommitRows(env, db, d, n, r);
    OfRevision(after, r, f);
  }

  lemma CommitShows(env: Env, db: Db, d: Descriptor, n: Normalization, v: View)
    requires Sound(env) && Valid(env, db) && !Imported(db, d)
    requires Concerns(v, Begun(env, db, d, n).1, Begun(env, db, d, n).2)
    ensures Filled(CommitRevision(env, db, d, n), v) <==> WillShow(db, n, Begun(env, db, d, n).2, v)
  {
    var (begun, t, r, labels) := Begun(env, db, d, n);
    CommitUntouched(env, db, d, n);
    CommitParents(env, db, d, n);
    if n.events == [] {
      CommitEmpty(env, db, d, n);
    } else {
      CommitSome(env, db, d, n);
    }
    WrittenFills(db, CommitRevision(env, db, d, n), t, r, v, n.events != []);
  }

  lemma RebuildEmpty(env: Env, db: Db, t: Id, r: Id, labels: Text, n: Normalization)
    requires Sane(db) && n.events == []
    ensures !OwnRecorded(Rebuild(env, db, t, r, labels, n), r)
  {
    EmptiedIs(db, t, r, n);
  }

  lemma RebuildSome(env: Env, db: Db, t: Id, r: Id, labels: Text, n: Normalization)
    requires Sound(env) && Valid(env, db) && r in db.revisions && db.revisions[r].trace == t && n.events != []
    ensures OwnRecorded(Rebuild(env, db, t, r, labels, n), r)
  {
    var after := Rebuild(env, db, t, r, labels, n);
    var f := EventFact(db.traces[t], db.revisions[r], n.events[0]);
    assert AmongFacts(db.traces[t], db.revisions[r], n.events, f);
    RebuildFacts(env, db, t, r, labels, n, f);
    RebuildKeeps(env, db, t, r, labels, n);
    RebuildParents(env, db, t, r, labels, n);
    OfRevision(after, r, f);
  }

  lemma RebuildOwn(env: Env, db: Db, t: Id, r: Id, labels: Text, n: Normalization)
    requires Sound(env) && Valid(env, db) && r in db.revisions && db.revisions[r].trace == t
    ensures OwnRecorded(Rebuild(env, db, t, r, labels, n), r) <==> n.events != []
  {
    if n.events == [] {
      RebuildEmpty(env, db, t, r, labels, n);
    } else {
      RebuildSome(env, db, t, r, labels, n);
    }
  }

  lemma RebuildShows(env: Env, db: Db, t: Id, r: Id, labels: Text, n: Normalization, v: View)
    requires Sound(env) && Valid(env, db) && r in db.revisions && db.revisions[r].trace == t && Concerns(v, t, r)
    ensures Filled(Rebuild(env, db, t, r, labels, n), v) <==> n.events != [] || (v.Whole? && FilledBesides(db, v, r))
  {
    RebuildUntouched(env, db, t, r, labels, n);
    RebuildParents(env, db, t, r, labels, n);
    RebuildOwn(env, db, t, r, labels, n);
    WrittenFills(db, Rebuild(env, db, t, r, labels, n), t, r, v, n.events != []);
  }

  lemma RenormalizeShows(env: Env, db: Db, r: Id, n: Normalization, v: View)
    requires Sound(env) && Valid(env, db) && r in db.revisions && db.revisions[r].trace in db.traces
    requires Concerns(v, db.revisions[r].trace, r)
    ensures Filled(Renormalize(env, db, r, n), v) <==> WillShow(db, n, r, v)
  {
    if !Unusable(n) {
      RebuildShows(env, db, db.revisions[r].trace, r, Labels(db.traces[db.revisions[r].trace]), n, v);
    }
  }

  lemma BackfillFills(db: Db, t: Id, r: Id, d: Descriptor, v: View, q: Id)
    ensures Filled(Backfill(db, t, r, d), v) <==> Filled(db, v)
    ensures FilledBesides(Backfill(db, t, r, d), v, q) <==> FilledBesides(db, v, q)
  {
    BackfillIs(db, t, r, d);
    BackfillRows(db, t, r, d);
    assert forall k :: Fills(Backfill(db, t, r, d), v, k) <==> Fills(db, v, k);
  }

  lemma ReimportShows(env: Env, db: Db, t: Id, r: Id, d: Descriptor, n: Normalization, v: View)
    requires Sound(env) && Valid(env, db) && IsRevision(db, t, r, d) && db.revisions[r].status != Normalized
    requires Concerns(v, t, r)
    ensures Filled(Reimport(env, db, t, r, d, n), v) <==> WillShow(db, n, r, v)
  {
    var filled := Backfill(db, t, r, d);
    BackfillFills(db, t, r, d, v, r);
    BackfillIs(db, t, r, d);
    if !Unusable(n) {
      BackfillKeeps(env, db, t, r, d);
      RebuildShows(env, filled, t, r, DescribedLabels(filled.traces[t], d), n, v);
    }
  }
}
