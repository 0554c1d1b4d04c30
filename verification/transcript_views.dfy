/** What a transcript shows of a trace, and which transactions can change it. */
module TranscriptViews {
  import opened Utf8
  import opened Archive
  import opened ArchiveSteps
  import opened ArchiveRuns

  /** The whole trace by its preferred observations, or one revision by those it recorded. */
  datatype View = Whole(trace: Id) | Single(trace: Id, revision: Id)

  /** What the transcript's ORDER BY reads of an event. */
  datatype Entry = Entry(event: Id, key: Text, sortTime: int, body: Body)

  ghost function EntryOf(db: Db, e: Id, o: Id): Entry
    requires e in db.events && o in db.observations
  {
    Entry(e, db.events[e].key, db.events[e].sortTime, db.observations[o].body)
  }

  ghost predicate Shows(db: Db, e: Id) {
    e in db.events && db.events[e].preferred.Some? && db.events[e].preferred.value in db.observations
  }

  ghost predicate RecordedIn(db: Db, t: Id, r: Id, k: Link) {
    && k in db.recordings && k.revision == r && k.observation in db.observations
    && db.observations[k.observation].event in db.events && db.events[db.observations[k.observation].event].trace == t
  }

  ghost function WholeEntries(db: Db, t: Id): set<Entry> {
    set e | e in db.events && db.events[e].trace == t && Shows(db, e) :: EntryOf(db, e, db.events[e].preferred.value)
  }

  ghost function SingleEntries(db: Db, t: Id, r: Id): set<Entry> {
    set k | k in db.recordings && RecordedIn(db, t, r, k) ::
      EntryOf(db, db.observations[k.observation].event, k.observation)
  }

  ghost function Entries(db: Db, v: View): set<Entry> {
    match v
    case Whole(t) => WholeEntries(db, t)
    case Single(t, r) => SingleEntries(db, t, r)
  }

  /** The request is for a trace there is, and for a revision of it. */
  ghost predicate Exists(db: Db, v: View) {
    v.trace in db.traces && (v.Single? ==> v.revision in db.revisions && db.revisions[v.revision].trace == v.trace)
  }

  // ---- Events a transaction leaves alone

  /** The events other revisions recorded keep their rows. */
  ghost predicate RowsKept(db: Db, after: Db, r: Id) {
    forall k :: (k in db.recordings && k.revision != r && k.observation in db.observations &&
                 db.observations[k.observation].event in db.events) ==>
      var e := db.observations[k.observation].event;
      e in after.events && after.events[e].trace == db.events[e].trace && after.events[e].key == db.events[e].key &&
        after.events[e].sortTime == db.events[e].sortTime
  }

  lemma SingleStays(db: Db, after: Db, t: Id, r: Id, u: Id, q: Id)
    requires Untouched(db, after, t, r) && RowsKept(db, after, r) && Sane(db) && q != r
    ensures SingleEntries(after, u, q) == SingleEntries(db, u, q)
  {
    forall k
      ensures RecordedIn(after, u, q, k) <==> RecordedIn(db, u, q, k)
      ensures RecordedIn(db, u, q, k) ==>
        EntryOf(after, after.observations[k.observation].event, k.observation) ==
        EntryOf(db, db.observations[k.observation].event, k.observation)
    {
      if k.revision == q {
        assert SameRecording(db, after, k);
        assert k in db.recordings ==> GoodRecording(db, k);
      }
    }
  }

  lemma ShownElsewhere(env: Env, db: Db, after: Db, t: Id, r: Id, e: Id)
    requires Untouched(db, after, t, r) && Valid(env, db) && r in after.revisions && after.revisions[r].trace == t
    requires KeepsNames(db, after)
    requires e in db.events && db.events[e].trace != t
    ensures Shows(db, e) && Shows(after, e)
    ensures EntryOf(after, e, after.events[e].preferred.value) == EntryOf(db, e, db.events[e].preferred.value)
  {
    assert Settled(env, db, e);
    var best :| Highest(env, db, e, best) && db.events[e].preferred == Some(best.observation);
    assert GoodRecording(db, best);
    assert best.revision != r;
    assert SameRecording(db, after, best);
  }

  lemma WholeStays(env: Env, db: Db, after: Db, t: Id, r: Id, u: Id)
    requires Untouched(db, after, t, r) && Valid(env, db) && r in after.revisions && after.revisions[r].trace == t
    requires KeepsNames(db, after)
    requires u != t
    ensures WholeEntries(after, u) == WholeEntries(db, u)
  {
    forall e | e in db.events && db.events[e].trace == u {
      ShownElsewhere(env, db, after, t, r, e);
    }
  }

  // ---- Rows across insertEvents and a rebuild

  ghost predicate EventsStay(db: Db, after: Db) {
    forall e :: e in db.events ==>
      e in after.events && after.events[e].trace == db.events[e].trace && after.events[e].key == db.events[e].key &&
        after.events[e].sortTime == db.events[e].sortTime
  }

  lemma {:induction false} InsertEventsStay(env: Env, db: Db, t: Id, r: Id, labels: Text, events: seq<Event>,
      seen: set<Id>)
    requires Sound(env)
    ensures EventsStay(db, InsertEvents(env, db, t, r, labels, events, seen))
    decreases |events|
  {
    if events != [] {
      var (after, o) := InsertEvent(env, db, t, r, labels, events[0], seen);
      var e := InsertEventIs(env, db, t, r, labels, events[0], seen);
      InsertEventsStay(env, after, t, r, labels, events[1..], seen + {o});
    }
  }

  /** What one transaction on revision r of trace t may change. */
  ghost predicate Wrote(db: Db, after: Db, t: Id, r: Id) {
    && KeepsNames(db, after) && r in after.revisions && after.revisions[r].trace == t
    && (forall q :: q in after.revisions && q != r ==> q in db.revisions)
    && (forall u :: u in after.traces && u != t ==> u in db.traces)
    && (forall v: View :: v.trace != t || (v.Single? && v.revision != r) ==> Entries(after, v) == Entries(db, v))
  }

  lemma WroteFrom(env: Env, db: Db, after: Db, t: Id, r: Id)
    requires Valid(env, db) && Untouched(db, after, t, r) && RowsKept(db, after, r)
    requires KeepsNames(db, after) && r in after.revisions && after.revisions[r].trace == t
    requires forall q :: q in after.revisions && q != r ==> q in db.revisions
    requires forall u :: u in after.traces && u != t ==> u in db.traces
    requires forall v: View :: v.Single? && v.revision == r && v.trace != t ==> Entries(after, v) == Entries(db, v)
    ensures Wrote(db, after, t, r)
  {
    forall v: View | v.trace != t || (v.Single? && v.revision != r)
      ensures Entries(after, v) == Entries(db, v)
    {
      match v
      case Whole(u) => WholeStays(env, db, after, t, r, u);
      case Single(u, q) =>
        if q != r {
          SingleStays(db, after, t, r, u, q);
        }
    }
  }

  /** A revision shows nothing of another trace. */
  lemma NothingElsewhere(db: Db, u: Id, r: Id)
    requires Sane(db) && r in db.revisions ==> db.revisions[r].trace != u
    requires Sane(db)
    ensures SingleEntries(db, u, r) == {}
  {
    forall k | k in db.recordings && k.revision == r
      ensures !RecordedIn(db, u, r, k)
    {
      assert GoodRecording(db, k);
    }
  }

  // ---- An import, a rebuild, a rename

  lemma ParentsUntouched(db: Db, after: Db, t: Id, r: Id)
    requires SameParents(db, after)
    ensures Untouched(db, after, t, r)
  {
  }

  lemma CommitUntouched(env: Env, db: Db, d: Descriptor, n: Normalization)
    requires Sound(env) && Valid(env, db) && !Imported(db, d)
    ensures var (begun, t, r, labels) := Begun(env, db, d, n);
      Untouched(db, CommitRevision(env, db, d, n), t, r) && RowsKept(db, CommitRevision(env, db, d, n), r)
  {
    var (begun, t, r, labels) := Begun(env, db, d, n);
    var filled := InsertEvents(env, begun, t, r, labels, n.events, {});
    BegunReady(env, db, d, n);
    ParentsUntouched(db, begun, t, r);
    RecordedObservations(begun);
    InsertEventsTouchOne(env, begun, t, r, labels, n.events, {});
    UntouchedTwice(db, begun, filled, t, r);
    InsertEventsKeep(env, begun, t, r, labels, n.events, {});
    FillTitleIs(filled, t, n.title);
    ParentsUntouched(filled, FillTitle(filled, t, n.title), t, r);
    UntouchedTwice(db, filled, FillTitle(filled, t, n.title), t, r);
    InsertEventsStay(env, begun, t, r, labels, n.events, {});
  }

  lemma RecordedObservations(db: Db)
    requires Sane(db)
    ensures forall k :: k in db.recordings ==> k.observation in db.observations
  {
    forall k | k in db.recordings
      ensures k.observation in db.observations
    {
      assert GoodRecording(db, k);
    }
  }

  /** One trace and one revision at most are added. */
  ghost predicate Adds(db: Db, after: Db, t: Id, r: Id) {
    && KeepsNames(db, after) && r in after.revisions && after.revisions[r].trace == t && r !in db.revisions
    && (forall q :: q in after.revisions && q != r ==> q in db.revisions)
    && (forall u :: u in after.traces && u != t ==> u in db.traces)
  }

  lemma BegunAdds(env: Env, db: Db, d: Descriptor, n: Normalization)
    requires Sound(env) && Valid(env, db) && !Imported(db, d)
    ensures var (begun, t, r, labels) := Begun(env, db, d, n); Adds(db, begun, t, r)
  {
    BegunIs(env, db, d, n);
  }

  lemma AddsThrough(db: Db, begun: Db, filled: Db, t: Id, r: Id, title: Text)
    requires Adds(db, begun, t, r) && filled.traces == begun.traces && filled.revisions == begun.revisions
    ensures Adds(db, FillTitle(filled, t, title), t, r)
  {
  }

  lemma CommitParents(env: Env, db: Db, d: Descriptor, n: Normalization)
    requires Sound(env) && Valid(env, db) && !Imported(db, d)
    ensures var (begun, t, r, labels) := Begun(env, db, d, n); Adds(db, CommitRevision(env, db, d, n), t, r)
  {
    var (begun, t, r, labels) := Begun(env, db, d, n);
    BegunReady(env, db, d, n);
    BegunAdds(env, db, d, n);
    InsertEventsKeep(env, begun, t, r, labels, n.events, {});
    AddsThrough(db, begun, InsertEvents(env, begun, t, r, labels, n.events, {}), t, r, n.title);
  }

  /** An import changes only the whole view of its trace and the view of its own revision. */
  lemma CommitWrote(env: Env, db: Db, d: Descriptor, n: Normalization)
    requires Sound(env) && Valid(env, db) && !Imported(db, d)
    ensures var (begun, t, r, labels) := Begun(env, db, d, n); Wrote(db, CommitRevision(env, db, d, n), t, r)
  {
    var (begun, t, r, labels) := Begun(env, db, d, n);
    var after := CommitRevision(env, db, d, n);
    CommitUntouched(env, db, d, n);
    CommitParents(env, db, d, n);
    CommitKeeps(env, db, d, n);
    forall v: View | v.Single? && v.revision == r && v.trace != t
      ensures Entries(after, v) == Entries(db, v)
    {
      NothingElsewhere(after, v.trace, r);
      NothingElsewhere(db, v.trace, r);
    }
    WroteFrom(env, db, after, t, r);
  }

  lemma EmptiedUntouched(db: Db, t: Id, r: Id, n: Normalization)
    requires Sane(db) && r in db.revisions && db.revisions[r].trace == t
    ensures Untouched(db, Emptied(db, t, r, n), t, r)
  {
    var emptied := Emptied(db, t, r, n);
    EmptiedIs(db, t, r, n);
    forall k: Link | k.revision != r
      ensures SameRecording(db, emptied, k)
    {
      assert k in db.recordings ==> GoodRecording(db, k);
    }
  }

  lemma FinishUntouched(env: Env, filled: Db, t: Id, r: Id)
    ensures Untouched(filled, Pruned(Resettled(env, filled, t), t), t, r)
  {
  }

  lemma RebuildUntouched(env: Env, db: Db, t: Id, r: Id, labels: Text, n: Normalization)
    requires Sound(env) && Valid(env, db) && r in db.revisions && db.revisions[r].trace == t
    ensures Untouched(db, Rebuild(env, db, t, r, labels, n), t, r)
  {
    var emptied := Emptied(db, t, r, n);
    var filled := InsertEvents(env, emptied, t, r, labels, n.events, {});
    EmptiedUntouched(db, t, r, n);
    EmptiedReady(env, db, t, r, n);
    RecordedObservations(db);
    RecordedObservations(emptied);
    InsertEventsTouchOne(env, emptied, t, r, labels, n.events, {});
    UntouchedTwice(db, emptied, filled, t, r);
    FinishUntouched(env, filled, t, r);
    UntouchedTwice(db, filled, Pruned(Resettled(env, filled, t), t), t, r);
  }

  lemma FinishKeeps(env: Env, filled: Db, t: Id, o: Id)
    requires o in filled.observations && filled.observations[o].event in filled.events
    ensures var e := filled.observations[o].event;
      var after := Pruned(Resettled(env, filled, t), t);
      && e in after.events && after.events[e].trace == filled.events[e].trace && after.events[e].key == filled.events[e].key
      && after.events[e].sortTime == filled.events[e].sortTime
  {
    assert Observed(Resettled(env, filled, t), filled.observations[o].event);
  }

  lemma {:induction false} RebuildRowsKept(env: Env, db: Db, t: Id, r: Id, labels: Text, n: Normalization)
    requires Sound(env) && Valid(env, db) && r in db.revisions && db.revisions[r].trace == t
    requires EventsStay(db, InsertEvents(env, Emptied(db, t, r, n), t, r, labels, n.events, {}))
    requires Untouched(db, Rebuild(env, db, t, r, labels, n), t, r)
    ensures RowsKept(db, Rebuild(env, db, t, r, labels, n), r)
  {
    var filled := InsertEvents(env, Emptied(db, t, r, n), t, r, labels, n.events, {});
    var after := Rebuild(env, db, t, r, labels, n);
    forall k | k in db.recordings && k.revision != r && k.observation in db.observations &&
      db.observations[k.observation].event in db.events
      ensures var e := db.observations[k.observation].event;
        && e in after.events && after.events[e].trace == db.events[e].trace && after.events[e].key == db.events[e].key
        && after.events[e].sortTime == db.events[e].sortTime
    {
      assert SameRecording(db, after, k);
      FinishKeeps(env, filled, t, k.observation);
    }
  }

  lemma {:induction false} RebuiltEventsStay(env: Env, db: Db, t: Id, r: Id, labels: Text, n: Normalization)
    requires Sound(env) && Sane(db)
    ensures EventsStay(db, InsertEvents(env, Emptied(db, t, r, n), t, r, labels, n.events, {}))
  {
    EmptiedIs(db, t, r, n);
    InsertEventsStay(env, Emptied(db, t, r, n), t, r, labels, n.events, {});
  }

  /** A rebuild changes only the whole view of its trace and the view of its own revision. */
  lemma RebuildWrote(env: Env, db: Db, t: Id, r: Id, labels: Text, n: Normalization)
    requires Sound(env) && Valid(env, db) && r in db.revisions && db.revisions[r].trace == t
    ensures Wrote(db, Rebuild(env, db, t, r, labels, n), t, r)
  {
    var after := Rebuild(env, db, t, r, labels, n);
    RebuildUntouched(env, db, t, r, labels, n);
    RebuiltEventsStay(env, db, t, r, labels, n);
    RebuildRowsKept(env, db, t, r, labels, n);
    RebuildKeeps(env, db, t, r, labels, n);
    RebuildParents(env, db, t, r, labels, n);
    forall v: View | v.Single? && v.revision == r && v.trace != t
      ensures Entries(after, v) == Entries(db, v)
    {
      NothingElsewhere(after, v.trace, r);
      NothingElsewhere(db, v.trace, r);
    }
    WroteFrom(env, db, after, t, r);
  }

  lemma RebuildParents(env: Env, db: Db, t: Id, r: Id, labels: Text, n: Normalization)
    requires Sound(env) && Valid(env, db) && r in db.revisions && db.revisions[r].trace == t
    ensures SameRevisions(db, Rebuild(env, db, t, r, labels, n))
    ensures Rebuild(env, db, t, r, labels, n).traces.Keys == db.traces.Keys
  {
    EmptiedReady(env, db, t, r, n);
    EmptiedRows(db, t, r, n);
    InsertEventsKeep(env, Emptied(db, t, r, n), t, r, labels, n.events, {});
    RebuildRows(env, db, t, r, labels, n);
  }

  /** No view changes. */
  ghost predicate Unseen(db: Db, after: Db) {
    && SameRevisions(db, after) && after.traces.Keys == db.traces.Keys
    && (forall v: View :: Entries(after, v) == Entries(db, v))
  }

  lemma TextsUnseen(db: Db, after: Db)
    requires after.events == db.events && after.observations == db.observations
    requires after.recordings.Keys == db.recordings.Keys
    requires SameRevisions(db, after) && after.traces.Keys == db.traces.Keys
    ensures Unseen(db, after)
  {
    forall v: View
      ensures Entries(after, v) == Entries(db, v)
    {
      match v
      case Whole(t) =>
      case Single(t, r) =>
        assert forall k :: RecordedIn(after, t, r, k) <==> RecordedIn(db, t, r, k);
    }
  }

  lemma BackfillRows(db: Db, t: Id, r: Id, d: Descriptor)
    ensures var after := Backfill(db, t, r, d);
      && after.events == db.events && after.observations == db.observations && after.recordings.Keys == db.recordings.Keys
  {
  }

  lemma BackfillUnseen(db: Db, t: Id, r: Id, d: Descriptor)
    requires Sane(db)
    ensures Unseen(db, Backfill(db, t, r, d))
  {
    BackfillIs(db, t, r, d);
    BackfillFacts(db, t, r, d, Fact([], [], 0, 0, [], Body(0, 0, [])));
    BackfillRows(db, t, r, d);
    TextsUnseen(db, Backfill(db, t, r, d));
  }

  lemma UpdateTitlesUnseen(db: Db, t: Id, row: Trace, reindex: bool)
    requires t in db.traces && row.harness == db.traces[t].harness && row.nativeId == db.traces[t].nativeId
    ensures Unseen(db, UpdateTitles(db, t, row, reindex))
  {
    UpdateTitlesRows(db, t, row, reindex);
    TextsUnseen(db, UpdateTitles(db, t, row, reindex));
  }

  lemma TitlesUnseen(db: Db, t: Id, r: Id, title: Text)
    ensures Unseen(db, SetTitleOverride(db, t, title)) && Unseen(db, SetGeneratedTitle(db, t, r, title))
  {
    TextsUnseen(db, db);
    if t in db.traces {
      UpdateTitlesUnseen(db, t, db.traces[t].(titleOverride := title), true);
      UpdateTitlesUnseen(db, t, db.traces[t].(generatedTitle := title, generatedRevision := r), title != db.traces[t].generatedTitle);
    }
  }

  lemma DeleteLeavesEvent(env: Env, db: Db, t: Id, e: Id)
    requires Valid(env, db) && e in db.events && db.events[e].trace != t
    ensures Shows(db, e) && Shows(DeleteTrace(db, t), e)
    ensures EntryOf(DeleteTrace(db, t), e, db.events[e].preferred.value) == EntryOf(db, e, db.events[e].preferred.value)
  {
    assert Settled(env, db, e);
    var best :| Highest(env, db, e, best) && db.events[e].preferred == Some(best.observation);
  }

  /** The event is there in both, of one trace, and shown alike. */
  ghost predicate ShownAlike(db: Db, after: Db, e: Id) {
    && Shows(db, e) && Shows(after, e) && after.events[e] == db.events[e]
    && EntryOf(after, e, db.events[e].preferred.value) == EntryOf(db, e, db.events[e].preferred.value)
  }

  lemma DeleteShownAlike(env: Env, db: Db, t: Id, e: Id)
    requires Valid(env, db) && e in db.events && db.events[e].trace != t
    ensures ShownAlike(db, DeleteTrace(db, t), e)
  {
    DeleteLeavesEvent(env, db, t, e);
  }

  lemma AlikeWhole(db: Db, after: Db, u: Id)
    requires forall e :: e in db.events && db.events[e].trace == u ==> ShownAlike(db, after, e)
    requires forall e :: e in after.events ==> e in db.events && after.events[e].trace == db.events[e].trace
    ensures WholeEntries(after, u) == WholeEntries(db, u)
  {
  }

  lemma DeleteLeavesWhole(env: Env, db: Db, t: Id, u: Id)
    requires Valid(env, db) && u != t
    ensures WholeEntries(DeleteTrace(db, t), u) == WholeEntries(db, u)
  {
    forall e | e in db.events && db.events[e].trace == u {
      DeleteShownAlike(env, db, t, e);
    }
    AlikeWhole(db, DeleteTrace(db, t), u);
  }

  lemma DeleteLeavesSingle(db: Db, t: Id, u: Id, r: Id)
    requires Sane(db) && u != t
    ensures SingleEntries(DeleteTrace(db, t), u, r) == SingleEntries(db, u, r)
  {
    forall k
      ensures RecordedIn(DeleteTrace(db, t), u, r, k) <==> RecordedIn(db, u, r, k)
    {
      DeleteIs(db, t, k);
      assert k in db.recordings ==> GoodRecording(db, k);
    }
  }

  /** Deleting a trace leaves the views of other traces. */
  lemma DeleteLeaves(env: Env, db: Db, t: Id, v: View)
    requires Valid(env, db) && Exists(DeleteTrace(db, t), v)
    ensures Exists(db, v) && v.trace != t && Entries(DeleteTrace(db, t), v) == Entries(db, v)
  {
    match v
    case Whole(u) => DeleteLeavesWhole(env, db, t, u);
    case Single(u, r) => DeleteLeavesSingle(db, t, u, r);
  }
}
