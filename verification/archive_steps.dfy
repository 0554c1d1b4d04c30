/** The transactions of internal/store that write the archive: import, backfill, rebuild, rename
    and delete. Each keeps every invariant, so every run of them does. */
module ArchiveSteps {
  import opened Utf8
  import opened Archive

  /** A trace of an archive, with its native update time if it has one and the clock of its import. */
  datatype Descriptor = Descriptor(
    harness: Text, nativeId: Text, title: Text, workingDirectory: Text, remote: Text, root: Text,
    revision: int, nativeUpdatedAt: Option<int>, now: int)
  {
    /** metadataTime: a revision without a native time is recorded under the clock. */
    function Time(): int {
      if nativeUpdatedAt.Some? then nativeUpdatedAt.value else now
    }
  }

  datatype Normalization = Normalization(status: Status, version: nat, title: Text, events: seq<Event>)

  // ---- commitRevision

  ghost predicate IsTrace(db: Db, t: Id, harness: Text, nativeId: Text) {
    t in db.traces && db.traces[t].harness == harness && db.traces[t].nativeId == nativeId
  }

  /** The metadata an import writes when it is not older than what is stored. */
  function Refreshed(row: Trace, d: Descriptor): Trace {
    if d.Time() >= row.updatedAt then
      row.(title := d.title, workingDirectory := d.workingDirectory, remote := d.remote, root := d.root,
           hasRepository := d.remote != [] || d.root != [], updatedAt := d.Time())
    else row
  }

  ghost function UpsertTrace(env: Env, db: Db, d: Descriptor): (Db, Id) {
    if t :| IsTrace(db, t, d.harness, d.nativeId) then
      (db.(traces := db.traces[t := Refreshed(db.traces[t], d)]), t)
    else
      var t := env.next(db.traces.Keys);
      var row := Trace(d.harness, d.nativeId, d.title, [], [], 0, d.workingDirectory, d.remote, d.root,
        d.remote != [] || d.root != [], d.Time());
      (db.(traces := db.traces[t := row]), t)
  }

  ghost function AddRevision(env: Env, db: Db, trace: Id, d: Descriptor, n: Normalization): (Db, Id) {
    var r := env.next(db.revisions.Keys);
    (db.(revisions := db.revisions[r := Revision(trace, d.revision, d.Time(), n.status, n.version)]), r)
  }

  /** A title found by the normalizer fills an empty one. */
  function FillTitle(db: Db, trace: Id, title: Text): Db {
    if trace in db.traces && db.traces[trace].title == [] && title != [] then
      db.(traces := db.traces[trace := db.traces[trace].(title := title)])
    else db
  }

  /** A rebuild offers a trace without a generated title for naming again, and may fill its title. */
  function Retitled(db: Db, trace: Id, title: Text): Db {
    if trace in db.traces then
      var row := db.traces[trace];
      db.(traces := db.traces[trace := row.(
        generatedRevision := if row.generatedTitle == [] then 0 else row.generatedRevision,
        title := if row.title == [] then title else row.title)])
    else db
  }

  function DescribedLabels(row: Trace, d: Descriptor): Text {
    Labels(row.(harness := d.harness, title := d.title, workingDirectory := d.workingDirectory, remote := d.remote, root := d.root))
  }

  ghost predicate IsRevision(db: Db, t: Id, r: Id, d: Descriptor) {
    IsTrace(db, t, d.harness, d.nativeId) && r in db.revisions && db.revisions[r].trace == t && db.revisions[r].digest == d.revision
  }

  ghost predicate Imported(db: Db, d: Descriptor) {
    exists t, r :: IsRevision(db, t, r, d)
  }

  /** What an import leaves before its events: the trace and revision rows, and the labels. */
  ghost function Begun(env: Env, db: Db, d: Descriptor, n: Normalization): (Db, Id, Id, Text) {
    var (named, t) := UpsertTrace(env, db, d);
    var (revised, r) := AddRevision(env, named, t, d, n);
    (revised, t, r, if t in named.traces then DescribedLabels(named.traces[t], d) else [])
  }

  ghost function CommitRevision(env: Env, db: Db, d: Descriptor, n: Normalization): Db {
    var (begun, t, r, labels) := Begun(env, db, d, n);
    FillTitle(InsertEvents(env, begun, t, r, labels, n.events, {}), t, n.title)
  }

  // ---- Changes to traces and revisions alone

  predicate SameIdentity(a: Revision, b: Revision) {
    a.trace == b.trace && a.digest == b.digest && a.nativeUpdatedAt == b.nativeUpdatedAt
  }

  ghost predicate KeepsNames(db: Db, after: Db) {
    && (forall t :: t in db.traces ==>
      t in after.traces && after.traces[t].harness == db.traces[t].harness &&
      after.traces[t].nativeId == db.traces[t].nativeId)
    && (forall r :: r in db.revisions ==> r in after.revisions && SameIdentity(db.revisions[r], after.revisions[r]))
  }

  /** Trace and revision rows are added or refreshed; none changes its identity. */
  ghost predicate SameParents(db: Db, after: Db) {
    && after.events == db.events && after.observations == db.observations && after.recordings == db.recordings
    && KeepsNames(db, after)
    && (forall r :: r in after.revisions ==> after.revisions[r].trace in after.traces)
  }

  lemma ParentsSane(db: Db, after: Db)
    requires SameParents(db, after) && Sane(db)
    ensures Sane(after)
  {
    ConsistentStays(db, after);
    forall k | k in after.recordings
      ensures GoodRecording(after, k)
    {
      assert GoodRecording(db, k);
    }
  }

  lemma ParentsRecorded(db: Db, after: Db)
    requires SameParents(db, after) && AllRecorded(db)
    ensures AllRecorded(after)
  {
    forall o | o in after.observations
      ensures Recorded(after, o)
    {
      assert Recorded(db, o);
    }
  }

  lemma ParentsSettled(env: Env, db: Db, after: Db, e: Id)
    requires SameParents(db, after) && Sane(db) && Settled(env, db, e)
    ensures Settled(env, after, e)
  {
    forall k
      ensures Of(db, k, e) <==> Of(after, k, e)
      ensures Of(db, k, e) ==> RankOf(env, db, k) == RankOf(env, after, k)
    {
      assert k in db.recordings ==> GoodRecording(db, k);
    }
    SettledStays(env, db, after, e);
  }

  lemma ParentsFacts(db: Db, after: Db, f: Fact)
    requires SameParents(db, after) && Sane(db)
    ensures Knows(after, f) <==> Knows(db, f)
  {
    forall k | k in db.recordings
      ensures Placed(db, k) && Placed(after, k) && FactOf(after, k) == FactOf(db, k)
    {
      assert GoodRecording(db, k);
    }
  }

  // ---- An import of a new revision

  lemma NamedSame(db: Db, after: Db)
    requires Named(db) && after.traces == db.traces && after.revisions == db.revisions
    ensures Named(after)
  {
    NamedStays(db, after);
  }

  lemma SetTraceIs(db: Db, t: Id, row: Trace)
    requires Consistent(db)
    requires t in db.traces ==> row.harness == db.traces[t].harness && row.nativeId == db.traces[t].nativeId
    ensures SameParents(db, db.(traces := db.traces[t := row]))
  {
  }

  lemma UpsertRow(env: Env, db: Db, d: Descriptor) returns (row: Trace)
    requires Sound(env)
    ensures var (after, t) := UpsertTrace(env, db, d);
      && after == db.(traces := db.traces[t := row]) && row.harness == d.harness && row.nativeId == d.nativeId
      && (t in db.traces ==> IsTrace(db, t, d.harness, d.nativeId))
      && (t !in db.traces ==> forall u :: !IsTrace(db, u, d.harness, d.nativeId))
  {
    var (after, t) := UpsertTrace(env, db, d);
    row := after.traces[t];
  }

  lemma UpsertIs(env: Env, db: Db, d: Descriptor)
    requires Sound(env) && Consistent(db)
    ensures var (after, t) := UpsertTrace(env, db, d);
      && IsTrace(after, t, d.harness, d.nativeId) && SameParents(db, after) && after.revisions == db.revisions
      && (forall u :: u in after.traces && u != t ==> u in db.traces && after.traces[u] == db.traces[u])
      && (t !in db.traces ==> forall u :: !IsTrace(db, u, d.harness, d.nativeId))
  {
    var row := UpsertRow(env, db, d);
    SetTraceIs(db, UpsertTrace(env, db, d).1, row);
  }

  lemma BegunIs(env: Env, db: Db, d: Descriptor, n: Normalization)
    requires Sound(env) && Consistent(db)
    ensures var (after, t, r, labels) := Begun(env, db, d, n);
      && IsTrace(after, t, d.harness, d.nativeId) && SameParents(db, after)
      && r !in db.revisions && after.revisions == db.revisions[r := Revision(t, d.revision, d.Time(), n.status, n.version)]
      && (forall u :: u in after.traces && u != t ==> u in db.traces && after.traces[u] == db.traces[u])
      && (t !in db.traces ==> forall u :: !IsTrace(db, u, d.harness, d.nativeId))
  {
    UpsertIs(env, db, d);
  }

  lemma BegunNamed(env: Env, db: Db, d: Descriptor, n: Normalization)
    requires Sound(env) && Consistent(db) && Named(db) && !Imported(db, d)
    ensures Named(Begun(env, db, d, n).0)
  {
    var (after, t, r, labels) := Begun(env, db, d, n);
    BegunIs(env, db, d, n);
    forall a, b | a in after.traces && b in after.traces && SameTrace(after, a, b)
      ensures a == b
    {
      if a in db.traces && b in db.traces {
        assert SameTrace(db, a, b);
      } else {
        assert a in db.traces ==> !IsTrace(db, a, d.harness, d.nativeId);
        assert b in db.traces ==> !IsTrace(db, b, d.harness, d.nativeId);
      }
    }
    forall a, b | a in after.revisions && b in after.revisions && SameRevision(after, a, b)
      ensures a == b
    {
      if a in db.revisions && b in db.revisions {
        assert SameRevision(db, a, b);
      } else if a in db.revisions {
        assert IsRevision(db, t, a, d);
      } else if b in db.revisions {
        assert IsRevision(db, t, b, d);
      }
    }
  }

  lemma NothingSeen(db: Db, after: Db, r: Id)
    requires Sane(db) && after.recordings == db.recordings && r !in db.revisions
    ensures SeenBy(after, r, {})
  {
    forall o
      ensures Link(o, r) !in after.recordings
    {
      assert Link(o, r) in db.recordings ==> GoodRecording(db, Link(o, r));
    }
  }

  lemma FillTitleIs(db: Db, trace: Id, title: Text)
    requires Consistent(db)
    ensures SameParents(db, FillTitle(db, trace, title))
    ensures Named(db) ==> Named(FillTitle(db, trace, title))
  {
    if trace in db.traces {
      SetTraceIs(db, trace, db.traces[trace].(title := title));
    }
    if Named(db) {
      NamedStays(db, FillTitle(db, trace, title));
    }
  }

  lemma RetitledIs(db: Db, trace: Id, title: Text)
    requires Consistent(db)
    ensures SameParents(db, Retitled(db, trace, title)) && Retitled(db, trace, title).traces.Keys == db.traces.Keys
    ensures Retitled(db, trace, title).revisions == db.revisions
    ensures Named(db) ==> Named(Retitled(db, trace, title))
  {
    if trace in db.traces {
      SetTraceIs(db, trace, Retitled(db, trace, title).traces[trace]);
    }
    if Named(db) {
      NamedStays(db, Retitled(db, trace, title));
    }
  }

  lemma NamedStays(db: Db, after: Db)
    requires Named(db) && KeepsNames(db, after) && after.traces.Keys == db.traces.Keys
    requires after.revisions.Keys == db.revisions.Keys
    ensures Named(after)
  {
    assert forall a, b :: a in db.traces && b in db.traces ==> SameTrace(after, a, b) == SameTrace(db, a, b);
    assert forall a, b :: a in db.revisions && b in db.revisions ==>
      SameRevision(after, a, b) == SameRevision(db, a, b);
  }

  /** Events inserted under a new revision leave every event settled. */
  lemma {:induction false} NewEventsSettled(env: Env, db: Db, begun: Db, t: Id, r: Id, labels: Text, events: seq<Event>)
    requires Sound(env) && Valid(env, db) && SameParents(db, begun) && Sane(begun) && AllRecorded(begun)
    requires SeenBy(begun, r, {})
    requires t in begun.traces && r in begun.revisions && begun.revisions[r].trace == t
    ensures var after := InsertEvents(env, begun, t, r, labels, events, {}); forall e :: e in after.events ==>
      Settled(env, after, e)
  {
    var after := InsertEvents(env, begun, t, r, labels, events, {});
    forall e | e in after.events
      ensures Settled(env, after, e)
    {
      if e in db.events {
        ParentsSettled(env, db, begun, e);
      }
      InsertEventsSettle(env, begun, t, r, labels, events, {}, e);
    }
  }

  lemma {:induction false} InsertedValid(env: Env, db: Db, begun: Db, t: Id, r: Id, labels: Text, events: seq<Event>)
    requires Sound(env) && Valid(env, db) && SameParents(db, begun) && Sane(begun) && AllRecorded(begun)
    requires SeenBy(begun, r, {}) && Named(begun)
    requires t in begun.traces && r in begun.revisions && begun.revisions[r].trace == t
    ensures Valid(env, InsertEvents(env, begun, t, r, labels, events, {}))
  {
    InsertEventsKeep(env, begun, t, r, labels, events, {});
    NamedStays(begun, InsertEvents(env, begun, t, r, labels, events, {}));
    NewEventsSettled(env, db, begun, t, r, labels, events);
  }

  lemma BegunReady(env: Env, db: Db, d: Descriptor, n: Normalization)
    requires Sound(env) && Valid(env, db) && !Imported(db, d)
    ensures var (begun, t, r, labels) := Begun(env, db, d, n);
      && SameParents(db, begun) && Sane(begun) && AllRecorded(begun) && SeenBy(begun, r, {}) && Named(begun)
      && t in begun.traces && r in begun.revisions && begun.revisions[r].trace == t
  {
    var (begun, t, r, labels) := Begun(env, db, d, n);
    BegunIs(env, db, d, n);
    BegunNamed(env, db, d, n);
    ParentsSane(db, begun);
    ParentsRecorded(db, begun);
    NothingSeen(db, begun, r);
  }

  /** Importing a new revision keeps every invariant. */
  lemma CommitKeeps(env: Env, db: Db, d: Descriptor, n: Normalization)
    requires Sound(env) && Valid(env, db) && !Imported(db, d)
    ensures Valid(env, CommitRevision(env, db, d, n))
  {
    var (begun, t, r, labels) := Begun(env, db, d, n);
    BegunReady(env, db, d, n);
    InsertedValid(env, db, begun, t, r, labels, n.events);
    FillTitleKeeps(env, InsertEvents(env, begun, t, r, labels, n.events, {}), t, n.title);
  }

  lemma FillTitleKeeps(env: Env, db: Db, trace: Id, title: Text)
    requires Valid(env, db)
    ensures Valid(env, FillTitle(db, trace, title))
  {
    var after := FillTitle(db, trace, title);
    FillTitleIs(db, trace, title);
    ParentsSane(db, after);
    ParentsRecorded(db, after);
    forall e | e in after.events
      ensures Settled(env, after, e)
    {
      ParentsSettled(env, db, after, e);
    }
  }

  /** The fact an import records for an event of its own. */
  ghost predicate ImportFact(d: Descriptor, n: Normalization, f: Fact) {
    exists k ::
      0 <= k < |n.events| && f == Fact(d.harness, d.nativeId, d.revision, d.Time(), n.events[k].key, n.events[k].body)
  }

  /** The archive learns exactly the events of the new revision. */
  lemma CommitFacts(env: Env, db: Db, d: Descriptor, n: Normalization, f: Fact)
    requires Sound(env) && Valid(env, db) && !Imported(db, d)
    ensures Knows(CommitRevision(env, db, d, n), f) <==> Knows(db, f) || ImportFact(d, n, f)
  {
    var (begun, t, r, labels) := Begun(env, db, d, n);
    var filled := InsertEvents(env, begun, t, r, labels, n.events, {});
    BegunIs(env, db, d, n);
    ParentsSane(db, begun);
    ParentsRecorded(db, begun);
    NothingSeen(db, begun, r);
    InsertEventsKeep(env, begun, t, r, labels, n.events, {});
    InsertEventsFacts(env, begun, t, r, labels, n.events, {}, f);
    ParentsFacts(db, begun, f);
    FillTitleIs(filled, t, n.title);
    ParentsFacts(filled, FillTitle(filled, t, n.title), f);
    assert AmongFacts(begun.traces[t], begun.revisions[r], n.events, f) <==> ImportFact(d, n, f);
  }

  // ---- Rebuilding one revision (replaceRevisionEvents)

  /** DELETE FROM observation_revisions WHERE revision_id=r. */
  ghost function Unrecorded(db: Db, r: Id): Db {
    db.(recordings := map k | k in db.recordings && k.revision != r :: db.recordings[k])
  }

  predicate Within(db: Db, o: Id, t: Id) {
    o in db.observations && db.observations[o].event in db.events && db.events[db.observations[o].event].trace == t
  }

  /** DELETE FROM event_observations of the trace that no revision records any more. */
  ghost function WithoutOrphans(db: Db, t: Id): Db {
    db.(observations := map o | o in db.observations && !(Within(db, o, t) && !Recorded(db, o)) :: db.observations[o])
  }

  ghost function Restatused(db: Db, r: Id, n: Normalization): Db {
    if r in db.revisions then db.(revisions := db.revisions[r := db.revisions[r].(status := n.status, version := n.version)]) else db
  }

  /** UPDATE events SET preferred_observation_id=(...) WHERE trace_id=t. */
  ghost function Resettled(env: Env, db: Db, t: Id): Db {
    db.(events := map e | e in db.events ::
      if db.events[e].trace == t then db.events[e].(preferred := Preferred(env, db, e)) else db.events[e])
  }

  ghost predicate Observed(db: Db, e: Id) {
    exists o :: o in db.observations && db.observations[o].event == e
  }

  /** DELETE FROM events of the trace that have no observation. */
  ghost function Pruned(db: Db, t: Id): Db {
    db.(events := map e | e in db.events && (db.events[e].trace != t || Observed(db, e)) :: db.events[e])
  }

  /** The tables with nothing of revision r left, ready for its new events. */
  ghost function Emptied(db: Db, t: Id, r: Id, n: Normalization): Db {
    Restatused(WithoutOrphans(Unrecorded(Retitled(db, t, n.title), r), t), r, n)
  }

  ghost function Rebuild(env: Env, db: Db, t: Id, r: Id, labels: Text, n: Normalization): Db {
    Pruned(Resettled(env, InsertEvents(env, Emptied(db, t, r, n), t, r, labels, n.events, {}), t), t)
  }

  /** What emptying keeps: all of other revisions, and the observations they recorded. */
  ghost predicate KeepsOthers(db: Db, after: Db, t: Id, r: Id) {
    && (forall o :: o in db.observations && !Within(db, o, t) ==> o in after.observations)
    && (forall k :: k in after.recordings ==>
      k in db.recordings && k.revision != r && k.observation in after.observations &&
      after.recordings[k] == db.recordings[k])
    && (forall k :: k in db.recordings && k.revision != r ==> k in after.recordings)
    && (forall o :: o in after.observations ==> o in db.observations && after.observations[o] == db.observations[o])
  }

  lemma UnrecordedIs(db: Db, t: Id, r: Id)
    requires Sane(db)
    ensures KeepsOthers(db, WithoutOrphans(Unrecorded(db, r), t), t, r)
  {
    var less := Unrecorded(db, r);
    forall k | k in db.recordings && k.revision != r
      ensures k.observation in WithoutOrphans(less, t).observations
    {
      assert GoodRecording(db, k);
      assert Link(k.observation, k.revision) in less.recordings;
      assert Recorded(less, k.observation);
    }
  }

  lemma UnrecordedRecorded(db: Db, t: Id, r: Id)
    requires Sane(db) && AllRecorded(db) && r in db.revisions && db.revisions[r].trace == t
    ensures AllRecorded(WithoutOrphans(Unrecorded(db, r), t))
  {
    var less := Unrecorded(db, r);
    var after := WithoutOrphans(less, t);
    forall o | o in after.observations
      ensures Recorded(after, o)
    {
      assert Recorded(db, o);
      var q :| Link(o, q) in db.recordings;
      assert GoodRecording(db, Link(o, q));
      if Within(less, o, t) {
        q :| Link(o, q) in less.recordings;
      }
      assert Link(o, q) in after.recordings;
    }
  }

  lemma UnrecordedSane(db: Db, after: Db, r: Id)
    requires Sane(db) && after == db.(observations := after.observations, recordings := after.recordings)
    requires forall k :: k in after.recordings ==>
      k in db.recordings && after.recordings[k] == db.recordings[k] && k.observation in after.observations
    requires forall o :: o in after.observations ==> o in db.observations && after.observations[o] == db.observations[o]
    ensures Sane(after)
  {
    forall a, b | a in after.events && b in after.events && SameEvent(after, a, b)
      ensures a == b
    {
      assert SameEvent(db, a, b);
    }
    forall a, b | a in after.observations && b in after.observations && SameObservation(after, a, b)
      ensures a == b
    {
      assert SameObservation(db, a, b);
    }
    forall k | k in after.recordings
      ensures GoodRecording(after, k)
    {
      assert GoodRecording(db, k);
    }
  }

  lemma SetRevisionIs(db: Db, r: Id, row: Revision)
    requires Consistent(db) && r in db.revisions && SameIdentity(db.revisions[r], row)
    ensures SameParents(db, db.(revisions := db.revisions[r := row]))
  {
  }

  lemma RestatusedIs(db: Db, r: Id, n: Normalization)
    requires Consistent(db)
    ensures SameParents(db, Restatused(db, r, n))
    ensures Restatused(db, r, n).revisions.Keys == db.revisions.Keys && Restatused(db, r, n).traces == db.traces
  {
    if r in db.revisions {
      SetRevisionIs(db, r, db.revisions[r].(status := n.status, version := n.version));
    }
  }

  /** The emptied tables are ready for the revision's new events. */
  lemma EmptiedReady(env: Env, db: Db, t: Id, r: Id, n: Normalization)
    requires Sane(db) && AllRecorded(db) && Named(db) && r in db.revisions && db.revisions[r].trace == t
    ensures var after := Emptied(db, t, r, n);
      Sane(after) && AllRecorded(after) && Named(after) && SeenBy(after, r, {})
  {
    var titled := Retitled(db, t, n.title);
    RetitledIs(db, t, n.title);
    ParentsSane(db, titled);
    ParentsRecorded(db, titled);
    var less := WithoutOrphans(Unrecorded(titled, r), t);
    UnrecordedIs(titled, t, r);
    UnrecordedSane(titled, less, r);
    UnrecordedRecorded(titled, t, r);
    RestatusedIs(less, r, n);
    NamedStays(titled, Restatused(less, r, n));
    ParentsSane(less, Restatused(less, r, n));
    ParentsRecorded(less, Restatused(less, r, n));
  }

  lemma KeepsOthersThrough(db: Db, titled: Db, less: Db, after: Db, t: Id, r: Id)
    requires SameParents(db, titled) && KeepsOthers(titled, less, t, r) && SameParents(less, after)
    ensures KeepsOthers(db, after, t, r)
  {
    assert forall o :: Within(titled, o, t) == Within(db, o, t);
  }

  lemma KeepsNamesThrough(db: Db, titled: Db, less: Db, after: Db)
    requires KeepsNames(db, titled) && less.traces == titled.traces && less.revisions == titled.revisions
    requires KeepsNames(less, after)
    ensures KeepsNames(db, after)
  {
  }

  lemma EmptiedIs(db: Db, t: Id, r: Id, n: Normalization)
    requires Sane(db)
    ensures var after := Emptied(db, t, r, n);
      && after.events == db.events && KeepsOthers(db, after, t, r) && KeepsNames(db, after)
      && after.traces.Keys == db.traces.Keys && after.revisions.Keys == db.revisions.Keys
  {
    var titled := Retitled(db, t, n.title);
    RetitledIs(db, t, n.title);
    ParentsSane(db, titled);
    UnrecordedIs(titled, t, r);
    var less := WithoutOrphans(Unrecorded(titled, r), t);
    UnrecordedSane(titled, less, r);
    RestatusedIs(less, r, n);
    KeepsOthersThrough(db, titled, less, Restatused(less, r, n), t, r);
    KeepsNamesThrough(db, titled, less, Restatused(less, r, n));
  }

  lemma OthersSettled(env: Env, db: Db, after: Db, t: Id, r: Id, e: Id)
    requires after.events == db.events && KeepsOthers(db, after, t, r) && KeepsNames(db, after)
    requires Sane(db) && r in db.revisions && db.revisions[r].trace == t
    requires Settled(env, db, e) && db.events[e].trace != t
    ensures Settled(env, after, e)
  {
    forall k
      ensures Of(db, k, e) <==> Of(after, k, e)
      ensures Of(db, k, e) ==> RankOf(env, db, k) == RankOf(env, after, k)
    {
      assert k in db.recordings ==> GoodRecording(db, k);
    }
    SettledStays(env, db, after, e);
  }

  /** An event of another trace does not notice. */
  lemma EmptiedSettled(env: Env, db: Db, t: Id, r: Id, n: Normalization, e: Id)
    requires Sane(db) && r in db.revisions && db.revisions[r].trace == t
    requires Settled(env, db, e) && db.events[e].trace != t
    ensures Settled(env, Emptied(db, t, r, n), e)
  {
    EmptiedIs(db, t, r, n);
    OthersSettled(env, db, Emptied(db, t, r, n), t, r, e);
  }

  lemma ResettledIs(env: Env, db: Db, t: Id)
    requires Sane(db)
    ensures SameRows(db, Resettled(env, db, t)) && Sane(Resettled(env, db, t))
  {
    SaneStays(db, Resettled(env, db, t));
  }

  lemma ResettledSame(env: Env, db: Db, t: Id, e: Id)
    ensures SameFor(env, db, Resettled(env, db, t), e)
  {
  }

  lemma ResettledOwn(env: Env, db: Db, t: Id, e: Id, some: Link)
    requires e in db.events && db.events[e].trace == t && Of(db, some, e)
    ensures Settled(env, Resettled(env, db, t), e)
  {
    HighestExists(env, db, e, some);
    var best :| Highest(env, db, e, best) && Preferred(env, db, e) == Some(best.observation);
    ResettledSame(env, db, t, e);
    assert Highest(env, Resettled(env, db, t), e, best);
  }

  lemma ObservedLink(db: Db, e: Id) returns (k: Link)
    requires Sane(db) && AllRecorded(db) && Observed(db, e)
    ensures Of(db, k, e)
  {
    var o :| o in db.observations && db.observations[o].event == e;
    assert Recorded(db, o);
    var q :| Link(o, q) in db.recordings;
    k := Link(o, q);
    assert GoodRecording(db, k);
  }

  lemma ResettledSettled(env: Env, db: Db, t: Id, e: Id)
    requires Sane(db) && AllRecorded(db) && e in db.events
    requires if db.events[e].trace == t then Observed(db, e) else Settled(env, db, e)
    ensures Settled(env, Resettled(env, db, t), e)
  {
    if db.events[e].trace == t {
      var k := ObservedLink(db, e);
      ResettledOwn(env, db, t, e, k);
    } else {
      ResettledSame(env, db, t, e);
      SettledStays(env, db, Resettled(env, db, t), e);
    }
  }

  lemma PrunedOk(env: Env, db: Db, t: Id)
    requires Sane(db) && AllRecorded(db) && Named(db)
    requires forall e :: e in db.events && (db.events[e].trace != t || Observed(db, e)) ==> Settled(env, db, e)
    ensures Valid(env, Pruned(db, t))
  {
    var after := Pruned(db, t);
    forall o | o in after.observations
      ensures after.observations[o].event in after.events && Recorded(after, o)
    {
      assert Observed(db, db.observations[o].event);
      assert Recorded(db, o);
    }
    PrunedSane(db, t);
    forall e | e in after.events
      ensures Settled(env, after, e)
    {
      PrunedSettled(env, db, t, e);
    }
    NamedStays(db, after);
  }

  lemma PrunedSane(db: Db, t: Id)
    requires Sane(db)
    ensures Sane(Pruned(db, t))
  {
    var after := Pruned(db, t);
    forall o | o in after.observations
      ensures after.observations[o].event in after.events
    {
      assert Observed(db, db.observations[o].event);
    }
    forall a, b | a in after.events && b in after.events && SameEvent(after, a, b)
      ensures a == b
    {
      assert SameEvent(db, a, b);
    }
    forall a, b | a in after.observations && b in after.observations && SameObservation(after, a, b)
      ensures a == b
    {
      assert SameObservation(db, a, b);
    }
    forall k | k in after.recordings
      ensures GoodRecording(after, k)
    {
      assert GoodRecording(db, k);
    }
  }

  lemma PrunedSettled(env: Env, db: Db, t: Id, e: Id)
    requires Settled(env, db, e) && e in Pruned(db, t).events
    ensures Settled(env, Pruned(db, t), e)
  {
    SettledStays(env, db, Pruned(db, t), e);
  }

  lemma FilledSettled(env: Env, filled: Db, t: Id, e: Id)
    requires Sane(filled) && AllRecorded(filled)
    requires e in filled.events && filled.events[e].trace != t ==> Settled(env, filled, e)
    requires e in Resettled(env, filled, t).events
    requires Resettled(env, filled, t).events[e].trace != t || Observed(Resettled(env, filled, t), e)
    ensures Settled(env, Resettled(env, filled, t), e)
  {
    assert Observed(Resettled(env, filled, t), e) ==> Observed(filled, e);
    ResettledSettled(env, filled, t, e);
  }

  lemma FilledValid(env: Env, filled: Db, t: Id)
    requires Sane(filled) && AllRecorded(filled) && Named(filled)
    requires forall e :: e in filled.events && filled.events[e].trace != t ==> Settled(env, filled, e)
    ensures Valid(env, Pruned(Resettled(env, filled, t), t))
  {
    ResettledIs(env, filled, t);
    ResettledRecorded(env, filled, t);
    NamedStays(filled, Resettled(env, filled, t));
    forall e | e in Resettled(env, filled, t).events &&
      (Resettled(env, filled, t).events[e].trace != t || Observed(Resettled(env, filled, t), e))
      ensures Settled(env, Resettled(env, filled, t), e)
    {
      FilledSettled(env, filled, t, e);
    }
    PrunedOk(env, Resettled(env, filled, t), t);
  }

  lemma EmptiedRows(db: Db, t: Id, r: Id, n: Normalization)
    requires Sane(db) && r in db.revisions && db.revisions[r].trace == t
    ensures var after := Emptied(db, t, r, n);
      && after.events == db.events && t in after.traces && r in after.revisions && after.revisions[r].trace == t
      && after.traces.Keys == db.traces.Keys && after.revisions.Keys == db.revisions.Keys && KeepsNames(db, after)
  {
    EmptiedIs(db, t, r, n);
  }

  lemma {:induction false} FilledNamed(env: Env, db: Db, t: Id, r: Id, labels: Text, n: Normalization)
    requires Sound(env) && Sane(db) && AllRecorded(db) && Named(db) && r in db.revisions && db.revisions[r].trace == t
    ensures var filled := InsertEvents(env, Emptied(db, t, r, n), t, r, labels, n.events, {});
      Sane(filled) && AllRecorded(filled) && Named(filled)
  {
    var emptied := Emptied(db, t, r, n);
    EmptiedReady(env, db, t, r, n);
    EmptiedRows(db, t, r, n);
    InsertEventsKeep(env, emptied, t, r, labels, n.events, {});
    NamedSame(emptied, InsertEvents(env, emptied, t, r, labels, n.events, {}));
  }

  /** Rebuilding a revision keeps every invariant. */
  lemma RebuildKeeps(env: Env, db: Db, t: Id, r: Id, labels: Text, n: Normalization)
    requires Sound(env) && Valid(env, db) && r in db.revisions && db.revisions[r].trace == t
    ensures Valid(env, Rebuild(env, db, t, r, labels, n))
  {
    FilledNamed(env, db, t, r, labels, n);
    var filled := InsertEvents(env, Emptied(db, t, r, n), t, r, labels, n.events, {});
    forall e | e in filled.events && filled.events[e].trace != t
      ensures Settled(env, filled, e)
    {
      RebuiltSettled(env, db, t, r, labels, n, e);
    }
    FilledValid(env, filled, t);
  }

  lemma ResettledRecorded(env: Env, db: Db, t: Id)
    requires AllRecorded(db)
    ensures AllRecorded(Resettled(env, db, t))
  {
    forall o | o in db.observations
      ensures Recorded(Resettled(env, db, t), o)
    {
      assert Recorded(db, o);
    }
  }

  lemma {:induction false} KeptEvent(env: Env, db: Db, t: Id, r: Id, labels: Text, n: Normalization, e: Id)
    requires Sound(env) && Sane(db)
    requires var filled := InsertEvents(env, Emptied(db, t, r, n), t, r, labels, n.events, {});
      e in filled.events && filled.events[e].trace != t
    ensures e in db.events && db.events[e].trace != t
  {
    var emptied := Emptied(db, t, r, n);
    EmptiedIs(db, t, r, n);
    assert forall k :: k in emptied.recordings ==> k.observation in emptied.observations;
    InsertEventsTouchOne(env, emptied, t, r, labels, n.events, {});
  }

  /** With the new events in, events of other traces are still settled. */
  lemma {:induction false} RebuiltSettled(env: Env, db: Db, t: Id, r: Id, labels: Text, n: Normalization, e: Id)
    requires Sound(env) && Valid(env, db) && r in db.revisions && db.revisions[r].trace == t
    requires var filled := InsertEvents(env, Emptied(db, t, r, n), t, r, labels, n.events, {});
      e in filled.events && filled.events[e].trace != t
    ensures Settled(env, InsertEvents(env, Emptied(db, t, r, n), t, r, labels, n.events, {}), e)
  {
    KeptEvent(env, db, t, r, labels, n, e);
    EmptiedSettled(env, db, t, r, n, e);
    EmptiedReady(env, db, t, r, n);
    EmptiedRows(db, t, r, n);
    InsertEventsSettle(env, Emptied(db, t, r, n), t, r, labels, n.events, {}, e);
  }

  // ---- What a rebuild leaves alone, and what the archive knows after it

  /** Rebuilding one revision leaves what every other revision recorded unchanged. */
  lemma RebuildLeavesOthers(env: Env, db: Db, t: Id, r: Id, labels: Text, n: Normalization, k: Link)
    requires Sound(env) && Valid(env, db) && r in db.revisions && db.revisions[r].trace == t && k.revision != r
    ensures var after := Rebuild(env, db, t, r, labels, n);
      && (k in after.recordings <==> k in db.recordings)
      && (k in db.recordings ==>
            && after.recordings[k] == db.recordings[k] && k.observation in after.observations
            && after.observations[k.observation] == db.observations[k.observation])
  {
    var emptied := Emptied(db, t, r, n);
    EmptiedIs(db, t, r, n);
    assert forall j :: j in emptied.recordings ==> j.observation in emptied.observations;
    InsertEventsTouchOne(env, emptied, t, r, labels, n.events, {});
    var filled := InsertEvents(env, emptied, t, r, labels, n.events, {});
    assert SameRecording(emptied, filled, k);
  }

  /** A revision other than r recorded the fact. */
  ghost predicate KnowsApartFrom(db: Db, r: Id, f: Fact) {
    exists k :: Placed(db, k) && k.revision != r && FactOf(db, k) == f
  }

  lemma EmptiedFacts(db: Db, after: Db, t: Id, r: Id, f: Fact)
    requires after.events == db.events && KeepsOthers(db, after, t, r) && KeepsNames(db, after)
    requires Sane(db) && Sane(after)
    ensures Knows(after, f) <==> KnowsApartFrom(db, r, f)
  {
    if Knows(after, f) {
      var k :| Placed(after, k) && FactOf(after, k) == f;
      assert GoodRecording(db, k);
      assert Placed(db, k) && FactOf(db, k) == f;
    }
    if KnowsApartFrom(db, r, f) {
      var k :| Placed(db, k) && k.revision != r && FactOf(db, k) == f;
      assert Placed(after, k) && FactOf(after, k) == f;
    }
  }

  lemma FinishedFacts(env: Env, filled: Db, t: Id, f: Fact)
    requires Sane(filled)
    ensures Knows(Pruned(Resettled(env, filled, t), t), f) <==> Knows(filled, f)
  {
    var after := Pruned(Resettled(env, filled, t), t);
    forall k | k in filled.recordings
      ensures Placed(filled, k) && Placed(after, k) && FactOf(after, k) == FactOf(filled, k)
    {
      assert GoodRecording(filled, k);
      assert Observed(Resettled(env, filled, t), filled.observations[k.observation].event);
    }
  }

  /** After a rebuild the archive knows what other revisions recorded and the rebuilt events. */
  lemma RebuildFacts(env: Env, db: Db, t: Id, r: Id, labels: Text, n: Normalization, f: Fact)
    requires Sound(env) && Valid(env, db) && r in db.revisions && db.revisions[r].trace == t
    ensures Knows(Rebuild(env, db, t, r, labels, n), f) <==>
      KnowsApartFrom(db, r, f) || AmongFacts(db.traces[t], db.revisions[r], n.events, f)
  {
    var emptied := Emptied(db, t, r, n);
    EmptiedReady(env, db, t, r, n);
    EmptiedIs(db, t, r, n);
    EmptiedRows(db, t, r, n);
    EmptiedFacts(db, emptied, t, r, f);
    InsertEventsFacts(env, emptied, t, r, labels, n.events, {}, f);
    assert AmongFacts(emptied.traces[t], emptied.revisions[r], n.events, f) <==>
      AmongFacts(db.traces[t], db.revisions[r], n.events, f);
    InsertEventsKeep(env, emptied, t, r, labels, n.events, {});
    FinishedFacts(env, InsertEvents(env, emptied, t, r, labels, n.events, {}), t, f);
  }

  // ---- Rewriting search text (backfillMissingTraceMetadata, reindexTraceSearch)

  /** The rows named get a new text and exactly its chunks. */
  ghost function Rewrite(db: Db, texts: map<Link, Text>): Db {
    db.(recordings := map k | k in db.recordings :: Rewritten(db, texts, k))
  }

  ghost function Rewritten(db: Db, texts: map<Link, Text>, k: Link): Recording
    requires k in db.recordings
  {
    if k in texts && k.observation in db.observations then
      Recording(texts[k], db.recordings[k].sources, ChunkRows(db.observations[k.observation].event, texts[k]))
    else db.recordings[k]
  }

  lemma RewriteSane(db: Db, texts: map<Link, Text>)
    requires Sane(db) && forall k :: k in texts ==> texts[k] != []
    ensures Sane(Rewrite(db, texts))
  {
    var after := Rewrite(db, texts);
    ConsistentStays(db, after);
    forall k | k in after.recordings
      ensures GoodRecording(after, k)
    {
      assert GoodRecording(db, k);
    }
  }

  /** Apart from texts, sources and chunks the tables are the same. */
  ghost predicate SameButTexts(db: Db, after: Db) {
    after == db.(recordings := after.recordings) && after.recordings.Keys == db.recordings.Keys
  }

  lemma TextsFacts(db: Db, after: Db, f: Fact)
    requires SameButTexts(db, after)
    ensures Knows(after, f) <==> Knows(db, f)
  {
    forall k
      ensures Placed(after, k) <==> Placed(db, k)
      ensures Placed(db, k) ==> FactOf(after, k) == FactOf(db, k)
    {
    }
  }

  lemma TextsSettled(env: Env, db: Db, after: Db, e: Id)
    requires SameButTexts(db, after) && Settled(env, db, e)
    ensures Settled(env, after, e)
  {
    SettledStays(env, db, after, e);
  }

  lemma TextsValid(env: Env, db: Db, after: Db)
    requires Valid(env, db) && SameButTexts(db, after) && Sane(after)
    ensures Valid(env, after)
  {
    NamedSame(db, after);
    forall o | o in after.observations
      ensures Recorded(after, o)
    {
      assert Recorded(db, o);
    }
    forall e | e in after.events
      ensures Settled(env, after, e)
    {
      TextsSettled(env, db, after, e);
    }
  }

  // ---- Deleting a trace

  /** DELETE FROM traces WHERE id=t, with what cascades from it. */
  ghost function DeleteTrace(db: Db, t: Id): Db {
    var revisions := map r | r in db.revisions && db.revisions[r].trace != t :: db.revisions[r];
    var events := map e | e in db.events && db.events[e].trace != t :: db.events[e];
    var observations := map o | o in db.observations && db.observations[o].event in events :: db.observations[o];
    Db(db.traces - {t}, revisions, events, observations,
       map k | k in db.recordings && k.revision in revisions && k.observation in observations :: db.recordings[k])
  }

  lemma DeleteIs(db: Db, t: Id, k: Link)
    requires Sane(db)
    ensures var after := DeleteTrace(db, t);
      k in after.recordings <==> k in db.recordings && Keyed(db, k) && db.revisions[k.revision].trace != t
  {
    if k in db.recordings {
      assert GoodRecording(db, k);
    }
  }

  lemma DeleteConsistent(db: Db, t: Id)
    requires Sane(db)
    ensures Consistent(DeleteTrace(db, t))
  {
    var after := DeleteTrace(db, t);
    forall a, b | a in after.events && b in after.events && SameEvent(after, a, b)
      ensures a == b
    {
      assert SameEvent(db, a, b);
    }
    forall a, b | a in after.observations && b in after.observations && SameObservation(after, a, b)
      ensures a == b
    {
      assert SameObservation(db, a, b);
    }
  }

  lemma DeleteSane(db: Db, t: Id)
    requires Sane(db)
    ensures Sane(DeleteTrace(db, t))
  {
    DeleteConsistent(db, t);
    forall k | k in DeleteTrace(db, t).recordings
      ensures GoodRecording(DeleteTrace(db, t), k)
    {
      assert GoodRecording(db, k);
    }
  }

  lemma DeleteRecorded(db: Db, t: Id)
    requires Sane(db) && AllRecorded(db)
    ensures AllRecorded(DeleteTrace(db, t))
  {
    var after := DeleteTrace(db, t);
    forall o | o in after.observations
      ensures Recorded(after, o)
    {
      assert Recorded(db, o);
      var r :| Link(o, r) in db.recordings;
      assert GoodRecording(db, Link(o, r));
      assert Link(o, r) in after.recordings;
    }
  }

  lemma DeleteNamed(db: Db, t: Id)
    requires Named(db)
    ensures Named(DeleteTrace(db, t))
  {
    var after := DeleteTrace(db, t);
    forall a, b | a in after.traces && b in after.traces && SameTrace(after, a, b)
      ensures a == b
    {
      assert SameTrace(db, a, b);
    }
    forall a, b | a in after.revisions && b in after.revisions && SameRevision(after, a, b)
      ensures a == b
    {
      assert SameRevision(db, a, b);
    }
  }

  lemma DeleteOf(env: Env, db: Db, t: Id, e: Id, k: Link)
    requires Sane(db) && e in db.events && db.events[e].trace != t
    ensures Of(DeleteTrace(db, t), k, e) <==> Of(db, k, e)
    ensures Of(db, k, e) ==> RankOf(env, db, k) == RankOf(env, DeleteTrace(db, t), k)
  {
    if k in db.recordings {
      assert GoodRecording(db, k);
    }
  }

  lemma DeleteSettled(env: Env, db: Db, t: Id, e: Id)
    requires Sane(db) && Settled(env, db, e) && e in DeleteTrace(db, t).events
    ensures Settled(env, DeleteTrace(db, t), e)
  {
    forall k {
      DeleteOf(env, db, t, e, k);
    }
    SettledStays(env, db, DeleteTrace(db, t), e);
  }

  lemma DeleteKeeps(env: Env, db: Db, t: Id)
    requires Valid(env, db)
    ensures Valid(env, DeleteTrace(db, t))
  {
    DeleteSane(db, t);
    DeleteRecorded(db, t);
    DeleteNamed(db, t);
    forall e | e in DeleteTrace(db, t).events
      ensures Settled(env, DeleteTrace(db, t), e)
    {
      DeleteSettled(env, db, t, e);
    }
  }

  lemma DeletedFact(db: Db, t: Id, k: Link)
    requires Sane(db) && Placed(db, k)
    ensures Placed(DeleteTrace(db, t), k) <==> db.revisions[k.revision].trace != t
    ensures Placed(DeleteTrace(db, t), k) ==> FactOf(DeleteTrace(db, t), k) == FactOf(db, k)
  {
    assert GoodRecording(db, k);
  }

  /** Deleting a trace forgets exactly what its own revisions recorded. */
  lemma DeleteFacts(db: Db, t: Id, f: Fact)
    requires Sane(db) && Named(db) && t in db.traces
    ensures Knows(DeleteTrace(db, t), f) <==>
      Knows(db, f) && !(f.harness == db.traces[t].harness && f.nativeId == db.traces[t].nativeId)
  {
    forall k | Placed(db, k)
      ensures db.revisions[k.revision].trace == t <==> SameTrace(db, db.revisions[k.revision].trace, t)
      ensures Placed(DeleteTrace(db, t), k) <==> db.revisions[k.revision].trace != t
      ensures Placed(DeleteTrace(db, t), k) ==> FactOf(DeleteTrace(db, t), k) == FactOf(db, k)
    {
      DeletedFact(db, t, k);
    }
    assert forall k :: Placed(DeleteTrace(db, t), k) ==> Placed(db, k);
  }

  /** Which trace a row belongs to, by its own references. */
  ghost predicate ObservationOf(db: Db, o: Id, t: Id) {
    o in db.observations && db.observations[o].event in db.events && db.events[db.observations[o].event].trace == t
  }

  ghost predicate RecordingOf(db: Db, k: Link, t: Id) {
    k in db.recordings && k.revision in db.revisions && db.revisions[k.revision].trace == t
  }

  /** Nothing of the trace is left in any table. */
  ghost predicate NothingOf(db: Db, t: Id) {
    && t !in db.traces
    && (forall r :: r in db.revisions ==> db.revisions[r].trace != t)
    && (forall e :: e in db.events ==> db.events[e].trace != t)
    && (forall o :: !ObservationOf(db, o, t)) && (forall k :: !RecordingOf(db, k, t))
  }

  /** The rows of trace u are what they were, in every table. */
  ghost predicate SameRowsOf(db: Db, after: Db, u: Id) {
    && (u in after.traces <==> u in db.traces) && (u in db.traces ==> after.traces[u] == db.traces[u])
    && (forall r :: r in db.revisions && db.revisions[r].trace == u ==>
      r in after.revisions && after.revisions[r] == db.revisions[r])
    && (forall e :: e in db.events && db.events[e].trace == u ==> e in after.events && after.events[e] == db.events[e])
    && (forall o :: ObservationOf(db, o, u) ==> o in after.observations && after.observations[o] == db.observations[o])
    && (forall k :: RecordingOf(db, k, u) ==> k in after.recordings && after.recordings[k] == db.recordings[k])
  }

  /** No table has a row it did not have. */
  ghost predicate NothingNew(db: Db, after: Db) {
    && after.traces.Keys <= db.traces.Keys && after.revisions.Keys <= db.revisions.Keys
    && after.events.Keys <= db.events.Keys && after.observations.Keys <= db.observations.Keys
    && after.recordings.Keys <= db.recordings.Keys
  }

  /** The trace is gone with all its rows, and all else is as it was. */
  ghost predicate OnlyGone(db: Db, after: Db, t: Id) {
    NothingOf(after, t) && NothingNew(db, after) && forall u: Id :: u != t ==> SameRowsOf(db, after, u)
  }

  lemma DeleteStays(db: Db, t: Id, u: Id, k: Link)
    requires Sane(db) && u != t && RecordingOf(db, k, u)
    ensures k in DeleteTrace(db, t).recordings
  {
    DeleteIs(db, t, k);
    assert GoodRecording(db, k);
  }

  lemma DeleteSameRows(db: Db, t: Id, u: Id)
    requires Sane(db) && u != t
    ensures SameRowsOf(db, DeleteTrace(db, t), u)
  {
    forall k | RecordingOf(db, k, u) {
      DeleteStays(db, t, u, k);
    }
  }

  lemma DeleteIsOnly(db: Db, t: Id)
    requires Sane(db)
    ensures OnlyGone(db, DeleteTrace(db, t), t)
  {
    forall u: Id | u != t {
      DeleteSameRows(db, t, u);
    }
  }

  /** What is known of the deleted trace goes, and nothing else. */
  ghost predicate Forgets(db: Db, after: Db, t: Id) {
    forall f :: Knows(after, f) <==> Knows(db, f) && !IsTrace(db, t, f.harness, f.nativeId)
  }

  lemma DeleteForgets(db: Db, t: Id)
    requires Sane(db) && Named(db)
    ensures t in db.traces ==> Forgets(db, DeleteTrace(db, t), t)
  {
    if t in db.traces {
      forall f {
        DeleteFacts(db, t, f);
      }
    }
  }

  /** A trace that is not there takes nothing with it. */
  lemma DeleteNothing(db: Db, t: Id)
    requires Sane(db) && t !in db.traces
    ensures DeleteTrace(db, t) == db
  {
    forall k | k in db.recordings
      ensures k in DeleteTrace(db, t).recordings
    {
      assert GoodRecording(db, k);
    }
    var after := DeleteTrace(db, t);
    assert after.revisions == db.revisions && after.events == db.events;
    assert after.observations == db.observations;
    assert after.recordings == db.recordings;
  }
}
