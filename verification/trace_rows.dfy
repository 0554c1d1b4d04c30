/** What a trace row says after imports: the metadata of the latest, whatever their order. */
module TraceRows {
  import opened Utf8
  import opened Archive
  import opened ArchiveSteps
  import opened ArchiveRuns
  import Views = TranscriptViews

  /** The row after imports in this order. */
  function RefreshedAll(row: Trace, imports: seq<Descriptor>): Trace {
    if imports == [] then row else Refreshed(RefreshedAll(row, imports[..|imports| - 1]), imports[|imports| - 1])
  }

  /** No import is of a later time, and of those of its time it came last. */
  ghost predicate IsLatest(row: Trace, imports: seq<Descriptor>, i: nat) {
    && i < |imports| && row.updatedAt <= imports[i].Time()
    && (forall j :: 0 <= j < |imports| ==> imports[j].Time() <= imports[i].Time())
    && (forall j :: i < j < |imports| ==> imports[j].Time() < imports[i].Time())
  }

  /** The row has what the import says of the trace, and its own titles. */
  ghost predicate Says(after: Trace, row: Trace, d: Descriptor) {
    && after.title == d.title && after.workingDirectory == d.workingDirectory
    && after.remote == d.remote && after.root == d.root && (after.hasRepository <==> d.remote != [] || d.root != [])
    && after.updatedAt == d.Time() && after.harness == row.harness && after.nativeId == row.nativeId
    && after.titleOverride == row.titleOverride && after.generatedTitle == row.generatedTitle
    && after.generatedRevision == row.generatedRevision
  }

  /** After any imports the row says what the latest says; where all are older than the row it stays. */
  lemma {:induction false} LatestWins(row: Trace, imports: seq<Descriptor>) returns (i: Option<nat>)
    ensures i.Some? ==> IsLatest(row, imports, i.value) && Says(RefreshedAll(row, imports), row, imports[i.value])
    ensures i.None? ==> RefreshedAll(row, imports) == row && forall j :: 0 <= j < |imports| ==> imports[j].Time() < row.updatedAt
  {
    if imports == [] {
      i := None;
    } else {
      var n := |imports| - 1;
      i := LatestWins(row, imports[..n]);
      if imports[n].Time() >= RefreshedAll(row, imports[..n]).updatedAt {
        i := Some(n);
      }
    }
  }

  /** With a time each, the order of the imports does not matter. */
  lemma {:induction false} AnyOrder(row: Trace, a: seq<Descriptor>, b: seq<Descriptor>)
    requires multiset(a) == multiset(b)
    requires forall i, j :: 0 <= i < j < |a| ==> a[i].Time() != a[j].Time()
    ensures RefreshedAll(row, a) == RefreshedAll(row, b)
  {
    var i := LatestWins(row, a);
    var j := LatestWins(row, b);
    forall k | 0 <= k < |a|
      ensures a[k] in b
    {
      assert a[k] in multiset(b);
    }
    forall k | 0 <= k < |b|
      ensures b[k] in a
    {
      assert b[k] in multiset(a);
    }
    if i.Some? {
      var k :| 0 <= k < |b| && b[k] == a[i.value];
      assert j.Some?;
      var l :| 0 <= l < |a| && a[l] == b[j.value];
      assert a[l].Time() == a[i.value].Time();
    }
    assert j.Some? ==> b[j.value] in a;
  }

  // ---- What a backfill does to the row

  /** It fills in what is missing and replaces nothing; a second time nothing is missing that it has. */
  lemma BackfillFillsOnly(row: Trace, d: Descriptor)
    ensures var after := Backfilled(row, d);
      && (row.title != [] ==> after.title == row.title)
      && (row.workingDirectory != [] ==> after.workingDirectory == row.workingDirectory)
      && (row.hasRepository ==> after.remote == row.remote && after.root == row.root && after.hasRepository)
      && (d.nativeUpdatedAt.None? || d.nativeUpdatedAt.value < row.updatedAt ==> after == row)
      && (d.nativeUpdatedAt.Some? && row.updatedAt <= d.nativeUpdatedAt.value ==>
        (after.title == [] ==> d.title == []) && (after.workingDirectory == [] ==> d.workingDirectory == [])
        && (!after.hasRepository ==> d.remote == [] && d.root == []))
      && after.updatedAt == row.updatedAt && Backfilled(after, d) == after
  {
  }

  // ---- Generated titles

  datatype Offer = Offer(revision: Id, title: Text)

  /** The archive after titles generated for some revisions, in this order. */
  ghost function Offered(db: Db, t: Id, offers: seq<Offer>): Db {
    if offers == [] then db
    else
      var n := |offers| - 1;
      SetGeneratedTitle(Offered(db, t, offers[..n]), t, offers[n].revision, offers[n].title)
  }

  /** The first title offered for the newest revision, if that is newer than the one there. */
  ghost predicate IsNewest(row: Trace, offers: seq<Offer>, i: nat) {
    && i < |offers| && row.generatedRevision < offers[i].revision
    && (forall j :: 0 <= j < |offers| ==> offers[j].revision <= offers[i].revision)
    && (forall j :: 0 <= j < i ==> offers[j].revision < offers[i].revision)
  }

  lemma OneOffer(db: Db, t: Id, offer: Offer)
    requires t in db.traces
    ensures var after, row := SetGeneratedTitle(db, t, offer.revision, offer.title), db.traces[t];
      t in after.traces && after.traces[t] ==
        if row.generatedRevision < offer.revision then row.(generatedTitle := offer.title, generatedRevision := offer.revision)
        else row
  {
  }

  ghost predicate KeepsNewest(row: Trace, after: Trace, offers: seq<Offer>, i: Option<nat>) {
    if i.Some? then
      && IsNewest(row, offers, i.value)
      && after == row.(generatedTitle := offers[i.value].title, generatedRevision := offers[i.value].revision)
    else after == row && forall j :: 0 <= j < |offers| ==> offers[j].revision <= row.generatedRevision
  }

  lemma NewestMore(row: Trace, before: Trace, after: Trace, offers: seq<Offer>, i: Option<nat>) returns (j: Option<nat>)
    requires offers != [] && KeepsNewest(row, before, offers[..|offers| - 1], i)
    requires var offer := offers[|offers| - 1];
      after == if before.generatedRevision < offer.revision
        then before.(generatedTitle := offer.title, generatedRevision := offer.revision) else before
    ensures KeepsNewest(row, after, offers, j)
  {
    j := if before.generatedRevision < offers[|offers| - 1].revision then Some(|offers| - 1) else i;
  }

  /** A trace keeps the first title generated for its newest revision, whatever is offered after. */
  lemma {:induction false} NewestTitleStays(db: Db, t: Id, offers: seq<Offer>) returns (i: Option<nat>)
    requires t in db.traces
    ensures t in Offered(db, t, offers).traces
    ensures KeepsNewest(db.traces[t], Offered(db, t, offers).traces[t], offers, i)
  {
    if offers == [] {
      i := None;
    } else {
      var n := |offers| - 1;
      var before := Offered(db, t, offers[..n]);
      var k := NewestTitleStays(db, t, offers[..n]);
      OneOffer(before, t, offers[n]);
      i := NewestMore(db.traces[t], before.traces[t], Offered(db, t, offers).traces[t], offers, k);
    }
  }

  // ---- Which parses replace stored events

  /** A parse that failed or is not supported leaves the archive as it is; one that is whole or
      partial leaves of the revision exactly its own events. */
  lemma RenormalizeFacts(env: Env, db: Db, r: Id, n: Normalization, f: Fact)
    requires Sound(env) && Valid(env, db) && r in db.revisions && db.revisions[r].trace in db.traces
    ensures match n.status
      case Failed => Renormalize(env, db, r, n) == db
      case Unsupported => Renormalize(env, db, r, n) == db
      case _ =>
        Knows(Renormalize(env, db, r, n), f) <==>
        KnowsApartFrom(db, r, f) || AmongFacts(db.traces[db.revisions[r].trace], db.revisions[r], n.events, f)
  {
    if n.status == Normalized || n.status == PartiallyParsed {
      RebuildFacts(env, db, db.revisions[r].trace, r, Labels(db.traces[db.revisions[r].trace]), n, f);
    }
  }

  /** One of the events of the revision, under its trace's identity. */
  ghost predicate ReadAs(db: Db, t: Id, r: Id, events: seq<Event>, f: Fact)
    requires t in db.traces && r in db.revisions
  {
    AmongFacts(db.traces[t], db.revisions[r], events, f)
  }

  lemma PlacedStays(db: Db, t: Id, r: Id, d: Descriptor, k: Link)
    ensures Placed(Backfill(db, t, r, d), k) <==> Placed(db, k)
    ensures Placed(db, k) ==> FactOf(Backfill(db, t, r, d), k) == FactOf(db, k)
  {
  }

  lemma ApartStays(db: Db, t: Id, r: Id, d: Descriptor, f: Fact)
    requires Sane(db)
    ensures KnowsApartFrom(Backfill(db, t, r, d), r, f) <==> KnowsApartFrom(db, r, f)
  {
    forall k {
      PlacedStays(db, t, r, d, k);
    }
  }

  lemma ReadStays(db: Db, t: Id, r: Id, d: Descriptor, events: seq<Event>, f: Fact)
    requires t in db.traces && r in db.revisions
    ensures t in Backfill(db, t, r, d).traces && r in Backfill(db, t, r, d).revisions
    ensures ReadAs(Backfill(db, t, r, d), t, r, events, f) <==> ReadAs(db, t, r, events, f)
  {
  }

  /** Of the revision exactly these events are known, and what others recorded. */
  ghost predicate Learns(db: Db, after: Db, t: Id, r: Id, events: seq<Event>, f: Fact)
    requires t in db.traces && r in db.revisions
  {
    Knows(after, f) <==> KnowsApartFrom(db, r, f) || ReadAs(db, t, r, events, f)
  }

  lemma FilledLearns(env: Env, filled: Db, t: Id, r: Id, labels: Text, n: Normalization, f: Fact)
    requires Sound(env) && Valid(env, filled) && t in filled.traces && r in filled.revisions && filled.revisions[r].trace == t
    ensures Learns(filled, Rebuild(env, filled, t, r, labels, n), t, r, n.events, f)
  {
    RebuildFacts(env, filled, t, r, labels, n, f);
  }

  lemma LearnsThrough(db: Db, filled: Db, after: Db, t: Id, r: Id, d: Descriptor, events: seq<Event>, f: Fact)
    requires Sane(db) && t in db.traces && r in db.revisions && filled == Backfill(db, t, r, d)
    requires t in filled.traces && r in filled.revisions && Learns(filled, after, t, r, events, f)
    ensures Learns(db, after, t, r, events, f)
  {
    ApartStays(db, t, r, d, f);
    ReadStays(db, t, r, d, events, f);
  }

  lemma ReimportRebuilds(env: Env, db: Db, t: Id, r: Id, d: Descriptor, n: Normalization, f: Fact)
    requires Sound(env) && Valid(env, db) && IsRevision(db, t, r, d)
    requires db.revisions[r].status != Normalized && (n.status == Normalized || n.status == PartiallyParsed)
    ensures Learns(db, Reimport(env, db, t, r, d, n), t, r, n.events, f)
  {
    var filled := Backfill(db, t, r, d);
    BackfillIs(db, t, r, d);
    BackfillKeeps(env, db, t, r, d);
    FilledLearns(env, filled, t, r, DescribedLabels(filled.traces[t], d), n, f);
    LearnsThrough(db, filled, Reimport(env, db, t, r, d, n), t, r, d, n.events, f);
  }

  lemma ReimportStays(env: Env, db: Db, t: Id, r: Id, d: Descriptor, n: Normalization, f: Fact)
    requires Sane(db) && IsRevision(db, t, r, d)
    requires db.revisions[r].status == Normalized || n.status == Failed || n.status == Unsupported
    ensures Knows(Reimport(env, db, t, r, d, n), f) <==> Knows(db, f)
  {
    BackfillFacts(db, t, r, d, f);
  }

  /** The same of a revision that is imported again: one that was parsed whole before stays. */
  lemma ReimportFacts(env: Env, db: Db, t: Id, r: Id, d: Descriptor, n: Normalization, f: Fact)
    requires Sound(env) && Valid(env, db) && IsRevision(db, t, r, d)
    ensures if db.revisions[r].status != Normalized && (n.status == Normalized || n.status == PartiallyParsed)
            then Learns(db, Reimport(env, db, t, r, d, n), t, r, n.events, f)
            else Knows(Reimport(env, db, t, r, d, n), f) <==> Knows(db, f)
  {
    if db.revisions[r].status != Normalized && (n.status == Normalized || n.status == PartiallyParsed) {
      ReimportRebuilds(env, db, t, r, d, n, f);
    } else {
      ReimportStays(env, db, t, r, d, n, f);
    }
  }

  // ---- The rows an import and a rebuild leave

  ghost predicate IsNew(db: Db, d: Descriptor) {
    forall t :: !IsTrace(db, t, d.harness, d.nativeId)
  }

  /** A title found in the events counts only where there is no other. */
  function TitleOr(title: Text, found: Text): Text {
    if title == [] then found else title
  }

  lemma {:induction false} CommitRow(env: Env, db: Db, d: Descriptor, n: Normalization)
    requires Sound(env) && Valid(env, db) && !Imported(db, d)
    ensures var (begun, t, r, labels) := Begun(env, db, d, n);
      var after := CommitRevision(env, db, d, n);
      && t in after.traces && t in begun.traces
      && after.traces[t] == begun.traces[t].(title := TitleOr(begun.traces[t].title, n.title))
      && r in after.revisions && after.revisions[r] == Revision(t, d.revision, d.Time(), n.status, n.version)
      && forall q :: q in db.revisions ==> q != r && q in after.revisions && after.revisions[q] == db.revisions[q]
  {
    var (begun, t, r, labels) := Begun(env, db, d, n);
    BegunReady(env, db, d, n);
    BegunIs(env, db, d, n);
    InsertEventsKeep(env, begun, t, r, labels, n.events, {});
  }

  /** A new trace has what its first import says of it, and no titles of its own. */
  lemma {:induction false} NewTraceSays(env: Env, db: Db, d: Descriptor, n: Normalization)
    requires Sound(env) && Valid(env, db) && IsNew(db, d)
    ensures var (begun, t, r, labels) := Begun(env, db, d, n);
      var row := CommitRevision(env, db, d, n).traces;
      && t !in db.traces && t in row
      && row[t] == Trace(d.harness, d.nativeId, TitleOr(d.title, n.title), [], [], 0, d.workingDirectory, d.remote, d.root,
           d.remote != [] || d.root != [], d.Time())
  {
    assert !Imported(db, d);
    CommitRow(env, db, d, n);
  }

  /** One that is there is refreshed. */
  lemma {:induction false} OldTraceSays(env: Env, db: Db, d: Descriptor, n: Normalization, t: Id)
    requires Sound(env) && Valid(env, db) && !Imported(db, d) && IsTrace(db, t, d.harness, d.nativeId)
    ensures var after := CommitRevision(env, db, d, n);
      var row := RefreshedAll(db.traces[t], [d]);
      && Begun(env, db, d, n).1 == t && t in after.traces
      && after.traces[t] == row.(title := TitleOr(row.title, n.title))
  {
    CommitRow(env, db, d, n);
    var u := Begun(env, db, d, n).1;
    UpsertIs(env, db, d);
    OneTrace(db, d, t, UpsertTrace(env, db, d).1);
    assert [d][..0] == [];
    assert RefreshedAll(db.traces[t], []) == db.traces[t];
  }

  lemma OneTrace(db: Db, d: Descriptor, t: Id, u: Id)
    requires Named(db) && IsTrace(db, t, d.harness, d.nativeId) && IsTrace(db, u, d.harness, d.nativeId)
    ensures t == u
  {
    assert SameTrace(db, t, u);
  }

  lemma EmptiedRow(db: Db, t: Id, r: Id, n: Normalization)
    requires Sane(db) && r in db.revisions && db.revisions[r].trace == t
    ensures var after, row := Emptied(db, t, r, n), db.traces[t];
      && after.traces == db.traces[t := row.(title := TitleOr(row.title, n.title), generatedRevision :=
           if row.generatedTitle == [] then 0 else row.generatedRevision)]
      && after.revisions == db.revisions[r := db.revisions[r].(status := n.status, version := n.version)]
  {
  }

  /** A rebuild gives its revision the status and the version of the parse, fills the trace's title
      if it has none, and offers a trace without a generated title for naming again. */
  lemma {:induction false} RebuildRow(env: Env, db: Db, t: Id, r: Id, labels: Text, n: Normalization)
    requires Sound(env) && Valid(env, db) && r in db.revisions && db.revisions[r].trace == t
    ensures var after, row := Rebuild(env, db, t, r, labels, n), db.traces[t];
      && t in after.traces && r in after.revisions
      && after.traces[t] == row.(title := TitleOr(row.title, n.title), generatedRevision :=
           if row.generatedTitle == [] then 0 else row.generatedRevision)
      && after.revisions[r] == db.revisions[r].(status := n.status, version := n.version)
      && (forall u :: u in db.traces && u != t ==> u in after.traces && after.traces[u] == db.traces[u])
      && (forall q :: q in db.revisions && q != r ==> q in after.revisions && after.revisions[q] == db.revisions[q])
  {
    EmptiedReady(env, db, t, r, n);
    EmptiedRow(db, t, r, n);
    InsertEventsKeep(env, Emptied(db, t, r, n), t, r, labels, n.events, {});
  }

  lemma {:induction false} OfferedAgain(env: Env, db: Db, t: Id, r: Id, labels: Text, n: Normalization, q: Id,
      title: Text)
    requires Sound(env) && Valid(env, db) && r in db.revisions && db.revisions[r].trace == t
    requires db.traces[t].generatedTitle == [] && q > 0
    ensures var after := SetGeneratedTitle(Rebuild(env, db, t, r, labels, n), t, q, title);
      t in after.traces && after.traces[t].generatedTitle == title && after.traces[t].generatedRevision == q
  {
    RebuildRow(env, db, t, r, labels, n);
  }

  // ---- The time an event is sorted by

  /** The first of the events with its key. */
  ghost predicate FirstWith(events: seq<Event>, key: Text, i: nat) {
    i < |events| && events[i].key == key && forall j :: 0 <= j < i ==> events[j].key != key
  }

  lemma InsertedTime(env: Env, db: Db, t: Id, r: Id, labels: Text, event: Event, seen: set<Id>, e: Id)
    requires Sound(env) && e in InsertEvent(env, db, t, r, labels, event, seen).0.events && e !in db.events
    ensures var row := InsertEvent(env, db, t, r, labels, event, seen).0.events[e];
      row.key == event.key && row.sortTime == event.body.time && row.trace == t
  {
    var d := InsertEventIs(env, db, t, r, labels, event, seen);
    var (prepared, at, o) := Prepared(env, db, t, event);
    PreparedIs(env, db, t, event);
    FinishedIs(env, prepared, at, Link(o, r), labels, event, o in seen);
    assert prepared.events == InsertEventRow(env, db, t, event.key, event.body.time).0.events;
  }

  ghost predicate TimedBy(db: Db, t: Id, events: seq<Event>, e: Id, i: nat) {
    && e in db.events && db.events[e].trace == t && FirstWith(events, db.events[e].key, i)
    && db.events[e].sortTime == events[i].body.time
  }

  lemma TimeStays(db: Db, after: Db, t: Id, events: seq<Event>, e: Id, i: nat)
    requires Views.EventsStay(db, after) && TimedBy(db, t, events, e, i)
    ensures TimedBy(after, t, events, e, i)
  {
  }

  lemma FirstTime(env: Env, db: Db, t: Id, r: Id, labels: Text, events: seq<Event>, seen: set<Id>, e: Id)
    requires Sound(env) && events != []
    requires e in InsertEvent(env, db, t, r, labels, events[0], seen).0.events && e !in db.events
    ensures TimedBy(InsertEvent(env, db, t, r, labels, events[0], seen).0, t, events, e, 0)
  {
    InsertedTime(env, db, t, r, labels, events[0], seen, e);
  }

  lemma LaterTime(middle: Db, after: Db, t: Id, events: seq<Event>, d: Id, e: Id, j: nat)
    requires events != [] && Consistent(after) && Views.EventsStay(middle, after)
    requires IsEvent(middle, d, t, events[0].key) && e !in middle.events && TimedBy(after, t, events[1..], e, j)
    ensures TimedBy(after, t, events, e, j + 1)
  {
    NotTheFirst(after, d, e, t, events[0].key);
  }

  ghost predicate Ready(db: Db, t: Id, r: Id, seen: set<Id>) {
    && Sane(db) && AllRecorded(db) && SeenBy(db, r, seen)
    && t in db.traces && r in db.revisions && db.revisions[r].trace == t
  }

  lemma {:induction false} MiddleReady(env: Env, db: Db, t: Id, r: Id, labels: Text, event: Event, seen: set<Id>)
      returns (d: Id)
    requires Sound(env) && Ready(db, t, r, seen)
    ensures var (middle, o) := InsertEvent(env, db, t, r, labels, event, seen);
      Ready(middle, t, r, seen + {o}) && IsEvent(middle, d, t, event.key)
  {
    d := InsertEventIs(env, db, t, r, labels, event, seen);
    InsertEventKeeps(env, db, t, r, labels, event, seen);
  }

  lemma {:induction false} AfterReady(env: Env, db: Db, t: Id, r: Id, labels: Text, events: seq<Event>, seen: set<Id>)
    requires Sound(env) && Ready(db, t, r, seen)
    ensures Consistent(InsertEvents(env, db, t, r, labels, events, seen))
    ensures Views.EventsStay(db, InsertEvents(env, db, t, r, labels, events, seen))
  {
    InsertEventsKeep(env, db, t, r, labels, events, seen);
    Views.InsertEventsStay(env, db, t, r, labels, events, seen);
  }

  lemma EitherTime(middle: Db, after: Db, t: Id, events: seq<Event>, d: Id, e: Id, j: nat)
    requires events != [] && Consistent(after) && Views.EventsStay(middle, after) && IsEvent(middle, d, t, events[0].key)
    requires if e in middle.events then TimedBy(middle, t, events, e, 0) else TimedBy(after, t, events[1..], e, j)
    ensures TimedBy(after, t, events, e, if e in middle.events then 0 else j + 1)
  {
    if e in middle.events {
      TimeStays(middle, after, t, events, e, 0);
    } else {
      LaterTime(middle, after, t, events, d, e, j);
    }
  }

  ghost predicate Timed(env: Env, db: Db, t: Id, r: Id, labels: Text, events: seq<Event>, seen: set<Id>, e: Id) {
    e in InsertEvents(env, db, t, r, labels, events, seen).events && e !in db.events ==>
      exists i: nat :: TimedBy(InsertEvents(env, db, t, r, labels, events, seen), t, events, e, i)
  }

  lemma {:induction false} InsertEventsTime(env: Env, db: Db, t: Id, r: Id, labels: Text, events: seq<Event>,
      seen: set<Id>, e: Id)
    requires Sound(env) && Ready(db, t, r, seen)
    ensures Timed(env, db, t, r, labels, events, seen, e)
    decreases |events|
  {
    if events != [] {
      var (middle, o) := InsertEvent(env, db, t, r, labels, events[0], seen);
      var d := MiddleReady(env, db, t, r, labels, events[0], seen);
      InsertEventsTime(env, middle, t, r, labels, events[1..], seen + {o}, e);
      AfterReady(env, middle, t, r, labels, events[1..], seen + {o});
      TimedMore(env, db, t, r, labels, events, seen, d, e);
    }
  }

  lemma {:induction false} TimedMore(env: Env, db: Db, t: Id, r: Id, labels: Text, events: seq<Event>, seen: set<Id>,
      d: Id, e: Id)
    requires Sound(env) && events != []
    requires var (middle, o) := InsertEvent(env, db, t, r, labels, events[0], seen);
      var after := InsertEvents(env, middle, t, r, labels, events[1..], seen + {o});
      && IsEvent(middle, d, t, events[0].key) && Consistent(after) && Views.EventsStay(middle, after)
      && Timed(env, middle, t, r, labels, events[1..], seen + {o}, e)
    ensures Timed(env, db, t, r, labels, events, seen, e)
  {
    var (middle, o) := InsertEvent(env, db, t, r, labels, events[0], seen);
    var after := InsertEvents(env, middle, t, r, labels, events[1..], seen + {o});
    assert after == InsertEvents(env, db, t, r, labels, events, seen);
    if e in after.events && e !in db.events {
      if e in middle.events {
        FirstTime(env, db, t, r, labels, events, seen, e);
        EitherTime(middle, after, t, events, d, e, 0);
      } else {
        var j: nat :| TimedBy(after, t, events[1..], e, j);
        EitherTime(middle, after, t, events, d, e, j);
      }
    }
  }

  lemma NotTheFirst(db: Db, d: Id, e: Id, t: Id, key: Text)
    requires Consistent(db) && IsEvent(db, d, t, key) && e in db.events && e != d && db.events[e].trace == t
    ensures db.events[e].key != key
  {
    assert db.events[e].key == key ==> SameEvent(db, d, e);
  }

  /** An event is sorted by the time of the first of its key in the import that brought it, and keeps
      that time. */
  lemma {:induction false} SortTimeIsFirst(env: Env, db: Db, d: Descriptor, n: Normalization, e: Id) returns (i: nat)
    requires Sound(env) && Valid(env, db) && !Imported(db, d) && e in CommitRevision(env, db, d, n).events
    ensures var after := CommitRevision(env, db, d, n);
      if e in db.events then after.events[e].sortTime == db.events[e].sortTime
      else FirstWith(n.events, after.events[e].key, i) && after.events[e].sortTime == n.events[i].body.time
  {
    var (begun, t, r, labels) := Begun(env, db, d, n);
    BegunReady(env, db, d, n);
    if e in db.events {
      Views.InsertEventsStay(env, begun, t, r, labels, n.events, {});
      i := 0;
    } else {
      InsertEventsTime(env, begun, t, r, labels, n.events, {}, e);
      i :| TimedBy(InsertEvents(env, begun, t, r, labels, n.events, {}), t, n.events, e, i);
    }
  }

  // ---- The observation an event prefers

  /** A later revision comes first; then the later time, the more attachments that are kept, and at
      last the digest. */
  ghost predicate NotBetter(env: Env, db: Db, k: Link, best: Link)
    requires Keyed(db, k) && Keyed(db, best)
  {
    var a, b := db.revisions[k.revision].nativeUpdatedAt, db.revisions[best.revision].nativeUpdatedAt;
    var x, y := db.observations[k.observation].body, db.observations[best.observation].body;
    a <= b && (a == b ==> x.time <= y.time && (x.time == y.time ==>
      x.archivedAttachments <= y.archivedAttachments && (x.archivedAttachments == y.archivedAttachments ==>
        env.digest(x) <= env.digest(y))))
  }

  /** In every archive a run can reach, the preferred observation of an event is recorded of it, and no
      recording of the event is better. */
  lemma {:induction false} PreferredIsBest(env: Env, turns: seq<Turn>, e: Id) returns (best: Link)
    requires AllSound(env, turns) && e in Run(EMPTY, turns).events
    ensures var db := Run(EMPTY, turns);
      && Of(db, best, e) && db.events[e].preferred == Some(best.observation)
      && forall k :: Of(db, k, e) ==> NotBetter(env, db, k, best)
  {
    EmptyIsValid(env);
    RunKeeps(env, EMPTY, turns);
    best := SettledIsBest(env, Run(EMPTY, turns), e);
  }

  lemma SettledIsBest(env: Env, db: Db, e: Id) returns (best: Link)
    requires e in db.events && Settled(env, db, e)
    ensures Of(db, best, e) && db.events[e].preferred == Some(best.observation)
    ensures forall k :: Of(db, k, e) ==> NotBetter(env, db, k, best)
  {
    best :| Highest(env, db, e, best) && db.events[e].preferred == Some(best.observation);
    forall k | Of(db, k, e)
      ensures NotBetter(env, db, k, best)
    {
      assert !Less(RankOf(env, db, best), RankOf(env, db, k));
    }
  }
}
