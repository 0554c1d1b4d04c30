/** The store as an object whose tables its transactions update row by row: each does exactly what
    its step of ArchiveSteps says. */
module Store {
  import opened Utf8
  import A = Archive
  import Steps = ArchiveSteps
  import Runs = ArchiveRuns
  import Chunking

  type Id = A.Id

  class Store {
    const env: A.Env
    var traces: map<Id, A.Trace>
    var revisions: map<Id, A.Revision>
    var events: map<Id, A.EventRow>
    var observations: map<Id, A.ObservationRow>
    var recordings: map<A.Link, A.Recording>

    constructor (env: A.Env)
      ensures this.env == env && Tables() == A.EMPTY
    {
      this.env := env;
      traces, revisions, events, observations, recordings := map[], map[], map[], map[], map[];
    }

    function Tables(): A.Db
      reads this
    {
      A.Db(traces, revisions, events, observations, recordings)
    }

    /** INSERT OR IGNORE INTO events, and the id of the row. */
    method InsertEventRow(trace: Id, key: A.Text, time: int) returns (e: Id)
      requires A.Consistent(Tables())
      modifies this`events
      ensures (Tables(), e) == A.InsertEventRow(env, old(Tables()), trace, key, time)
    {
      if found :| found in events && events[found].trace == trace && events[found].key == key {
        EventIs(env, Tables(), found, trace, key, time);
        return found;
      }
      assert forall d :: !A.IsEvent(Tables(), d, trace, key);
      e := env.nextEvent(events.Keys);
      events := events[e := A.EventRow(trace, key, time, None)];
    }

    method InsertObservation(event: Id, body: A.Body) returns (o: Id)
      requires A.Consistent(Tables())
      modifies this`observations
      ensures (Tables(), o) == A.InsertObservation(env, old(Tables()), event, body)
    {
      if found :| found in observations && observations[found] == A.ObservationRow(event, body) {
        ObservationIs(env, Tables(), found, event, body);
        return found;
      }
      assert forall d :: !A.IsObservation(Tables(), d, event, body);
      o := env.next(observations.Keys);
      observations := observations[o := A.ObservationRow(event, body)];
    }

    /** The chunk rows of a text, from its bytes. */
    method ChunkRows(event: Id, text: A.Text) returns (rows: seq<A.Chunk>)
      ensures rows == A.ChunkRows(event, text)
    {
      Chunking.EncodedShortRuns(text);
      var chunks := Chunking.Chunks(Encode(text));
      rows := seq(|chunks|, k requires 0 <= k < |chunks| => A.Chunk(event, chunks[k]));
    }

    /** INSERT OR IGNORE INTO observation_revisions, then its source and chunk rows. */
    method Record(k: A.Link, text: A.Text, refs: seq<A.Text>, event: Id, repeated: bool)
      modifies this`recordings
      ensures Tables() == A.Record(old(Tables()), k, text, refs, A.ChunkRows(event, text), repeated)
    {
      ghost var was := recordings;
      if k !in recordings {
        recordings := recordings[k := A.Recording(text, [], [])];
      }
      var row := recordings[k];
      recordings := recordings[k := row.(sources := row.sources + refs)];
      assert recordings == was[k := row.(sources := row.sources + refs)];
      if !repeated {
        var rows := ChunkRows(event, text);
        recordings := recordings[k := recordings[k].(chunks := recordings[k].chunks + rows)];
      }
    }

    /** The subquery that picks an event's preferred observation. */
    method PreferredOf(event: Id) returns (preferred: Option<Id>)
      requires A.Sound(env) && A.Consistent(Tables())
      ensures preferred == A.Preferred(env, Tables(), event)
    {
      var db := Tables();
      if best :| best in recordings && SortsFirst(env, db, event, best) {
        HighestIsPreferred(env, db, event, best);
        return Some(best.observation);
      }
      NoneHighest(env, db, event);
      return None;
    }

    /** UPDATE events SET preferred_observation_id=(...) WHERE id=event. */
    method SetPreferred(event: Id)
      requires A.Sound(env) && A.Consistent(Tables())
      modifies this`events
      ensures Tables() == A.SetPreferred(env, old(Tables()), event)
    {
      if event in events {
        var preferred := PreferredOf(event);
        events := events[event := events[event].(preferred := preferred)];
      }
    }

    // ---- insertEvents

    /** The event and observation rows of an event. */
    method Prepare(trace: Id, event: A.Event) returns (e: Id, o: Id)
      requires A.Sound(env) && A.Sane(Tables()) && trace in traces
      modifies this`events, this`observations
      ensures (Tables(), e, o) == A.Prepared(env, old(Tables()), trace, event)
    {
      A.EventRowKeeps(env, Tables(), trace, event.key, event.body.time);
      e := InsertEventRow(trace, event.key, event.body.time);
      o := InsertObservation(e, event.body);
    }

    /** Its recording, and its preferred observation when it is new to the loop. */
    method Finish(e: Id, k: A.Link, labels: A.Text, event: A.Event, repeated: bool)
      requires A.Sound(env) && A.Consistent(Tables())
      modifies this`events, this`recordings
      ensures Tables() == A.Finished(env, old(Tables()), e, k, labels, event, repeated)
    {
      var text := A.SearchableText(event.body, event.sources) + [A.NEW_LINE] + labels;
      ghost var was := Tables();
      Record(k, text, event.sources, e, repeated);
      FinishedIs(env, was, e, k, labels, event, repeated, Tables());
      ConsistentStill(was, Tables());
      if !repeated {
        SetPreferred(e);
      }
    }

    method InsertEvent(trace: Id, revision: Id, labels: A.Text, event: A.Event, seen: set<Id>) returns (o: Id)
      requires A.Sound(env) && A.Sane(Tables()) && trace in traces
      modifies this`events, this`observations, this`recordings
      ensures (Tables(), o) == A.InsertEvent(env, old(Tables()), trace, revision, labels, event, seen)
    {
      A.PreparedSane(env, Tables(), trace, event);
      var e;
      e, o := Prepare(trace, event);
      Finish(e, A.Link(o, revision), labels, event, o in seen);
    }

    /** The loop over a revision's events. */
    method InsertEvents(trace: Id, revision: Id, labels: A.Text, list: seq<A.Event>)
      requires A.Sound(env) && A.Sane(Tables()) && A.AllRecorded(Tables()) && A.SeenBy(Tables(), revision, {})
      requires trace in traces && revision in revisions && revisions[revision].trace == trace
      modifies this`events, this`observations, this`recordings
      ensures Tables() == A.InsertEvents(env, old(Tables()), trace, revision, labels, list, {})
    {
      ghost var start := Tables();
      var seen: set<Id> := {};
      var i := 0;
      assert list[0..] == list;
      while i < |list|
        invariant 0 <= i <= |list| && A.Sane(Tables()) && A.AllRecorded(Tables()) && A.SeenBy(Tables(), revision, seen)
        invariant A.InsertEvents(env, Tables(), trace, revision, labels, list[i..], seen) ==
          A.InsertEvents(env, start, trace, revision, labels, list, {})
      {
        ghost var was := Tables();
        A.InsertEventKeeps(env, was, trace, revision, labels, list[i], seen);
        var o := InsertEvent(trace, revision, labels, list[i], seen);
        InsertFirst(env, was, trace, revision, labels, list[i..], seen);
        assert list[i..][1..] == list[i + 1..];
        seen := seen + {o};
        i := i + 1;
      }
    }

    // ---- commitRevision

    /** The trace's row, made or refreshed. */
    method UpsertTrace(d: Steps.Descriptor) returns (t: Id)
      requires A.Named(Tables())
      modifies this`traces
      ensures (Tables(), t) == Steps.UpsertTrace(env, old(Tables()), d)
    {
      if found :| found in traces && traces[found].harness == d.harness && traces[found].nativeId == d.nativeId {
        TraceIs(env, Tables(), found, d);
        traces := traces[found := Steps.Refreshed(traces[found], d)];
        return found;
      }
      assert forall u :: !Steps.IsTrace(Tables(), u, d.harness, d.nativeId);
      t := env.next(traces.Keys);
      traces := traces[t := A.Trace(d.harness, d.nativeId, d.title, [], [], 0, d.workingDirectory, d.remote, d.root,
        d.remote != [] || d.root != [], d.Time())];
    }

    method CommitRevision(d: Steps.Descriptor, n: Steps.Normalization) returns (t: Id)
      requires A.Sound(env) && A.Valid(env, Tables()) && !Steps.Imported(Tables(), d)
      modifies this
      ensures Tables() == Steps.CommitRevision(env, old(Tables()), d, n) && A.Valid(env, Tables())
      ensures t == Steps.UpsertTrace(env, old(Tables()), d).1
    {
      ghost var was := Tables();
      Steps.BegunReady(env, was, d, n);
      Steps.BegunIs(env, was, d, n);
      t := UpsertTrace(d);
      var r := env.next(revisions.Keys);
      revisions := revisions[r := A.Revision(t, d.revision, d.Time(), n.status, n.version)];
      assert (Tables(), t, r, Steps.DescribedLabels(traces[t], d)) == Steps.Begun(env, was, d, n);
      InsertEvents(t, r, Steps.DescribedLabels(traces[t], d), n.events);
      if t in traces && traces[t].title == [] && n.title != [] {
        traces := traces[t := traces[t].(title := n.title)];
      }
      Steps.CommitKeeps(env, was, d, n);
    }

    // ---- replaceRevisionEvents

    /** DELETE FROM event_observations of the trace that no revision records any more. */
    method DropOrphans(t: Id)
      modifies this`observations
      ensures Tables() == Steps.WithoutOrphans(old(Tables()), t)
    {
      RecordedIs(Tables());
      observations := map o | o in observations && !(Steps.Within(Tables(), o, t) && !HasRecording(Tables(), o)) ::
        observations[o];
    }

    /** What a revision recorded is deleted, and observations nothing records any more. */
    method Empty(t: Id, r: Id, n: Steps.Normalization)
      requires t in traces && r in revisions
      modifies this
      ensures Tables() == Steps.Emptied(old(Tables()), t, r, n)
    {
      var row := traces[t];
      traces := traces[t := row.(
        generatedRevision := if row.generatedTitle == [] then 0 else row.generatedRevision,
        title := if row.title == [] then n.title else row.title)];
      assert Tables() == Steps.Retitled(old(Tables()), t, n.title);
      recordings := map k | k in recordings && k.revision != r :: recordings[k];
      assert Tables() == Steps.Unrecorded(Steps.Retitled(old(Tables()), t, n.title), r);
      DropOrphans(t);
      revisions := revisions[r := revisions[r].(status := n.status, version := n.version)];
    }

    method SettleOne(t: Id, e: Id)
      requires A.Sound(env) && A.Consistent(Tables()) && e in events
      modifies this`events
      ensures Tables() == old(Tables()).(events := old(events)[e :=
        if old(events)[e].trace == t then old(events)[e].(preferred := A.Preferred(env, old(Tables()), e)) else old(events)[e]])
    {
      if events[e].trace == t {
        var preferred := PreferredOf(e);
        events := events[e := events[e].(preferred := preferred)];
      } else {
        assert events[e := events[e]] == events;
      }
    }

    /** UPDATE events SET preferred_observation_id=(...) WHERE trace_id=t. */
    method Resettle(t: Id)
      requires A.Sound(env) && A.Consistent(Tables())
      modifies this`events
      ensures Tables() == Steps.Resettled(env, old(Tables()), t)
    {
      ghost var was := Tables();
      var left := events.Keys;
      while left != {}
        invariant left <= events.Keys && SettlingIs(env, was, Tables(), t, left)
        decreases left
      {
        var e :| e in left;
        SettlingMore(env, was, Tables(), t, left, e);
        SettleOne(t, e);
        left := left - {e};
      }
      SettlingEnds(env, was, Tables(), t);
    }

    /** DELETE FROM events of the trace that have no observation. */
    method Prune(t: Id)
      modifies this`events
      ensures Tables() == Steps.Pruned(old(Tables()), t)
    {
      events := map e | e in events && (events[e].trace != t || HasObservation(Tables(), e)) :: events[e];
    }

    method Refill(t: Id, r: Id, labels: A.Text, list: seq<A.Event>)
      requires A.Sound(env) && A.Sane(Tables()) && A.AllRecorded(Tables()) && A.SeenBy(Tables(), r, {})
      requires t in traces && r in revisions && revisions[r].trace == t
      modifies this`events, this`observations, this`recordings
      ensures Tables() == Steps.Pruned(Steps.Resettled(env, A.InsertEvents(env, old(Tables()), t, r, labels, list, {}), t), t)
    {
      A.InsertEventsKeep(env, Tables(), t, r, labels, list, {});
      InsertEvents(t, r, labels, list);
      Resettle(t);
      Prune(t);
    }

    method ReplaceRevisionEvents(t: Id, r: Id, labels: A.Text, n: Steps.Normalization)
      requires A.Sound(env) && A.Valid(env, Tables()) && r in revisions && revisions[r].trace == t
      modifies this
      ensures Tables() == Steps.Rebuild(env, old(Tables()), t, r, labels, n)
    {
      EmptiedIsReady(env, Tables(), t, r, n);
      Empty(t, r, n);
      Refill(t, r, labels, n.events);
    }

    // ---- reindexTraceSearch and DeleteTrace

    /** reindexRevisionSearch, row by row: a recording's text and chunks are replaced, its sources stay. */
    method Rewrite(texts: map<A.Link, A.Text>)
      modifies this`recordings
      ensures Tables() == Steps.Rewrite(old(Tables()), texts)
    {
      ghost var was := Tables();
      var left := recordings.Keys;
      RewritingStarts(was, texts);
      while left != {}
        invariant left <= recordings.Keys && RewritingIs(was, Tables(), texts, left)
        decreases left
      {
        var k :| k in left;
        RewritingMore(was, Tables(), texts, left, k);
        if k in texts && k.observation in observations {
          var rows := ChunkRows(observations[k.observation].event, texts[k]);
          recordings := recordings[k := A.Recording(texts[k], recordings[k].sources, rows)];
        } else {
          assert recordings[k := recordings[k]] == recordings;
        }
        left := left - {k};
      }
      RewritingEnds(was, Tables(), texts);
    }

    /** reindexTraceSearch: every text of the trace anew, from what is stored. */
    method ReindexTrace(t: Id)
      modifies this`recordings
      ensures Tables() == Runs.Reindex(old(Tables()), t)
    {
      var texts := map k | k in recordings && A.Keyed(Tables(), k) && revisions[k.revision].trace == t && t in traces ::
        A.SearchableText(observations[k.observation].body, recordings[k].sources) + [A.NEW_LINE] + A.Labels(traces[t]);
      assert texts == Runs.ReindexedTexts(Tables(), t);
      Rewrite(texts);
    }

    method SetTitleOverride(t: Id, title: A.Text)
      modifies this`traces, this`recordings
      ensures Tables() == Runs.SetTitleOverride(old(Tables()), t, title)
    {
      if t in traces {
        traces := traces[t := traces[t].(titleOverride := title)];
        ReindexTrace(t);
      }
    }

    // ---- importTrace

    /** backfillMissingTraceMetadata. */
    method Backfill(t: Id, r: Id, d: Steps.Descriptor)
      modifies this`traces, this`recordings
      ensures Tables() == Runs.Backfill(old(Tables()), t, r, d)
    {
      if t !in traces {
        return;
      }
      var added := Runs.BackfilledText(traces[t], d);
      if added != [] {
        traces := traces[t := Runs.Backfilled(traces[t], d)];
        Rewrite(map k | k in recordings && k.revision == r :: recordings[k].text + [A.NEW_LINE] + A.Join(added));
      }
    }

    method Reimport(t: Id, r: Id, d: Steps.Descriptor, n: Steps.Normalization)
      requires A.Sound(env) && A.Valid(env, Tables()) && Steps.IsRevision(Tables(), t, r, d)
      modifies this
      ensures Tables() == Runs.Reimport(env, old(Tables()), t, r, d, n)
    {
      Runs.BackfillKeeps(env, Tables(), t, r, d);
      Runs.BackfillIs(Tables(), t, r, d);
      var status := revisions[r].status;
      Backfill(t, r, d);
      if status != A.Normalized && !Runs.Unusable(n) && t in traces {
        ReplaceRevisionEvents(t, r, Steps.DescribedLabels(traces[t], d), n);
      }
    }

    /** importTrace: a revision already there is filled in and parsed again, a new one committed. */
    method ImportTrace(d: Steps.Descriptor, n: Steps.Normalization)
      requires A.Sound(env) && A.Valid(env, Tables())
      modifies this
      ensures Tables() == Runs.ImportTrace(env, old(Tables()), d, n) && A.Valid(env, Tables())
    {
      Runs.ImportKeeps(env, Tables(), d, n);
      if r :| r in revisions && HasRevision(Tables(), r, d) {
        RevisionIs(env, Tables(), revisions[r].trace, r, d, n);
        Reimport(revisions[r].trace, r, d, n);
      } else {
        NoRevision(env, Tables(), d, n);
        var t := CommitRevision(d, n);
      }
    }

    /** DELETE FROM traces, and the rows that cascade from it. */
    method Cascade(t: Id)
      modifies this
      ensures Tables() == Steps.DeleteTrace(old(Tables()), t)
    {
      traces := traces - {t};
      revisions := map r | r in revisions && revisions[r].trace != t :: revisions[r];
      events := map e | e in events && events[e].trace != t :: events[e];
      observations := map o | o in observations && observations[o].event in events :: observations[o];
      recordings := map k | k in recordings && k.revision in revisions && k.observation in observations ::
        recordings[k];
    }

    /** Nothing of the trace stays, nothing of another changes, and a trace that is not there is
        reported. */
    method DeleteTrace(t: Id) returns (found: bool)
      requires A.Valid(env, Tables())
      modifies this
      ensures found <==> t in old(Tables()).traces
      ensures A.Valid(env, Tables()) && Steps.OnlyGone(old(Tables()), Tables(), t)
      ensures if found then Steps.Forgets(old(Tables()), Tables(), t) else Tables() == old(Tables())
      ensures Tables() == Steps.DeleteTrace(old(Tables()), t)
    {
      DeletedIs(env, Tables(), t);
      found := t in traces;
      Cascade(t);
    }
  }

  lemma DeletedIs(env: A.Env, db: A.Db, t: Id)
    requires A.Valid(env, db)
    ensures var after := Steps.DeleteTrace(db, t);
      && A.Valid(env, after) && Steps.OnlyGone(db, after, t)
      && (if t in db.traces then Steps.Forgets(db, after, t) else after == db)
  {
    Steps.DeleteKeeps(env, db, t);
    Steps.DeleteIsOnly(db, t);
    if t in db.traces {
      Steps.DeleteForgets(db, t);
    } else {
      Steps.DeleteNothing(db, t);
    }
  }

  lemma FinishedIs(env: A.Env, db: A.Db, e: Id, k: A.Link, labels: A.Text, event: A.Event, repeated: bool,
      recorded: A.Db)
    requires var text := A.SearchableText(event.body, event.sources) + [A.NEW_LINE] + labels;
      recorded == A.Record(db, k, text, event.sources, A.ChunkRows(e, text), repeated)
    ensures A.Finished(env, db, e, k, labels, event, repeated) ==
      if repeated then recorded else A.SetPreferred(env, recorded, e)
  {
  }

  lemma EmptiedIsReady(env: A.Env, db: A.Db, t: Id, r: Id, n: Steps.Normalization)
    requires A.Valid(env, db) && r in db.revisions && db.revisions[r].trace == t
    ensures t in db.traces
    ensures var after := Steps.Emptied(db, t, r, n);
      && A.Sane(after) && A.AllRecorded(after) && A.SeenBy(after, r, {})
      && t in after.traces && r in after.revisions && after.revisions[r].trace == t
  {
    Steps.EmptiedReady(env, db, t, r, n);
    Steps.EmptiedRows(db, t, r, n);
  }

  /** Rows that are no longer left are rewritten. */
  ghost predicate RewritingIs(was: A.Db, now: A.Db, texts: map<A.Link, A.Text>, left: set<A.Link>) {
    && now == was.(recordings := now.recordings) && now.recordings.Keys == was.recordings.Keys
    && (forall k :: k in now.recordings && k in left ==> now.recordings[k] == was.recordings[k])
    && (forall k :: k in now.recordings && k !in left ==> now.recordings[k] == Steps.Rewritten(was, texts, k))
  }

  lemma RewritingStarts(was: A.Db, texts: map<A.Link, A.Text>)
    ensures RewritingIs(was, was, texts, was.recordings.Keys)
  {
  }

  lemma RewritingMore(was: A.Db, now: A.Db, texts: map<A.Link, A.Text>, left: set<A.Link>, k: A.Link)
    requires RewritingIs(was, now, texts, left) && k in left && k in now.recordings
    ensures RewritingIs(was, now.(recordings := now.recordings[k := Steps.Rewritten(was, texts, k)]), texts, left - {k})
  {
  }

  lemma RewritingEnds(was: A.Db, now: A.Db, texts: map<A.Link, A.Text>)
    requires RewritingIs(was, now, texts, {})
    ensures now == Steps.Rewrite(was, texts)
  {
    assert now.recordings == Steps.Rewrite(was, texts).recordings;
  }

  predicate HasRevision(db: A.Db, r: Id, d: Steps.Descriptor) {
    && r in db.revisions && db.revisions[r].digest == d.revision && db.revisions[r].trace in db.traces
    && var row := db.traces[db.revisions[r].trace]; row.harness == d.harness && row.nativeId == d.nativeId
  }

  lemma OneRevision(db: A.Db, t: Id, r: Id, u: Id, q: Id, d: Steps.Descriptor)
    requires A.Named(db) && Steps.IsRevision(db, t, r, d) && Steps.IsRevision(db, u, q, d)
    ensures u == t && q == r
  {
    assert A.SameTrace(db, u, t);
    assert A.SameRevision(db, q, r);
  }

  lemma RevisionIs(env: A.Env, db: A.Db, t: Id, r: Id, d: Steps.Descriptor, n: Steps.Normalization)
    requires A.Named(db) && HasRevision(db, r, d) && t == db.revisions[r].trace
    ensures Steps.IsRevision(db, t, r, d) && Runs.ImportTrace(env, db, d, n) == Runs.Reimport(env, db, t, r, d, n)
  {
    assert Steps.IsRevision(db, t, r, d);
    var u, q := Runs.ImportWhich(env, db, d, n);
    OneRevision(db, t, r, u, q, d);
  }

  lemma NoRevision(env: A.Env, db: A.Db, d: Steps.Descriptor, n: Steps.Normalization)
    requires forall r :: r in db.revisions ==> !HasRevision(db, r, d)
    ensures !Steps.Imported(db, d) && Runs.ImportTrace(env, db, d, n) == Steps.CommitRevision(env, db, d, n)
  {
    forall t, r
      ensures !Steps.IsRevision(db, t, r, d)
    {
      assert r in db.revisions ==> !HasRevision(db, r, d);
    }
  }

  predicate HasRecording(db: A.Db, o: Id) {
    exists k :: k in db.recordings && k.observation == o
  }

  lemma RecordedIs(db: A.Db)
    ensures forall o: Id :: A.Recorded(db, o) <==> HasRecording(db, o)
  {
    forall o: Id
      ensures A.Recorded(db, o) <==> HasRecording(db, o)
    {
      if k :| k in db.recordings && k.observation == o {
        assert A.Link(o, k.revision) in db.recordings;
      }
    }
  }

  predicate HasObservation(db: A.Db, e: Id) {
    exists o :: o in db.observations && db.observations[o].event == e
  }

  /** Events of the trace that are no longer left have the preferred observation of before. */
  ghost predicate SettlingIs(env: A.Env, was: A.Db, now: A.Db, t: Id, left: set<Id>) {
    && now == was.(events := now.events) && now.events.Keys == was.events.Keys && A.Consistent(now)
    && (forall e :: e in now.events && e in left ==> now.events[e] == was.events[e])
    && (forall e :: e in now.events && e !in left ==> now.events[e] == Steps.Resettled(env, was, t).events[e])
  }

  lemma PreferredSame(env: A.Env, db: A.Db, after: A.Db, event: Id)
    requires A.Sound(env) && A.Consistent(db) && A.Consistent(after) && after == db.(events := after.events)
    ensures A.Preferred(env, db, event) == A.Preferred(env, after, event)
  {
    forall best: A.Link
      ensures A.Highest(env, db, event, best) <==> A.Highest(env, after, event, best)
    {
      SameHighest(env, db, after, event, best);
    }
    if best :| A.Highest(env, db, event, best) {
      HighestIsPreferred(env, db, event, best);
      HighestIsPreferred(env, after, event, best);
    }
  }

  lemma SameHighest(env: A.Env, db: A.Db, after: A.Db, event: Id, best: A.Link)
    requires after == db.(events := after.events)
    ensures A.Highest(env, db, event, best) <==> A.Highest(env, after, event, best)
  {
    assert forall k :: A.Of(db, k, event) <==> A.Of(after, k, event);
    assert forall k :: A.Of(db, k, event) ==> A.RankOf(env, db, k) == A.RankOf(env, after, k);
  }

  lemma SettlingMore(env: A.Env, was: A.Db, now: A.Db, t: Id, left: set<Id>, e: Id)
    requires A.Sound(env) && A.Consistent(was) && SettlingIs(env, was, now, t, left) && e in left && e in now.events
    ensures var row := if now.events[e].trace == t then now.events[e].(preferred := A.Preferred(env, now, e)) else now.events[e];
      SettlingIs(env, was, now.(events := now.events[e := row]), t, left - {e})
  {
    PreferredSame(env, was, now, e);
    PreferredConsistent(now, e, if now.events[e].trace == t then A.Preferred(env, now, e) else now.events[e].preferred);
  }

  lemma PreferredConsistent(db: A.Db, e: Id, preferred: Option<Id>)
    requires A.Consistent(db) && e in db.events
    ensures A.Consistent(db.(events := db.events[e := db.events[e].(preferred := preferred)]))
  {
    var after := db.(events := db.events[e := db.events[e].(preferred := preferred)]);
    assert forall a, b :: a in db.events && b in db.events ==> (A.SameEvent(after, a, b) <==> A.SameEvent(db, a, b));
    assert forall a, b :: a in db.observations && b in db.observations ==>
      (A.SameObservation(after, a, b) <==> A.SameObservation(db, a, b));
  }

  lemma SettlingEnds(env: A.Env, was: A.Db, now: A.Db, t: Id)
    requires SettlingIs(env, was, now, t, {})
    ensures now == Steps.Resettled(env, was, t)
  {
    assert now.events == Steps.Resettled(env, was, t).events;
  }

  lemma ConsistentStill(db: A.Db, after: A.Db)
    requires A.Consistent(db) && after == db.(recordings := after.recordings)
    ensures A.Consistent(after)
  {
    assert forall a, b :: a in db.events && b in db.events ==> (A.SameEvent(after, a, b) <==> A.SameEvent(db, a, b));
    assert forall a, b :: a in db.observations && b in db.observations ==>
      (A.SameObservation(after, a, b) <==> A.SameObservation(db, a, b));
  }

  /** ORDER BY ... DESC LIMIT 1. */
  predicate SortsFirst(env: A.Env, db: A.Db, event: Id, best: A.Link) {
    && A.Of(db, best, event)
    && forall k :: k in db.recordings && A.Of(db, k, event) ==> !A.Less(A.RankOf(env, db, best), A.RankOf(env, db, k))
  }

  lemma {:induction false} InsertFirst(env: A.Env, db: A.Db, trace: Id, revision: Id, labels: A.Text,
      list: seq<A.Event>, seen: set<Id>)
    requires list != []
    ensures var (after, o) := A.InsertEvent(env, db, trace, revision, labels, list[0], seen);
      A.InsertEvents(env, db, trace, revision, labels, list, seen) ==
      A.InsertEvents(env, after, trace, revision, labels, list[1..], seen + {o})
  {
  }

  /** The row that sorts first is the same observation whichever of equals is taken. */
  lemma HighestIsPreferred(env: A.Env, db: A.Db, event: Id, best: A.Link)
    requires A.Sound(env) && A.Consistent(db) && A.Highest(env, db, event, best)
    ensures A.Preferred(env, db, event) == Some(best.observation)
  {
    forall other | A.Highest(env, db, event, other)
      ensures other.observation == best.observation
    {
      SameRank(A.RankOf(env, db, best), A.RankOf(env, db, other));
      assert A.SameObservation(db, best.observation, other.observation);
    }
  }

  lemma SameRank(a: A.Rank, b: A.Rank)
    requires !A.Less(a, b) && !A.Less(b, a)
    ensures a == b
  {
  }

  lemma NoneHighest(env: A.Env, db: A.Db, event: Id)
    requires forall best :: best in db.recordings ==> !SortsFirst(env, db, event, best)
    ensures A.Preferred(env, db, event) == None
  {
  }

  lemma TraceIs(env: A.Env, db: A.Db, t: Id, d: Steps.Descriptor)
    requires A.Named(db) && Steps.IsTrace(db, t, d.harness, d.nativeId)
    ensures Steps.UpsertTrace(env, db, d) == (db.(traces := db.traces[t := Steps.Refreshed(db.traces[t], d)]), t)
  {
    forall u | Steps.IsTrace(db, u, d.harness, d.nativeId)
      ensures u == t
    {
      assert A.SameTrace(db, u, t);
    }
  }

  lemma EventIs(env: A.Env, db: A.Db, e: Id, trace: Id, key: A.Text, time: int)
    requires A.Consistent(db) && A.IsEvent(db, e, trace, key)
    ensures A.InsertEventRow(env, db, trace, key, time) == (db, e)
  {
    forall d | A.IsEvent(db, d, trace, key)
      ensures d == e
    {
      assert A.SameEvent(db, d, e);
    }
  }

  lemma ObservationIs(env: A.Env, db: A.Db, o: Id, event: Id, body: A.Body)
    requires A.Consistent(db) && A.IsObservation(db, o, event, body)
    ensures A.InsertObservation(env, db, event, body) == (db, o)
  {
    forall p | A.IsObservation(db, p, event, body)
      ensures p == o
    {
      assert A.SameObservation(db, p, o);
    }
  }
}
