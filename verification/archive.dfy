/** The archive's tables as maps, and what each statement sequence of internal/store does to them.
    Rows of observation_sources and search_chunks are kept with the observation_revisions row they
    reference, in insertion order: deleting that row deletes them. */
module Archive {
  import opened Utf8
  import T = TextChunks

  type Id = nat
  type Text = seq<Rune>

  const NEW_LINE: Rune := 10

  datatype Trace = Trace(
    harness: Text, nativeId: Text, title: Text, titleOverride: Text, generatedTitle: Text,
    generatedRevision: Id, workingDirectory: Text, remote: Text, root: Text, hasRepository: bool,
    updatedAt: int)

  datatype Status = Normalized | PartiallyParsed | Unsupported | Failed

  datatype Revision = Revision(trace: Id, digest: int, nativeUpdatedAt: int, status: Status, version: nat)

  /** sortTime is the time of the event as first inserted. */
  datatype EventRow = EventRow(trace: Id, key: Text, sortTime: int, preferred: Option<Id>)

  /** What an observation stores of an event; fields are the texts searchableText joins. */
  datatype Body = Body(time: int, archivedAttachments: nat, fields: seq<Text>)

  datatype ObservationRow = ObservationRow(event: Id, body: Body)

  datatype Chunk = Chunk(event: Id, content: seq<Byte>)

  /** A normalized event: its key, its content, and the source paths it was read from. */
  datatype Event = Event(key: Text, body: Body, sources: seq<Text>)

  /** A row of observation_revisions, with its source references and its search chunks. */
  datatype Recording = Recording(text: Text, sources: seq<Text>, chunks: seq<Chunk>)

  datatype Link = Link(observation: Id, revision: Id)

  datatype Db = Db(
    traces: map<Id, Trace>,
    revisions: map<Id, Revision>,
    events: map<Id, EventRow>,
    observations: map<Id, ObservationRow>,
    recordings: map<Link, Recording>)

  const EMPTY := Db(map[], map[], map[], map[], map[])

  /** The row id SQLite gives a new row, the one it gives a new event (AUTOINCREMENT, from 1), and
      SHA-256 of an observation. Only that ids are unused and digests differ is relied on, so ids of
      deleted rows may come back. */
  datatype Env = Env(next: set<Id> -> Id, nextEvent: set<Id> -> Id, digest: Body -> int)

  ghost predicate Sound(env: Env) {
    && (forall used: set<Id> :: env.next(used) !in used)
    && (forall used: set<Id> :: env.nextEvent(used) !in used && env.nextEvent(used) > 0)
    && (forall a: Body, b: Body :: env.digest(a) == env.digest(b) ==> a == b)
  }

  // ---- Search text

  function Join(parts: seq<Text>): Text {
    if parts == [] then [] else if |parts| == 1 then parts[0] else parts[0] + [NEW_LINE] + Join(parts[1..])
  }

  function SearchableText(body: Body, sources: seq<Text>): Text {
    Join(body.fields + sources)
  }

  function Titles(title: Text): seq<Text> {
    if title == [] then [] else [title]
  }

  /** searchLabels. */
  function Labels(t: Trace): Text {
    Join([t.harness, t.title, t.workingDirectory, t.remote, t.root] + Titles(t.titleOverride) + Titles(t.generatedTitle))
  }

  ghost function ChunkRows(event: Id, text: Text): (rows: seq<Chunk>)
    ensures |rows| == |T.Chunks(text)|
    ensures forall k :: 0 <= k < |rows| ==> rows[k] == Chunk(event, T.Chunks(text)[k])
  {
    var chunks := T.Chunks(text);
    seq(|chunks|, k requires 0 <= k < |chunks| => Chunk(event, chunks[k]))
  }

  // ---- The preferred observation

  datatype Rank = Rank(revised: int, time: int, archived: nat, digest: int)

  /** ORDER BY r.native_updated_at, o.event_time, archived attachments, o.digest. */
  predicate Less(a: Rank, b: Rank) {
    a.revised < b.revised || (a.revised == b.revised && (
    a.time < b.time || (a.time == b.time && (
    a.archived < b.archived || (a.archived == b.archived && a.digest < b.digest)))))
  }

  function BodyRank(env: Env, revised: int, body: Body): Rank {
    Rank(revised, body.time, body.archivedAttachments, env.digest(body))
  }

  predicate Keyed(db: Db, k: Link) {
    k.observation in db.observations && k.revision in db.revisions
  }

  function RankOf(env: Env, db: Db, k: Link): Rank
    requires Keyed(db, k)
  {
    BodyRank(env, db.revisions[k.revision].nativeUpdatedAt, db.observations[k.observation].body)
  }

  predicate Of(db: Db, k: Link, event: Id) {
    k in db.recordings && Keyed(db, k) && db.observations[k.observation].event == event
  }

  /** The row the ORDER BY ... DESC LIMIT 1 picks, over every revision that recorded the event. */
  ghost predicate Highest(env: Env, db: Db, event: Id, best: Link) {
    && Of(db, best, event)
    && forall k :: Of(db, k, event) ==> !Less(RankOf(env, db, best), RankOf(env, db, k))
  }

  ghost function Preferred(env: Env, db: Db, event: Id): Option<Id> {
    if best :| Highest(env, db, event, best) then Some(best.observation) else None
  }

  // ---- Invariants

  /** Some revision records the observation. */
  ghost predicate Recorded(db: Db, o: Id) {
    exists r :: Link(o, r) in db.recordings
  }

  /** The row's references resolve within one trace, and its chunk rows are exactly the chunks of
      its text. */
  ghost predicate GoodRecording(db: Db, k: Link) {
    && k in db.recordings && Keyed(db, k)
    && var event := db.observations[k.observation].event;
    && event in db.events && db.events[event].trace == db.revisions[k.revision].trace
    && db.recordings[k].text != []
    && db.recordings[k].chunks == ChunkRows(event, db.recordings[k].text)
  }

  ghost predicate SameEvent(db: Db, a: Id, b: Id)
    requires a in db.events && b in db.events
  {
    db.events[a].trace == db.events[b].trace && db.events[a].key == db.events[b].key
  }

  ghost predicate SameObservation(db: Db, a: Id, b: Id)
    requires a in db.observations && b in db.observations
  {
    db.observations[a] == db.observations[b]
  }

  /** References between revisions, events and observations resolve, and keys are unique. */
  ghost predicate Consistent(db: Db) {
    && (forall r :: r in db.revisions ==> db.revisions[r].trace in db.traces)
    && (forall e :: e in db.events ==> e > 0 && db.events[e].trace in db.traces)
    && (forall o :: o in db.observations ==> db.observations[o].event in db.events)
    && (forall a, b :: a in db.events && b in db.events && SameEvent(db, a, b) ==> a == b)
    && (forall a, b :: a in db.observations && b in db.observations && SameObservation(db, a, b) ==> a == b)
  }

  /** The tables between two events: chunks match their texts as well. */
  ghost predicate Sane(db: Db) {
    Consistent(db) && forall k :: k in db.recordings ==> GoodRecording(db, k)
  }

  /** The event's preferred observation is the one ranked highest. */
  ghost predicate Settled(env: Env, db: Db, event: Id) {
    && event in db.events
    && exists best :: Highest(env, db, event, best) && db.events[event].preferred == Some(best.observation)
  }

  ghost predicate AllRecorded(db: Db) {
    forall o :: o in db.observations ==> Recorded(db, o)
  }

  ghost predicate SameTrace(db: Db, a: Id, b: Id)
    requires a in db.traces && b in db.traces
  {
    db.traces[a].harness == db.traces[b].harness && db.traces[a].nativeId == db.traces[b].nativeId
  }

  ghost predicate SameRevision(db: Db, a: Id, b: Id)
    requires a in db.revisions && b in db.revisions
  {
    db.revisions[a].trace == db.revisions[b].trace && db.revisions[a].digest == db.revisions[b].digest
  }

  ghost predicate Named(db: Db) {
    && (forall a, b :: a in db.traces && b in db.traces && SameTrace(db, a, b) ==> a == b)
    && (forall a, b :: a in db.revisions && b in db.revisions && SameRevision(db, a, b) ==> a == b)
  }

  /** What holds between two transactions. */
  ghost predicate Valid(env: Env, db: Db) {
    && Sane(db) && AllRecorded(db) && Named(db)
    && (forall e :: e in db.events ==> Settled(env, db, e))
  }

  // ---- Statements of insertEvents

  ghost predicate IsEvent(db: Db, e: Id, trace: Id, key: Text) {
    e in db.events && db.events[e].trace == trace && db.events[e].key == key
  }

  /** INSERT OR IGNORE INTO events, and the id of the row. */
  ghost function InsertEventRow(env: Env, db: Db, trace: Id, key: Text, time: int): (Db, Id) {
    if e :| IsEvent(db, e, trace, key) then (db, e)
    else
      var e := env.nextEvent(db.events.Keys);
      (db.(events := db.events[e := EventRow(trace, key, time, None)]), e)
  }

  ghost predicate IsObservation(db: Db, o: Id, event: Id, body: Body) {
    o in db.observations && db.observations[o] == ObservationRow(event, body)
  }

  ghost function InsertObservation(env: Env, db: Db, event: Id, body: Body): (Db, Id) {
    if o :| IsObservation(db, o, event, body) then (db, o)
    else
      var o := env.next(db.observations.Keys);
      (db.(observations := db.observations[o := ObservationRow(event, body)]), o)
  }

  /** INSERT OR IGNORE INTO observation_revisions, then the source rows, and the chunk rows unless
      the loop has met the observation before. */
  ghost function Record(db: Db, k: Link, text: Text, refs: seq<Text>, rows: seq<Chunk>, repeated: bool): Db {
    var row := if k in db.recordings then db.recordings[k] else Recording(text, [], []);
    db.(recordings := db.recordings[k := Recording(row.text, row.sources + refs, if repeated then row.chunks else row.chunks + rows)])
  }

  /** UPDATE events SET preferred_observation_id=(...) WHERE id=event. */
  ghost function SetPreferred(env: Env, db: Db, event: Id): Db {
    if event in db.events then db.(events := db.events[event := db.events[event].(preferred := Preferred(env, db, event))]) else db
  }

  // ---- The ranking

  lemma {:induction false} HighestOf(env: Env, db: Db, links: set<Link>) returns (best: Link)
    requires links != {} && forall k :: k in links ==> Keyed(db, k)
    ensures best in links && forall k :: k in links ==> !Less(RankOf(env, db, best), RankOf(env, db, k))
  {
    best :| best in links;
    var rest := links - {best};
    assert rest == {} ==> links == {best};
    if rest != {} {
      var other := HighestOf(env, db, rest);
      var first := best;
      if Less(RankOf(env, db, first), RankOf(env, db, other)) {
        best := other;
      }
      forall k | k in links
        ensures !Less(RankOf(env, db, best), RankOf(env, db, k))
      {
        if k != first {
          assert !Less(RankOf(env, db, other), RankOf(env, db, k));
        }
      }
    }
  }

  lemma HighestExists(env: Env, db: Db, event: Id, some: Link)
    requires Of(db, some, event)
    ensures exists best :: Highest(env, db, event, best)
  {
    var links := set k | k in db.recordings && Of(db, k, event);
    assert some in links;
    var best := HighestOf(env, db, links);
    assert Highest(env, db, event, best);
  }

  lemma PreferredSettles(env: Env, db: Db, event: Id, some: Link)
    requires Of(db, some, event) && event in db.events
    ensures Settled(env, SetPreferred(env, db, event), event)
  {
    HighestExists(env, db, event, some);
    var after := SetPreferred(env, db, event);
    var best :| Highest(env, db, event, best) && Preferred(env, db, event) == Some(best.observation);
    forall k
      ensures Of(after, k, event) <==> Of(db, k, event)
    {
    }
    assert Highest(env, after, event, best);
  }

  /** Nothing the ranking of one event reads has changed. */
  ghost predicate SameFor(env: Env, db: Db, after: Db, event: Id) {
    && (forall k :: Of(db, k, event) <==> Of(after, k, event))
    && (forall k :: Of(db, k, event) ==> RankOf(env, db, k) == RankOf(env, after, k))
  }

  lemma SettledStays(env: Env, db: Db, after: Db, event: Id)
    requires Settled(env, db, event) && SameFor(env, db, after, event)
    requires event in after.events && after.events[event].preferred == db.events[event].preferred
    ensures Settled(env, after, event)
  {
    var best :| Highest(env, db, event, best) && db.events[event].preferred == Some(best.observation);
    assert Highest(env, after, event, best);
  }

  // ---- One event of insertEvents

  /** The event and observation rows a turn of the loop starts from. */
  ghost function Prepared(env: Env, db: Db, trace: Id, event: Event): (Db, Id, Id) {
    var (withEvent, e) := InsertEventRow(env, db, trace, event.key, event.body.time);
    var (withObservation, o) := InsertObservation(env, withEvent, e, event.body);
    (withObservation, e, o)
  }

  /** The recording, its chunks and the preferred observation the turn adds to them. */
  ghost function Finished(env: Env, db: Db, e: Id, k: Link, labels: Text, event: Event, repeated: bool): Db {
    var text := SearchableText(event.body, event.sources) + [NEW_LINE] + labels;
    var recorded := Record(db, k, text, event.sources, ChunkRows(e, text), repeated);
    if repeated then recorded else SetPreferred(env, recorded, e)
  }

  /** One turn of the loop, with the observation it met; it is repeated when already seen. */
  ghost function InsertEvent(env: Env, db: Db, trace: Id, revision: Id, labels: Text, event: Event, seen: set<Id>): (Db,
      Id)
  {
    var (prepared, e, o) := Prepared(env, db, trace, event);
    (Finished(env, prepared, e, Link(o, revision), labels, event, o in seen), o)
  }

  /** The whole loop over a revision's events; seen is the set of keys of the ordinals map. */
  ghost function InsertEvents(env: Env, db: Db, trace: Id, revision: Id, labels: Text, events: seq<Event>,
      seen: set<Id>): Db
    decreases |events|
  {
    if events == [] then db
    else
      var (after, o) := InsertEvent(env, db, trace, revision, labels, events[0], seen);
      InsertEvents(env, after, trace, revision, labels, events[1..], seen + {o})
  }

  /** The observations the revision has recorded are the ones the loop has seen. */
  ghost predicate SeenBy(db: Db, revision: Id, seen: set<Id>) {
    forall o :: o in seen <==> Link(o, revision) in db.recordings
  }

  lemma EventRowInserted(env: Env, db: Db, trace: Id, key: Text, time: int)
    requires Sound(env)
    ensures var (after, e) := InsertEventRow(env, db, trace, key, time);
      && IsEvent(after, e, trace, key) && after == db.(events := after.events)
      && (forall d :: d in db.events ==> d in after.events && after.events[d] == db.events[d])
      && (forall d :: d in after.events && d !in db.events ==> d == e && forall f :: !IsEvent(db, f, trace, key))
  {
  }

  lemma EventRowKeeps(env: Env, db: Db, trace: Id, key: Text, time: int)
    requires Sound(env) && Sane(db) && trace in db.traces
    ensures Sane(InsertEventRow(env, db, trace, key, time).0)
  {
    var (after, e) := InsertEventRow(env, db, trace, key, time);
    EventRowInserted(env, db, trace, key, time);
    forall a, b | a in after.events && b in after.events && SameEvent(after, a, b)
      ensures a == b
    {
      assert a in db.events && b in db.events ==> SameEvent(db, a, b);
      assert a in db.events && b !in db.events ==> IsEvent(db, a, trace, key);
      assert b in db.events && a !in db.events ==> IsEvent(db, b, trace, key);
    }
    forall k | k in after.recordings
      ensures GoodRecording(after, k)
    {
      assert GoodRecording(db, k);
    }
    assert forall a, b :: a in db.observations && b in db.observations ==>
      SameObservation(after, a, b) == SameObservation(db, a, b);
  }

  lemma ObservationInserted(env: Env, db: Db, event: Id, body: Body)
    requires Sound(env)
    ensures var (after, o) := InsertObservation(env, db, event, body);
      && IsObservation(after, o, event, body) && after == db.(observations := after.observations)
      && (forall p :: p in db.observations ==> p in after.observations && after.observations[p] == db.observations[p])
      && (forall p :: p in after.observations && p !in db.observations ==>
        p == o && forall q :: !IsObservation(db, q, event, body))
  {
  }

  lemma ObservationKeeps(env: Env, db: Db, event: Id, body: Body)
    requires Sound(env) && Sane(db) && event in db.events
    ensures Sane(InsertObservation(env, db, event, body).0)
  {
    var (after, o) := InsertObservation(env, db, event, body);
    ObservationInserted(env, db, event, body);
    forall a, b | a in after.observations && b in after.observations && SameObservation(after, a, b)
      ensures a == b
    {
      assert a in db.observations && b in db.observations ==> SameObservation(db, a, b);
      assert a in db.observations && b !in db.observations ==> IsObservation(db, a, event, body);
      assert b in db.observations && a !in db.observations ==> IsObservation(db, b, event, body);
    }
    forall k | k in after.recordings
      ensures GoodRecording(after, k)
    {
      assert GoodRecording(db, k);
    }
    assert forall a, b :: a in db.events && b in db.events ==> SameEvent(after, a, b) == SameEvent(db, a, b);
  }

  lemma ConsistentStays(db: Db, after: Db)
    requires Consistent(db) && db.traces.Keys <= after.traces.Keys && after.observations == db.observations
    requires forall r :: r in after.revisions ==> after.revisions[r].trace in after.traces
    requires after.events.Keys == db.events.Keys
    requires forall e :: e in db.events ==>
      after.events[e].trace == db.events[e].trace && after.events[e].key == db.events[e].key
    ensures Consistent(after)
  {
    forall a, b | a in after.events && b in after.events && SameEvent(after, a, b)
      ensures a == b
    {
      assert SameEvent(db, a, b);
    }
    forall a, b | a in after.observations && b in after.observations && SameObservation(after, a, b)
      ensures a == b
    {
      assert SameObservation(db, a, b);
    }
  }

  lemma NewRecordingIsGood(db: Db, k: Link, text: Text, refs: seq<Text>)
    requires Keyed(db, k) && text != [] && k !in db.recordings
    requires db.observations[k.observation].event in db.events
    requires db.events[db.observations[k.observation].event].trace == db.revisions[k.revision].trace
    ensures GoodRecording(Record(db, k, text, refs, ChunkRows(db.observations[k.observation].event, text), false), k)
  {
    var rows := ChunkRows(db.observations[k.observation].event, text);
    assert [] + rows == rows;
  }

  lemma RecordKeeps(db: Db, k: Link, text: Text, refs: seq<Text>, rows: seq<Chunk>)
    requires Sane(db) && Keyed(db, k) && text != []
    requires db.events[db.observations[k.observation].event].trace == db.revisions[k.revision].trace
    requires rows == ChunkRows(db.observations[k.observation].event, text)
    ensures Sane(Record(db, k, text, refs, rows, k in db.recordings))
  {
    var after := Record(db, k, text, refs, rows, k in db.recordings);
    ConsistentStays(db, after);
    if k !in db.recordings {
      NewRecordingIsGood(db, k, text, refs);
    }
    forall j | j in after.recordings
      ensures GoodRecording(after, j)
    {
      assert j in db.recordings ==> GoodRecording(db, j);
    }
  }

  /** Rows keep their keys, contents and chunks; only preferred observations and sources may differ. */
  ghost predicate SameRows(db: Db, after: Db) {
    && after.traces == db.traces && after.revisions == db.revisions && after.observations == db.observations
    && after.events.Keys == db.events.Keys && after.recordings.Keys == db.recordings.Keys
    && (forall e :: e in db.events ==>
      after.events[e].trace == db.events[e].trace && after.events[e].key == db.events[e].key)
    && (forall k :: k in db.recordings ==>
      after.recordings[k].text == db.recordings[k].text && after.recordings[k].chunks == db.recordings[k].chunks)
  }

  lemma SaneStays(db: Db, after: Db)
    requires Sane(db) && SameRows(db, after)
    ensures Sane(after)
  {
    ConsistentStays(db, after);
    forall j | j in after.recordings
      ensures GoodRecording(after, j)
    {
      assert GoodRecording(db, j);
    }
  }

  /** What one turn of the loop leaves: the event's row e, its observation o, and a recording. */
  ghost predicate Inserted(db: Db, after: Db, trace: Id, revision: Id, event: Event, e: Id, o: Id) {
    && after.traces == db.traces && after.revisions == db.revisions
    && IsEvent(after, e, trace, event.key) && IsObservation(after, o, e, event.body)
    && EventsGrow(db, after, e) && ObservationsGrow(db, after, o) && RecordingsGrow(db, after, Link(o, revision))
  }

  ghost predicate EventsGrow(db: Db, after: Db, e: Id) {
    && (forall d :: d in db.events ==>
      d in after.events && after.events[d].trace == db.events[d].trace && after.events[d].key == db.events[d].key &&
      after.events[d].sortTime == db.events[d].sortTime)
    && (forall d :: d in after.events && d != e ==> d in db.events && after.events[d] == db.events[d])
  }

  ghost predicate ObservationsGrow(db: Db, after: Db, o: Id) {
    && (forall p :: p in db.observations ==> p in after.observations && after.observations[p] == db.observations[p])
    && (forall p :: p in after.observations && p != o ==> p in db.observations)
  }

  ghost predicate RecordingsGrow(db: Db, after: Db, k: Link) {
    && k in after.recordings
    && (forall j :: j != k ==> (j in after.recordings <==> j in db.recordings))
    && (forall j :: j != k && j in db.recordings ==> after.recordings[j] == db.recordings[j])
  }

  lemma PreparedIs(env: Env, db: Db, trace: Id, event: Event)
    requires Sound(env)
    ensures var (after, e, o) := Prepared(env, db, trace, event);
      && after == db.(events := after.events, observations := after.observations)
      && IsEvent(after, e, trace, event.key) && IsObservation(after, o, e, event.body)
      && EventsGrow(db, after, e) && ObservationsGrow(db, after, o)
      && (e in db.events ==> after.events == db.events)
  {
    var (withEvent, e) := InsertEventRow(env, db, trace, event.key, event.body.time);
    EventRowInserted(env, db, trace, event.key, event.body.time);
    ObservationInserted(env, withEvent, e, event.body);
  }

  lemma PreparedSane(env: Env, db: Db, trace: Id, event: Event)
    requires Sound(env) && Sane(db) && trace in db.traces
    ensures Sane(Prepared(env, db, trace, event).0)
  {
    var (withEvent, e) := InsertEventRow(env, db, trace, event.key, event.body.time);
    EventRowInserted(env, db, trace, event.key, event.body.time);
    EventRowKeeps(env, db, trace, event.key, event.body.time);
    ObservationKeeps(env, withEvent, e, event.body);
  }

  lemma RecordIs(db: Db, k: Link, text: Text, refs: seq<Text>, rows: seq<Chunk>, repeated: bool)
    ensures RecordingsGrow(db, Record(db, k, text, refs, rows, repeated), k)
  {
  }

  lemma SetPreferredIs(env: Env, db: Db, e: Id)
    ensures EventsGrow(db, SetPreferred(env, db, e), e)
    ensures SetPreferred(env, db, e).events.Keys == db.events.Keys
    ensures SameRows(db, SetPreferred(env, db, e))
  {
  }

  lemma FinishedIs(env: Env, db: Db, e: Id, k: Link, labels: Text, event: Event, repeated: bool)
    ensures var after := Finished(env, db, e, k, labels, event, repeated);
      && after.traces == db.traces && after.revisions == db.revisions && after.observations == db.observations
      && EventsGrow(db, after, e) && RecordingsGrow(db, after, k)
      && after.events.Keys == db.events.Keys && (repeated ==> after.events == db.events)
  {
    var text := SearchableText(event.body, event.sources) + [NEW_LINE] + labels;
    RecordIs(db, k, text, event.sources, ChunkRows(e, text), repeated);
    SetPreferredIs(env, Record(db, k, text, event.sources, ChunkRows(e, text), repeated), e);
  }

  lemma FinishedSane(env: Env, db: Db, e: Id, k: Link, labels: Text, event: Event)
    requires Sane(db) && Keyed(db, k) && db.observations[k.observation].event == e
    requires db.events[e].trace == db.revisions[k.revision].trace
    ensures Sane(Finished(env, db, e, k, labels, event, k in db.recordings))
  {
    var text := SearchableText(event.body, event.sources) + [NEW_LINE] + labels;
    RecordKeeps(db, k, text, event.sources, ChunkRows(e, text));
    var recorded := Record(db, k, text, event.sources, ChunkRows(e, text), k in db.recordings);
    if k !in db.recordings {
      SetPreferredIs(env, recorded, e);
      SaneStays(recorded, SetPreferred(env, recorded, e));
    }
  }

  lemma InsertEventIs(env: Env, db: Db, trace: Id, revision: Id, labels: Text, event: Event, seen: set<Id>)
      returns (e: Id)
    requires Sound(env)
    ensures e == Prepared(env, db, trace, event).1
    ensures var (after, o) := InsertEvent(env, db, trace, revision, labels, event, seen);
      Inserted(db, after, trace, revision, event, e, o)
  {
    var (prepared, row, o) := Prepared(env, db, trace, event);
    e := row;
    PreparedIs(env, db, trace, event);
    FinishedIs(env, prepared, e, Link(o, revision), labels, event, o in seen);
  }

  /** One turn of the loop keeps the tables sane. */
  lemma InsertEventSane(env: Env, db: Db, trace: Id, revision: Id, labels: Text, event: Event, seen: set<Id>)
    requires Sound(env) && Sane(db) && SeenBy(db, revision, seen)
    requires trace in db.traces && revision in db.revisions && db.revisions[revision].trace == trace
    ensures Sane(InsertEvent(env, db, trace, revision, labels, event, seen).0)
  {
    var (prepared, e, o) := Prepared(env, db, trace, event);
    PreparedIs(env, db, trace, event);
    PreparedSane(env, db, trace, event);
    FinishedSane(env, prepared, e, Link(o, revision), labels, event);
  }

  lemma AllRecordedStays(db: Db, after: Db, trace: Id, revision: Id, event: Event, e: Id, o: Id)
    requires Inserted(db, after, trace, revision, event, e, o) && AllRecorded(db)
    ensures AllRecorded(after)
  {
    forall p | p in after.observations
      ensures Recorded(after, p)
    {
      if p == o {
        assert Link(o, revision) in after.recordings;
      } else {
        assert Recorded(db, p);
        var r :| Link(p, r) in db.recordings;
        assert Link(p, r) in after.recordings;
      }
    }
  }

  lemma SeenStays(db: Db, after: Db, trace: Id, revision: Id, event: Event, e: Id, o: Id, seen: set<Id>)
    requires Inserted(db, after, trace, revision, event, e, o) && SeenBy(db, revision, seen)
    ensures SeenBy(after, revision, seen + {o})
  {
    forall p
      ensures p in seen + {o} <==> Link(p, revision) in after.recordings
    {
      assert p != o ==> Link(p, revision) != Link(o, revision);
    }
  }

  lemma SettledElsewhere(env: Env, db: Db, after: Db, trace: Id, revision: Id, event: Event, e: Id, o: Id, d: Id)
    requires Inserted(db, after, trace, revision, event, e, o) && Sane(db) && Settled(env, db, d)
    requires d != e || (Link(o, revision) in db.recordings && after.events[d].preferred == db.events[d].preferred)
    ensures Settled(env, after, d)
  {
    forall k
      ensures Of(db, k, d) <==> Of(after, k, d)
      ensures Of(db, k, d) ==> RankOf(env, db, k) == RankOf(env, after, k)
    {
      assert k in db.recordings ==> GoodRecording(db, k);
    }
    SettledStays(env, db, after, d);
  }

  lemma TouchedSettles(env: Env, db: Db, e: Id, k: Link, labels: Text, event: Event)
    requires Keyed(db, k) && db.observations[k.observation].event == e && e in db.events
    ensures Settled(env, Finished(env, db, e, k, labels, event, false), e)
  {
    var text := SearchableText(event.body, event.sources) + [NEW_LINE] + labels;
    var recorded := Record(db, k, text, event.sources, ChunkRows(e, text), false);
    assert Of(recorded, k, e);
    PreferredSettles(env, recorded, e, k);
  }

  /** Every event whose preferred observation was the highest keeps it so, and so does a new one. */
  lemma InsertEventSettles(env: Env, db: Db, trace: Id, revision: Id, labels: Text, event: Event, seen: set<Id>, d: Id)
    requires Sound(env) && Sane(db) && SeenBy(db, revision, seen) && revision in db.revisions
    requires d in InsertEvent(env, db, trace, revision, labels, event, seen).0.events
    requires d in db.events ==> Settled(env, db, d)
    ensures Settled(env, InsertEvent(env, db, trace, revision, labels, event, seen).0, d)
  {
    var (prepared, e, o) := Prepared(env, db, trace, event);
    var k, after := Link(o, revision), InsertEvent(env, db, trace, revision, labels, event, seen).0;
    PreparedIs(env, db, trace, event);
    if o !in seen && d == e {
      TouchedSettles(env, prepared, e, k, labels, event);
    } else {
      var row := InsertEventIs(env, db, trace, revision, labels, event, seen);
      FinishedIs(env, prepared, e, k, labels, event, o in seen);
      assert o in seen ==> GoodRecording(db, k);
      SettledElsewhere(env, db, after, trace, revision, event, e, o, d);
    }
  }

  // ---- What the archive knows, apart from row ids

  /** One revision of a trace recorded an event with this content. */
  datatype Fact = Fact(harness: Text, nativeId: Text, revision: int, revised: int, key: Text, body: Body)

  ghost predicate Placed(db: Db, k: Link) {
    && k in db.recordings && Keyed(db, k)
    && db.observations[k.observation].event in db.events
    && db.revisions[k.revision].trace in db.traces
  }

  ghost function FactOf(db: Db, k: Link): Fact
    requires Placed(db, k)
  {
    var revision, observation := db.revisions[k.revision], db.observations[k.observation];
    var trace := db.traces[revision.trace];
    Fact(trace.harness, trace.nativeId, revision.digest, revision.nativeUpdatedAt, db.events[observation.event].key, observation.body)
  }

  ghost predicate Knows(db: Db, f: Fact) {
    exists k :: Placed(db, k) && FactOf(db, k) == f
  }

  function EventFact(trace: Trace, row: Revision, event: Event): Fact {
    Fact(trace.harness, trace.nativeId, row.digest, row.nativeUpdatedAt, event.key, event.body)
  }

  ghost function RevisionFact(db: Db, revision: Id, event: Event): Fact
    requires revision in db.revisions && db.revisions[revision].trace in db.traces
  {
    EventFact(db.traces[db.revisions[revision].trace], db.revisions[revision], event)
  }

  ghost predicate AmongFacts(trace: Trace, row: Revision, events: seq<Event>, f: Fact) {
    exists n :: 0 <= n < |events| && f == EventFact(trace, row, events[n])
  }

  lemma AmongCons(trace: Trace, row: Revision, events: seq<Event>, f: Fact)
    requires events != []
    ensures AmongFacts(trace, row, events, f) <==>
      f == EventFact(trace, row, events[0]) || AmongFacts(trace, row, events[1..], f)
  {
    if AmongFacts(trace, row, events[1..], f) {
      var n :| 0 <= n < |events[1..]| && f == EventFact(trace, row, events[1..][n]);
      assert events[n + 1] == events[1..][n];
    }
    if AmongFacts(trace, row, events, f) {
      var n :| 0 <= n < |events| && f == EventFact(trace, row, events[n]);
      assert n > 0 ==> events[1..][n - 1] == events[n];
    }
  }

  lemma InsertEventFacts(env: Env, db: Db, trace: Id, revision: Id, labels: Text, event: Event, seen: set<Id>, f: Fact)
    requires Sound(env) && Sane(db)
    requires trace in db.traces && revision in db.revisions && db.revisions[revision].trace == trace
    ensures Knows(InsertEvent(env, db, trace, revision, labels, event, seen).0, f) <==>
      Knows(db, f) || f == RevisionFact(db, revision, event)
  {
    var (after, o) := InsertEvent(env, db, trace, revision, labels, event, seen);
    var e := InsertEventIs(env, db, trace, revision, labels, event, seen);
    InsertedFacts(db, after, trace, revision, event, e, o, f);
  }

  lemma InsertedFacts(db: Db, after: Db, trace: Id, revision: Id, event: Event, e: Id, o: Id, f: Fact)
    requires Inserted(db, after, trace, revision, event, e, o) && Sane(db)
    requires trace in db.traces && revision in db.revisions && db.revisions[revision].trace == trace
    ensures Knows(after, f) <==> Knows(db, f) || f == RevisionFact(db, revision, event)
  {
    var k := Link(o, revision);
    assert Placed(after, k) && FactOf(after, k) == RevisionFact(db, revision, event);
    if Knows(db, f) {
      var j :| Placed(db, j) && FactOf(db, j) == f;
      assert Placed(after, j) && FactOf(after, j) == f;
    }
    if Knows(after, f) {
      var j :| Placed(after, j) && FactOf(after, j) == f;
      if j != k {
        assert GoodRecording(db, j);
        assert Placed(db, j) && FactOf(db, j) == f;
      }
    }
  }

  // ---- The whole of insertEvents

  lemma InsertEventKeeps(env: Env, db: Db, trace: Id, revision: Id, labels: Text, event: Event, seen: set<Id>)
    requires Sound(env) && Sane(db) && AllRecorded(db) && SeenBy(db, revision, seen)
    requires trace in db.traces && revision in db.revisions && db.revisions[revision].trace == trace
    ensures var (after, o) := InsertEvent(env, db, trace, revision, labels, event, seen);
      && Sane(after) && AllRecorded(after) && SeenBy(after, revision, seen + {o})
      && after.traces == db.traces && after.revisions == db.revisions
  {
    var (after, o) := InsertEvent(env, db, trace, revision, labels, event, seen);
    var e := InsertEventIs(env, db, trace, revision, labels, event, seen);
    InsertEventSane(env, db, trace, revision, labels, event, seen);
    AllRecordedStays(db, after, trace, revision, event, e, o);
    SeenStays(db, after, trace, revision, event, e, o, seen);
  }

  lemma {:induction false} InsertEventsKeep(env: Env, db: Db, trace: Id, revision: Id, labels: Text, events: seq<Event>,
      seen: set<Id>)
    requires Sound(env) && Sane(db) && AllRecorded(db) && SeenBy(db, revision, seen)
    requires trace in db.traces && revision in db.revisions && db.revisions[revision].trace == trace
    ensures var after := InsertEvents(env, db, trace, revision, labels, events, seen);
      && Sane(after) && AllRecorded(after) && after.traces == db.traces && after.revisions == db.revisions
    decreases |events|
  {
    if events != [] {
      var (after, o) := InsertEvent(env, db, trace, revision, labels, events[0], seen);
      InsertEventKeeps(env, db, trace, revision, labels, events[0], seen);
      InsertEventsKeep(env, after, trace, revision, labels, events[1..], seen + {o});
    }
  }

  lemma {:induction false} InsertEventsSettle(env: Env, db: Db, trace: Id, revision: Id, labels: Text,
      events: seq<Event>, seen: set<Id>, d: Id)
    requires Sound(env) && Sane(db) && AllRecorded(db) && SeenBy(db, revision, seen)
    requires trace in db.traces && revision in db.revisions && db.revisions[revision].trace == trace
    requires d in InsertEvents(env, db, trace, revision, labels, events, seen).events
    requires d in db.events ==> Settled(env, db, d)
    ensures Settled(env, InsertEvents(env, db, trace, revision, labels, events, seen), d)
    decreases |events|
  {
    if events != [] {
      var (after, o) := InsertEvent(env, db, trace, revision, labels, events[0], seen);
      InsertEventKeeps(env, db, trace, revision, labels, events[0], seen);
      if d in after.events {
        InsertEventSettles(env, db, trace, revision, labels, events[0], seen, d);
      }
      InsertEventsSettle(env, after, trace, revision, labels, events[1..], seen + {o}, d);
    }
  }

  /** The archive learns exactly the events it inserts. */
  lemma {:induction false} InsertEventsFacts(env: Env, db: Db, trace: Id, revision: Id, labels: Text,
      events: seq<Event>, seen: set<Id>, f: Fact)
    requires Sound(env) && Sane(db) && AllRecorded(db) && SeenBy(db, revision, seen)
    requires trace in db.traces && revision in db.revisions && db.revisions[revision].trace == trace
    ensures Knows(InsertEvents(env, db, trace, revision, labels, events, seen), f) <==>
      Knows(db, f) || AmongFacts(db.traces[trace], db.revisions[revision], events, f)
    decreases |events|
  {
    if events != [] {
      var (after, o) := InsertEvent(env, db, trace, revision, labels, events[0], seen);
      InsertEventKeeps(env, db, trace, revision, labels, events[0], seen);
      InsertEventFacts(env, db, trace, revision, labels, events[0], seen, f);
      InsertEventsFacts(env, after, trace, revision, labels, events[1..], seen + {o}, f);
      AmongCons(db.traces[trace], db.revisions[revision], events, f);
    }
  }

  /** The recording, if any, and the observation it is of are the same in both. */
  ghost predicate SameRecording(db: Db, after: Db, k: Link) {
    && (k in after.recordings <==> k in db.recordings)
    && (k in db.recordings ==> after.recordings[k] == db.recordings[k])
    && (k in db.recordings && k.observation in db.observations ==>
      k.observation in after.observations && after.observations[k.observation] == db.observations[k.observation])
  }

  /** Events of other traces, and what other revisions recorded, are not touched. */
  ghost predicate Untouched(db: Db, after: Db, trace: Id, revision: Id) {
    && (forall e :: e in db.events && db.events[e].trace != trace ==>
      e in after.events && after.events[e] == db.events[e])
    && (forall e :: e in after.events && after.events[e].trace != trace ==>
      e in db.events && after.events[e] == db.events[e])
    && (forall k: Link :: k.revision != revision ==> SameRecording(db, after, k))
  }

  lemma InsertedTouchesOne(db: Db, after: Db, trace: Id, revision: Id, event: Event, e: Id, o: Id)
    requires Inserted(db, after, trace, revision, event, e, o)
    requires e in db.events ==> db.events[e].trace == trace
    ensures Untouched(db, after, trace, revision)
  {
  }

  lemma UntouchedTwice(db: Db, middle: Db, after: Db, trace: Id, revision: Id)
    requires Untouched(db, middle, trace, revision) && Untouched(middle, after, trace, revision)
    requires forall k :: k in db.recordings ==> k.observation in db.observations
    ensures Untouched(db, after, trace, revision)
  {
    forall k: Link | k.revision != revision
      ensures SameRecording(db, after, k)
    {
      assert SameRecording(db, middle, k) && SameRecording(middle, after, k);
    }
  }

  lemma {:induction false} InsertEventsTouchOne(env: Env, db: Db, trace: Id, revision: Id, labels: Text,
      events: seq<Event>, seen: set<Id>)
    requires Sound(env) && forall k :: k in db.recordings ==> k.observation in db.observations
    ensures Untouched(db, InsertEvents(env, db, trace, revision, labels, events, seen), trace, revision)
    decreases |events|
  {
    if events != [] {
      var (after, o) := InsertEvent(env, db, trace, revision, labels, events[0], seen);
      var e := InsertEventIs(env, db, trace, revision, labels, events[0], seen);
      InsertedTouchesOne(db, after, trace, revision, events[0], e, o);
      InsertEventsTouchOne(env, after, trace, revision, labels, events[1..], seen + {o});
      UntouchedTwice(db, after, InsertEvents(env, db, trace, revision, labels, events, seen), trace, revision);
    }
  }
}
