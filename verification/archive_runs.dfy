/** Whole runs of the archive's transactions, and what the preferred observation of an event
    depends on. */
module ArchiveRuns {
  import opened Utf8
  import opened Archive
  import opened ArchiveSteps

  // ---- Titles (internal/store/titles.go)

  /** reindexTraceSearch: every text of the trace from its stored observation, its sources and the
      trace's current metadata. */
  ghost function ReindexedTexts(db: Db, t: Id): map<Link, Text> {
    map k | k in db.recordings && Keyed(db, k) && db.revisions[k.revision].trace == t && t in db.traces ::
      SearchableText(db.observations[k.observation].body, db.recordings[k].sources) + [NEW_LINE] + Labels(db.traces[t])
  }

  ghost function Reindex(db: Db, t: Id): Db {
    Rewrite(db, ReindexedTexts(db, t))
  }

  /** A trace row is updated, and the trace reindexed when the titles it shows in search changed. */
  ghost function UpdateTitles(db: Db, t: Id, row: Trace, reindex: bool): Db {
    var after := db.(traces := db.traces[t := row]);
    if reindex then Reindex(after, t) else after
  }

  ghost function SetTitleOverride(db: Db, t: Id, title: Text): Db {
    if t !in db.traces then db else UpdateTitles(db, t, db.traces[t].(titleOverride := title), true)
  }

  ghost function SetGeneratedTitle(db: Db, t: Id, revision: Id, title: Text): Db {
    if t !in db.traces || db.traces[t].generatedRevision >= revision then db
    else UpdateTitles(db, t, db.traces[t].(generatedTitle := title, generatedRevision := revision), title != db.traces[t].generatedTitle)
  }

  // ---- backfillMissingTraceMetadata: without a native time it compares with the empty text, below every time

  function Backfilled(row: Trace, d: Descriptor): Trace {
    var current := d.nativeUpdatedAt.Some? && row.updatedAt <= d.nativeUpdatedAt.value;
    row.(title := if row.title == [] && current then d.title else row.title,
         workingDirectory := if row.workingDirectory == [] && current then d.workingDirectory else row.workingDirectory,
         hasRepository := row.hasRepository || (current && (d.remote != [] || d.root != [])),
         remote := if !row.hasRepository && current then d.remote else row.remote,
         root := if !row.hasRepository && current then d.root else row.root)
  }

  /** The metadata the update filled in, as it is appended to the search text. */
  function BackfilledText(row: Trace, d: Descriptor): seq<Text> {
    var current := d.nativeUpdatedAt.Some? && row.updatedAt <= d.nativeUpdatedAt.value;
    (if row.title == [] && current && d.title != [] then [d.title] else []) +
    (if row.workingDirectory == [] && current && d.workingDirectory != [] then [d.workingDirectory] else []) +
    (if !row.hasRepository && current && (d.remote != [] || d.root != []) then [d.remote, d.root] else [])
  }

  ghost function Backfill(db: Db, t: Id, r: Id, d: Descriptor): Db {
    if t !in db.traces then db
    else
      var added := BackfilledText(db.traces[t], d);
      if added == [] then db
      else
        var filled := db.(traces := db.traces[t := Backfilled(db.traces[t], d)]);
        Rewrite(filled, map k | k in db.recordings && k.revision == r ::
          db.recordings[k].text + [NEW_LINE] + Join(added))
  }

  // ---- importTrace

  predicate Unusable(n: Normalization) {
    n.status == Failed || n.status == Unsupported
  }

  /** A revision already there is backfilled, and parsed again unless it was parsed before. */
  ghost function Reimport(env: Env, db: Db, t: Id, r: Id, d: Descriptor, n: Normalization): Db
    requires IsRevision(db, t, r, d)
  {
    var filled := Backfill(db, t, r, d);
    if db.revisions[r].status == Normalized || Unusable(n) || t !in filled.traces then filled
    else Rebuild(env, filled, t, r, DescribedLabels(filled.traces[t], d), n)
  }

  ghost function ImportTrace(env: Env, db: Db, d: Descriptor, n: Normalization): Db {
    if t, r :| IsRevision(db, t, r, d) then Reimport(env, db, t, r, d, n) else CommitRevision(env, db, d, n)
  }

  /** Renormalize, for one revision it takes up. */
  ghost function Renormalize(env: Env, db: Db, r: Id, n: Normalization): Db {
    if r !in db.revisions || db.revisions[r].trace !in db.traces || Unusable(n) then db
    else Rebuild(env, db, db.revisions[r].trace, r, Labels(db.traces[db.revisions[r].trace]), n)
  }

  datatype Step =
    | Import(d: Descriptor, n: Normalization)
    | Renormalized(revision: Id, n: Normalization)
    | Titled(trace: Id, title: Text)
    | Generated(trace: Id, revision: Id, title: Text)
    | Deleted(trace: Id)

  ghost function Apply(env: Env, db: Db, step: Step): Db {
    match step
    case Import(d, n) => ImportTrace(env, db, d, n)
    case Renormalized(r, n) => Renormalize(env, db, r, n)
    case Titled(t, title) => SetTitleOverride(db, t, title)
    case Generated(t, r, title) => SetGeneratedTitle(db, t, r, title)
    case Deleted(t) => DeleteTrace(db, t)
  }

  /** A step with the ids SQLite hands out during it: ids of events never come back, so what is given
      depends on more than the rows there are. */
  datatype Turn = Turn(env: Env, step: Step)

  ghost function Run(db: Db, turns: seq<Turn>): Db
    decreases |turns|
  {
    if turns == [] then db else Run(Apply(turns[0].env, db, turns[0].step), turns[1..])
  }

  ghost predicate SoundLike(env: Env, turn: Turn) {
    Sound(turn.env) && turn.env.digest == env.digest
  }

  /** Every turn's ids are unused, and digests are one function throughout, that of env. */
  ghost predicate AllSound(env: Env, turns: seq<Turn>) {
    Sound(env) && forall i :: 0 <= i < |turns| ==> SoundLike(env, turns[i])
  }

  function StepsOf(turns: seq<Turn>): (steps: seq<Step>)
    ensures |steps| == |turns| && forall i :: 0 <= i < |turns| ==> steps[i] == turns[i].step
  {
    seq(|turns|, i requires 0 <= i < |turns| => turns[i].step)
  }

  /** What is preferred depends on digests alone, not on ids. */
  lemma ValidLike(env: Env, other: Env, db: Db)
    requires env.digest == other.digest && Valid(env, db)
    ensures Valid(other, db)
  {
    forall e | e in db.events
      ensures Settled(other, db, e)
    {
      assert Settled(env, db, e);
      SettledLike(env, other, db, e);
    }
  }

  lemma SettledLike(env: Env, other: Env, db: Db, e: Id)
    requires env.digest == other.digest && Settled(env, db, e)
    ensures Settled(other, db, e)
  {
    var best :| Highest(env, db, e, best) && db.events[e].preferred == Some(best.observation);
    assert Highest(other, db, e, best);
  }

  lemma TraceRowKeeps(env: Env, db: Db, t: Id, row: Trace)
    requires Valid(env, db) && t in db.traces
    requires row.harness == db.traces[t].harness && row.nativeId == db.traces[t].nativeId
    ensures Valid(env, db.(traces := db.traces[t := row]))
  {
    var after := db.(traces := db.traces[t := row]);
    SetTraceIs(db, t, row);
    ParentsSane(db, after);
    ParentsRecorded(db, after);
    NamedStays(db, after);
    forall e | e in after.events
      ensures Settled(env, after, e)
    {
      ParentsSettled(env, db, after, e);
    }
  }

  lemma RewriteKeeps(env: Env, db: Db, texts: map<Link, Text>)
    requires Valid(env, db) && forall k :: k in texts ==> texts[k] != []
    ensures Valid(env, Rewrite(db, texts))
  {
    RewriteSane(db, texts);
    TextsValid(env, db, Rewrite(db, texts));
  }

  lemma ReindexKeeps(env: Env, db: Db, t: Id)
    requires Valid(env, db)
    ensures Valid(env, Reindex(db, t))
  {
    RewriteKeeps(env, db, ReindexedTexts(db, t));
  }

  lemma BackfillKeeps(env: Env, db: Db, t: Id, r: Id, d: Descriptor)
    requires Valid(env, db)
    ensures Valid(env, Backfill(db, t, r, d))
  {
    if t in db.traces && BackfilledText(db.traces[t], d) != [] {
      var filled := db.(traces := db.traces[t := Backfilled(db.traces[t], d)]);
      TraceRowKeeps(env, db, t, Backfilled(db.traces[t], d));
      RewriteKeeps(env, filled, map k | k in db.recordings && k.revision == r ::
        db.recordings[k].text + [NEW_LINE] + Join(BackfilledText(db.traces[t], d)));
    }
  }

  lemma BackfillIs(db: Db, t: Id, r: Id, d: Descriptor)
    ensures Backfill(db, t, r, d).traces.Keys == db.traces.Keys && Backfill(db, t, r, d).revisions == db.revisions
  {
  }

  lemma ReimportKeeps(env: Env, db: Db, t: Id, r: Id, d: Descriptor, n: Normalization)
    requires Sound(env) && Valid(env, db) && IsRevision(db, t, r, d)
    ensures Valid(env, Reimport(env, db, t, r, d, n))
  {
    var filled := Backfill(db, t, r, d);
    BackfillKeeps(env, db, t, r, d);
    BackfillIs(db, t, r, d);
    if t in filled.traces {
      RebuildKeeps(env, filled, t, r, DescribedLabels(filled.traces[t], d), n);
    }
  }

  lemma ImportKeeps(env: Env, db: Db, d: Descriptor, n: Normalization)
    requires Sound(env) && Valid(env, db)
    ensures Valid(env, ImportTrace(env, db, d, n))
  {
    if Imported(db, d) {
      var t, r :| IsRevision(db, t, r, d) && ImportTrace(env, db, d, n) == Reimport(env, db, t, r, d, n);
      ReimportKeeps(env, db, t, r, d, n);
    } else {
      CommitKeeps(env, db, d, n);
    }
  }

  lemma RenormalizeKeeps(env: Env, db: Db, r: Id, n: Normalization)
    requires Sound(env) && Valid(env, db)
    ensures Valid(env, Renormalize(env, db, r, n))
  {
    if r in db.revisions && db.revisions[r].trace in db.traces && !Unusable(n) {
      RebuildKeeps(env, db, db.revisions[r].trace, r, Labels(db.traces[db.revisions[r].trace]), n);
    }
  }

  lemma UpdateTitlesKeeps(env: Env, db: Db, t: Id, row: Trace, reindex: bool)
    requires Valid(env, db) && t in db.traces
    requires row.harness == db.traces[t].harness && row.nativeId == db.traces[t].nativeId
    ensures Valid(env, UpdateTitles(db, t, row, reindex))
  {
    TraceRowKeeps(env, db, t, row);
    ReindexKeeps(env, db.(traces := db.traces[t := row]), t);
  }

  lemma TitlesKeep(env: Env, db: Db, t: Id, r: Id, title: Text)
    requires Valid(env, db)
    ensures Valid(env, SetTitleOverride(db, t, title)) && Valid(env, SetGeneratedTitle(db, t, r, title))
  {
    if t in db.traces {
      UpdateTitlesKeeps(env, db, t, db.traces[t].(titleOverride := title), true);
      UpdateTitlesKeeps(env, db, t, db.traces[t].(generatedTitle := title, generatedRevision := r), title != db.traces[t].generatedTitle);
    }
  }

  lemma ApplyKeeps(env: Env, db: Db, step: Step)
    requires Sound(env) && Valid(env, db)
    ensures Valid(env, Apply(env, db, step))
  {
    match step
    case Import(d, n) => ImportKeeps(env, db, d, n);
    case Renormalized(r, n) => RenormalizeKeeps(env, db, r, n);
    case Titled(t, title) => TitlesKeep(env, db, t, 0, title);
    case Generated(t, r, title) => TitlesKeep(env, db, t, r, title);
    case Deleted(t) => DeleteKeeps(env, db, t);
  }

  lemma TurnKeeps(env: Env, db: Db, turn: Turn)
    requires SoundLike(env, turn) && Valid(env, db)
    ensures Valid(env, Apply(turn.env, db, turn.step))
  {
    ValidLike(env, turn.env, db);
    ApplyKeeps(turn.env, db, turn.step);
    ValidLike(turn.env, env, Apply(turn.env, db, turn.step));
  }

  /** Over every run of imports, rebuilds, renames and deletes: chunk rows are exactly the chunks of
      their texts, every observation is recorded, and every event has its highest-ranked one. */
  lemma {:induction false} RunKeeps(env: Env, db: Db, turns: seq<Turn>)
    requires AllSound(env, turns) && Valid(env, db)
    ensures Valid(env, Run(db, turns))
    decreases |turns|
  {
    if turns != [] {
      TurnKeeps(env, db, turns[0]);
      RunKeeps(env, Apply(turns[0].env, db, turns[0].step), turns[1..]);
    }
  }

  lemma EmptyIsValid(env: Env)
    ensures Valid(env, EMPTY)
  {
  }

  // ---- The preferred observation depends only on what the archive knows

  lemma TotalOrder(a: Rank, b: Rank)
    requires !Less(a, b) && !Less(b, a)
    ensures a == b
  {
  }

  lemma LinkFact(db: Db, k: Link, e: Id)
    requires Sane(db) && Of(db, k, e)
    ensures Placed(db, k) && e in db.events && db.events[e].trace == db.revisions[k.revision].trace
    ensures FactOf(db, k).key == db.events[e].key
  {
    assert GoodRecording(db, k);
  }

  /** Facts about one key of one trace are recorded under one event. */
  lemma OneEvent(db: Db, k: Link, e: Id, f: Fact)
    requires Sane(db) && Named(db) && e in db.events && IsTrace(db, db.events[e].trace, f.harness, f.nativeId)
    requires db.events[e].key == f.key
    requires Placed(db, k) && FactOf(db, k).harness == f.harness && FactOf(db, k).nativeId == f.nativeId
    requires FactOf(db, k).key == f.key
    ensures Of(db, k, e)
  {
    assert GoodRecording(db, k);
    assert SameTrace(db, db.revisions[k.revision].trace, db.events[e].trace);
    assert SameEvent(db, db.observations[k.observation].event, e);
  }

  ghost function FactRank(env: Env, f: Fact): Rank {
    BodyRank(env, f.revised, f.body)
  }

  /** The event f is about has a preferred observation with f's body. */
  ghost predicate Prefers(db: Db, e: Id, f: Fact) {
    && e in db.events && IsTrace(db, db.events[e].trace, f.harness, f.nativeId) && db.events[e].key == f.key
    && db.events[e].preferred.Some? && db.events[e].preferred.value in db.observations
    && db.observations[db.events[e].preferred.value] == ObservationRow(e, f.body)
  }

  predicate SameKey(f: Fact, g: Fact) {
    f.harness == g.harness && f.nativeId == g.nativeId && f.key == g.key
  }

  /** The preferred observation is a known fact that no fact about the same key outranks. */
  ghost predicate Best(env: Env, db: Db, f: Fact) {
    Knows(db, f) && forall g :: Knows(db, g) && SameKey(f, g) ==> !Less(FactRank(env, f), FactRank(env, g))
  }

  lemma SettledBest(env: Env, db: Db, e: Id) returns (f: Fact)
    requires Valid(env, db) && e in db.events
    ensures Best(env, db, f) && Prefers(db, e, f)
  {
    assert Settled(env, db, e);
    var best :| Highest(env, db, e, best) && db.events[e].preferred == Some(best.observation);
    LinkFact(db, best, e);
    f := FactOf(db, best);
    forall g | Knows(db, g) && SameKey(f, g)
      ensures !Less(FactRank(env, f), FactRank(env, g))
    {
      var k :| Placed(db, k) && FactOf(db, k) == g;
      OneEvent(db, k, e, f);
    }
  }

  lemma BestIsOne(env: Env, db: Db, f: Fact, g: Fact)
    requires Sound(env) && Best(env, db, f) && Best(env, db, g) && SameKey(f, g)
    ensures f.body == g.body
  {
    TotalOrder(FactRank(env, f), FactRank(env, g));
  }

  lemma KnownEvent(env: Env, db: Db, f: Fact) returns (e: Id)
    requires Valid(env, db) && Knows(db, f)
    ensures e in db.events && IsTrace(db, db.events[e].trace, f.harness, f.nativeId) && db.events[e].key == f.key
  {
    var k :| Placed(db, k) && FactOf(db, k) == f;
    assert GoodRecording(db, k);
    e := db.observations[k.observation].event;
  }

  /** The fact is about the event. */
  ghost predicate About(db: Db, e: Id, f: Fact) {
    e in db.events && IsTrace(db, db.events[e].trace, f.harness, f.nativeId) && db.events[e].key == f.key
  }

  /** Two archives that know the same about an event prefer the same content for it, whatever row
      ids they use. */
  lemma PreferredDependsOnFacts(env: Env, one: Db, other: Db, e: Id) returns (f: Fact, d: Id)
    requires Sound(env) && Valid(env, one) && Valid(env, other) && e in one.events
    requires forall g :: About(one, e, g) ==> (Knows(one, g) <==> Knows(other, g))
    ensures Prefers(one, e, f) && Prefers(other, d, f)
  {
    f := SettledBest(env, one, e);
    assert About(one, e, f);
    d := KnownEvent(env, other, f);
    var g := SettledBest(env, other, d);
    assert SameKey(f, g);
    assert About(one, e, g);
    forall h | Knows(one, h) && SameKey(g, h)
      ensures !Less(FactRank(env, g), FactRank(env, h))
    {
      assert About(one, e, h);
    }
    assert Best(env, one, g);
    BestIsOne(env, one, f, g);
  }

  // ---- Facts along a run

  lemma TraceRowFacts(db: Db, t: Id, row: Trace, f: Fact)
    requires Sane(db) && t in db.traces && row.harness == db.traces[t].harness && row.nativeId == db.traces[t].nativeId
    ensures Knows(db.(traces := db.traces[t := row]), f) <==> Knows(db, f)
  {
    SetTraceIs(db, t, row);
    ParentsFacts(db, db.(traces := db.traces[t := row]), f);
  }

  lemma BackfillFacts(db: Db, t: Id, r: Id, d: Descriptor, f: Fact)
    requires Sane(db)
    ensures Knows(Backfill(db, t, r, d), f) <==> Knows(db, f)
    ensures KeepsNames(db, Backfill(db, t, r, d))
  {
    if t in db.traces && BackfilledText(db.traces[t], d) != [] {
      var filled := db.(traces := db.traces[t := Backfilled(db.traces[t], d)]);
      TraceRowFacts(db, t, Backfilled(db.traces[t], d), f);
      TextsFacts(filled, Backfill(db, t, r, d), f);
    }
  }

  lemma ReindexFacts(db: Db, t: Id, f: Fact)
    ensures Knows(Reindex(db, t), f) <==> Knows(db, f)
  {
    TextsFacts(db, Reindex(db, t), f);
  }

  /** No revision is added and none changes its identity. */
  ghost predicate SameRevisions(db: Db, after: Db) {
    KeepsNames(db, after) && after.revisions.Keys == db.revisions.Keys
  }

  lemma UpdateTitlesFacts(db: Db, t: Id, row: Trace, reindex: bool, f: Fact)
    requires Sane(db) && t in db.traces && row.harness == db.traces[t].harness && row.nativeId == db.traces[t].nativeId
    ensures Knows(UpdateTitles(db, t, row, reindex), f) <==> Knows(db, f)
  {
    TraceRowFacts(db, t, row, f);
    ReindexFacts(db.(traces := db.traces[t := row]), t, f);
  }

  lemma RowRevisions(db: Db, after: Db, t: Id, row: Trace)
    requires t in db.traces && row.harness == db.traces[t].harness && row.nativeId == db.traces[t].nativeId
    requires after.revisions == db.revisions && after.traces == db.traces[t := row]
    ensures SameRevisions(db, after)
  {
  }

  lemma UpdateTitlesRows(db: Db, t: Id, row: Trace, reindex: bool)
    requires t in db.traces && row.harness == db.traces[t].harness && row.nativeId == db.traces[t].nativeId
    ensures SameRevisions(db, UpdateTitles(db, t, row, reindex))
  {
    var after := UpdateTitles(db, t, row, reindex);
    assert after.revisions == db.revisions && after.traces == db.traces[t := row];
    RowRevisions(db, after, t, row);
  }

  lemma OverrideFacts(db: Db, t: Id, title: Text, f: Fact)
    requires Sane(db)
    ensures Knows(SetTitleOverride(db, t, title), f) <==> Knows(db, f)
    ensures SameRevisions(db, SetTitleOverride(db, t, title))
  {
    if t in db.traces {
      UpdateTitlesFacts(db, t, db.traces[t].(titleOverride := title), true, f);
      UpdateTitlesRows(db, t, db.traces[t].(titleOverride := title), true);
    }
  }

  lemma GeneratedFacts(db: Db, t: Id, r: Id, title: Text, f: Fact)
    requires Sane(db)
    ensures Knows(SetGeneratedTitle(db, t, r, title), f) <==> Knows(db, f)
    ensures SameRevisions(db, SetGeneratedTitle(db, t, r, title))
  {
    if t in db.traces {
      var row := db.traces[t].(generatedTitle := title, generatedRevision := r);
      UpdateTitlesFacts(db, t, row, title != db.traces[t].generatedTitle, f);
      UpdateTitlesRows(db, t, row, title != db.traces[t].generatedTitle);
    }
  }

  // ---- Facts after a run of imports and renames, in any order

  predicate SameSource(a: Descriptor, b: Descriptor) {
    a.harness == b.harness && a.nativeId == b.nativeId && a.revision == b.revision
  }

  /** The run does not import the step's revision yet. */
  ghost predicate New(steps: seq<Step>, step: Step) {
    step.Import? && forall j :: 0 <= j < |steps| && steps[j].Import? ==> !SameSource(steps[j].d, step.d)
  }

  /** The import that adds its revision. */
  ghost predicate Adds(steps: seq<Step>, i: nat) {
    i < |steps| && New(steps[..i], steps[i])
  }

  /** Some import that adds a revision records the fact. */
  ghost predicate Told(steps: seq<Step>, f: Fact) {
    exists i: nat :: Adds(steps, i) && ImportFact(steps[i].d, steps[i].n, f)
  }

  /** The revision was imported from this descriptor. */
  ghost predicate From(db: Db, r: Id, d: Descriptor) {
    r in db.revisions && IsRevision(db, db.revisions[r].trace, r, d) && db.revisions[r].nativeUpdatedAt == d.Time()
  }

  ghost predicate FromSome(db: Db, r: Id, steps: seq<Step>) {
    exists i: nat :: Adds(steps, i) && From(db, r, steps[i].d)
  }

  ghost predicate Has(db: Db, step: Step) {
    step.Import? ==> Imported(db, step.d)
  }

  /** The archive holds exactly what the run's imports told it. */
  ghost predicate Learned(db: Db, steps: seq<Step>) {
    && (forall f :: Knows(db, f) <==> Told(steps, f))
    && (forall r :: r in db.revisions ==> FromSome(db, r, steps))
    && (forall i :: 0 <= i < |steps| ==> Has(db, steps[i]))
  }

  /** Normalizing one revision always gives the same events. */
  ghost predicate Deterministic(steps: seq<Step>) {
    forall i, j :: 0 <= i < |steps| && 0 <= j < |steps| && steps[i].Import? && steps[j].Import? && SameSource(steps[i].d, steps[j].d) ==>
      steps[i].n.events == steps[j].n.events
  }

  predicate ImportsAndTitles(steps: seq<Step>) {
    forall i :: 0 <= i < |steps| ==> steps[i].Import? || steps[i].Titled? || steps[i].Generated?
  }

  lemma AddsSnoc(steps: seq<Step>, step: Step, i: nat)
    ensures Adds(steps + [step], i) <==> Adds(steps, i) || (i == |steps| && New(steps, step))
  {
    var more := steps + [step];
    if i < |steps| {
      assert more[..i] == steps[..i];
    } else if i == |steps| {
      assert more[..i] == steps;
    }
  }

  lemma ToldSnoc(steps: seq<Step>, step: Step, f: Fact)
    ensures Told(steps + [step], f) <==> Told(steps, f) || (New(steps, step) && ImportFact(step.d, step.n, f))
  {
    var more := steps + [step];
    if Told(more, f) {
      var i: nat :| Adds(more, i) && ImportFact(more[i].d, more[i].n, f);
      AddsSnoc(steps, step, i);
      assert i < |steps| ==> more[i] == steps[i];
    }
    if Told(steps, f) {
      var i: nat :| Adds(steps, i) && ImportFact(steps[i].d, steps[i].n, f);
      AddsSnoc(steps, step, i);
      assert more[i] == steps[i];
    }
    if New(steps, step) && ImportFact(step.d, step.n, f) {
      AddsSnoc(steps, step, |steps|);
      assert more[|steps|] == step;
    }
  }

  /** Every import's revision is added by it or an earlier one. */
  lemma {:induction false} Added(steps: seq<Step>, i: nat) returns (j: nat)
    requires i < |steps| && steps[i].Import?
    ensures Adds(steps, j) && SameSource(steps[j].d, steps[i].d)
    decreases i
  {
    if New(steps[..i], steps[i]) {
      j := i;
    } else {
      var k :| 0 <= k < i && steps[..i][k].Import? && SameSource(steps[..i][k].d, steps[i].d);
      j := Added(steps, k);
    }
  }

  lemma AddsOnce(steps: seq<Step>, i: nat, j: nat)
    requires Adds(steps, i) && Adds(steps, j) && SameSource(steps[i].d, steps[j].d)
    ensures i == j
  {
    if i < j {
      NotNew(steps, i, j);
    } else if j < i {
      NotNew(steps, j, i);
    }
  }

  lemma NotNew(steps: seq<Step>, i: nat, j: nat)
    requires i < j < |steps| && steps[i].Import? && steps[j].Import? && SameSource(steps[i].d, steps[j].d)
    ensures !Adds(steps, j)
  {
    assert steps[..j][i] == steps[i];
  }

  lemma FromStays(db: Db, after: Db, r: Id, steps: seq<Step>, step: Step)
    requires KeepsNames(db, after) && r in db.revisions && FromSome(db, r, steps)
    requires db.revisions[r].trace in db.traces
    ensures FromSome(after, r, steps + [step])
  {
    var i: nat :| Adds(steps, i) && From(db, r, steps[i].d);
    AddsSnoc(steps, step, i);
    assert (steps + [step])[i] == steps[i];
  }

  lemma HasStays(db: Db, after: Db, step: Step)
    requires Sane(db) && KeepsNames(db, after) && Has(db, step)
    ensures Has(after, step)
  {
    if step.Import? {
      var t, r :| IsRevision(db, t, r, step.d);
      assert IsRevision(after, t, r, step.d);
    }
  }

  lemma HasMore(db: Db, after: Db, steps: seq<Step>, step: Step)
    requires Sane(db) && KeepsNames(db, after) && Has(after, step) && forall i :: 0 <= i < |steps| ==> Has(db, steps[i])
    ensures forall i :: 0 <= i < |steps + [step]| ==> Has(after, (steps + [step])[i])
  {
    forall i | 0 <= i < |steps + [step]|
      ensures Has(after, (steps + [step])[i])
    {
      if i < |steps| {
        HasStays(db, after, steps[i]);
      }
    }
  }

  /** A step that imports no new revision and teaches nothing keeps what was learned. */
  lemma SameLearned(db: Db, after: Db, steps: seq<Step>, step: Step)
    requires Sane(db) && Learned(db, steps) && SameRevisions(db, after) && Has(after, step)
    requires forall f :: Knows(after, f) <==> Knows(db, f)
    requires !New(steps, step)
    ensures Learned(after, steps + [step])
  {
    forall f
      ensures Knows(after, f) <==> Told(steps + [step], f)
    {
      ToldSnoc(steps, step, f);
    }
    forall r | r in after.revisions
      ensures FromSome(after, r, steps + [step])
    {
      FromStays(db, after, r, steps, step);
    }
    HasMore(db, after, steps, step);
  }

  lemma SameParentRows(db: Db, emptied: Db, after: Db)
    requires KeepsNames(db, emptied) && emptied.revisions.Keys == db.revisions.Keys
    requires after.traces == emptied.traces && after.revisions == emptied.revisions
    ensures SameRevisions(db, after)
  {
  }

  lemma RebuildRows(env: Env, db: Db, t: Id, r: Id, labels: Text, n: Normalization)
    requires Sound(env) && Valid(env, db) && r in db.revisions && db.revisions[r].trace == t
    ensures SameRevisions(db, Rebuild(env, db, t, r, labels, n))
  {
    EmptiedReady(env, db, t, r, n);
    EmptiedRows(db, t, r, n);
    InsertEventsKeep(env, Emptied(db, t, r, n), t, r, labels, n.events, {});
    SameParentRows(db, Emptied(db, t, r, n), Rebuild(env, db, t, r, labels, n));
  }

  lemma CommitRows(env: Env, db: Db, d: Descriptor, n: Normalization, r: Id)
    requires Sound(env) && Valid(env, db) && !Imported(db, d)
    ensures KeepsNames(db, CommitRevision(env, db, d, n))
    ensures r in CommitRevision(env, db, d, n).revisions && r !in db.revisions ==>
      From(CommitRevision(env, db, d, n), r, d)
  {
    var (begun, t, s, labels) := Begun(env, db, d, n);
    BegunReady(env, db, d, n);
    BegunIs(env, db, d, n);
    InsertEventsKeep(env, begun, t, s, labels, n.events, {});
    FillTitleIs(InsertEvents(env, begun, t, s, labels, n.events, {}), t, n.title);
  }

  lemma CommitImported(env: Env, db: Db, d: Descriptor, n: Normalization)
    requires Sound(env) && Valid(env, db) && !Imported(db, d)
    ensures Imported(CommitRevision(env, db, d, n), d)
  {
    var (begun, t, s, labels) := Begun(env, db, d, n);
    BegunReady(env, db, d, n);
    BegunIs(env, db, d, n);
    assert IsRevision(begun, t, s, d);
    InsertEventsKeep(env, begun, t, s, labels, n.events, {});
    FillTitleIs(InsertEvents(env, begun, t, s, labels, n.events, {}), t, n.title);
    assert IsRevision(CommitRevision(env, db, d, n), t, s, d);
  }

  /** A revision the archive does not have is new to the run. */
  lemma NotImported(db: Db, d: Descriptor, n: Normalization, steps: seq<Step>)
    requires Learned(db, steps) && !Imported(db, d)
    ensures New(steps, Import(d, n))
  {
    forall j | 0 <= j < |steps| && steps[j].Import?
      ensures !SameSource(steps[j].d, d)
    {
      assert Has(db, steps[j]);
      var t, r :| IsRevision(db, t, r, steps[j].d);
      if SameSource(steps[j].d, d) {
        assert IsRevision(db, t, r, d);
      }
    }
  }

  lemma CommitLearns(env: Env, db: Db, d: Descriptor, n: Normalization, steps: seq<Step>)
    requires Sound(env) && Valid(env, db) && !Imported(db, d) && Learned(db, steps)
    ensures Learned(CommitRevision(env, db, d, n), steps + [Import(d, n)])
  {
    var after, step := CommitRevision(env, db, d, n), Import(d, n);
    NotImported(db, d, n, steps);
    forall f
      ensures Knows(after, f) <==> Told(steps + [step], f)
    {
      CommitFacts(env, db, d, n, f);
      ToldSnoc(steps, step, f);
    }
    forall r | r in after.revisions
      ensures FromSome(after, r, steps + [step])
    {
      CommitRows(env, db, d, n, r);
      if r in db.revisions {
        FromStays(db, after, r, steps, step);
      } else {
        AddsSnoc(steps, step, |steps|);
      }
    }
    CommitRows(env, db, d, n, 0);
    CommitImported(env, db, d, n);
    HasMore(db, after, steps, step);
  }

  /** The import that added the revision a later one finds again. */
  lemma Source(db: Db, t: Id, r: Id, d: Descriptor, n: Normalization, steps: seq<Step>) returns (i: nat)
    requires Learned(db, steps) && IsRevision(db, t, r, d) && Deterministic(steps + [Import(d, n)])
    ensures Adds(steps, i) && From(db, r, steps[i].d) && SameSource(steps[i].d, d) && steps[i].n.events == n.events
    ensures !New(steps, Import(d, n))
  {
    var more := steps + [Import(d, n)];
    assert FromSome(db, r, steps);
    i :| Adds(steps, i) && From(db, r, steps[i].d);
    assert more[i] == steps[i] && more[|steps|] == Import(d, n);
    assert SameSource(more[i].d, more[|steps|].d);
  }

  lemma BackfillLearned(db: Db, t: Id, r: Id, d: Descriptor, steps: seq<Step>)
    requires Sane(db) && Learned(db, steps)
    ensures Learned(Backfill(db, t, r, d), steps) && SameRevisions(db, Backfill(db, t, r, d))
  {
    var after := Backfill(db, t, r, d);
    BackfillIs(db, t, r, d);
    forall f
      ensures Knows(after, f) <==> Told(steps, f)
    {
      BackfillFacts(db, t, r, d, f);
    }
    BackfillFacts(db, t, r, d, Fact([], [], 0, 0, [], Body(0, 0, [])));
    forall s | s in after.revisions
      ensures FromSome(after, s, steps)
    {
      var i: nat :| Adds(steps, i) && From(db, s, steps[i].d);
      assert From(after, s, steps[i].d);
    }
    forall i | 0 <= i < |steps|
      ensures Has(after, steps[i])
    {
      HasStays(db, after, steps[i]);
    }
  }

  lemma AmongImport(trace: Trace, row: Revision, d: Descriptor, n: Normalization, f: Fact)
    requires trace.harness == d.harness && trace.nativeId == d.nativeId && row.digest == d.revision
    requires row.nativeUpdatedAt == d.Time()
    ensures AmongFacts(trace, row, n.events, f) <==> ImportFact(d, n, f)
  {
  }

  /** What a revision recorded is what its import said. */
  lemma OwnFacts(env: Env, db: Db, r: Id, i: nat, k: Link, steps: seq<Step>)
    requires Valid(env, db) && Learned(db, steps) && Adds(steps, i) && From(db, r, steps[i].d)
    requires Placed(db, k) && k.revision == r
    ensures ImportFact(steps[i].d, steps[i].n, FactOf(db, k))
  {
    var f := FactOf(db, k);
    assert Knows(db, f) && Told(steps, f);
    var j: nat :| Adds(steps, j) && ImportFact(steps[j].d, steps[j].n, f);
    AddsOnce(steps, i, j);
  }

  lemma KnownHow(env: Env, db: Db, r: Id, i: nat, f: Fact, steps: seq<Step>)
    requires Valid(env, db) && Learned(db, steps) && Adds(steps, i) && From(db, r, steps[i].d) && Knows(db, f)
    ensures KnowsApartFrom(db, r, f) || ImportFact(steps[i].d, steps[i].n, f)
  {
    var k :| Placed(db, k) && FactOf(db, k) == f;
    if k.revision == r {
      OwnFacts(env, db, r, i, k, steps);
    }
  }

  /** Parsing a revision again with the same outcome teaches nothing. */
  lemma RebuildSame(env: Env, db: Db, t: Id, r: Id, labels: Text, i: nat, n: Normalization, f: Fact, steps: seq<Step>)
    requires Sound(env) && Valid(env, db) && Learned(db, steps) && Adds(steps, i) && From(db, r, steps[i].d)
    requires t == db.revisions[r].trace && steps[i].n.events == n.events
    ensures Knows(Rebuild(env, db, t, r, labels, n), f) <==> Knows(db, f)
  {
    RebuildFacts(env, db, t, r, labels, n, f);
    AmongImport(db.traces[t], db.revisions[r], steps[i].d, n, f);
    if ImportFact(steps[i].d, n, f) {
      assert ImportFact(steps[i].d, steps[i].n, f);
      assert Told(steps, f);
    }
    if Knows(db, f) {
      KnownHow(env, db, r, i, f, steps);
    }
  }

  lemma RebuildKnows(env: Env, db: Db, t: Id, r: Id, labels: Text, i: nat, n: Normalization, steps: seq<Step>)
    requires Sound(env) && Valid(env, db) && Learned(db, steps) && Adds(steps, i) && From(db, r, steps[i].d)
    requires t == db.revisions[r].trace && steps[i].n.events == n.events
    ensures forall f :: Knows(Rebuild(env, db, t, r, labels, n), f) <==> Knows(db, f)
    ensures SameRevisions(db, Rebuild(env, db, t, r, labels, n))
  {
    forall f
      ensures Knows(Rebuild(env, db, t, r, labels, n), f) <==> Knows(db, f)
    {
      RebuildSame(env, db, t, r, labels, i, n, f, steps);
    }
    RebuildRows(env, db, t, r, labels, n);
  }

  lemma RebuildLearns(env: Env, db: Db, t: Id, r: Id, labels: Text, d: Descriptor, n: Normalization, steps: seq<Step>)
    requires Sound(env) && Valid(env, db) && Learned(db, steps) && IsRevision(db, t, r, d)
    requires Deterministic(steps + [Import(d, n)])
    ensures Learned(Rebuild(env, db, t, r, labels, n), steps + [Import(d, n)])
  {
    var i := Source(db, t, r, d, n, steps);
    RebuildKnows(env, db, t, r, labels, i, n, steps);
    HasStays(db, Rebuild(env, db, t, r, labels, n), Import(d, n));
    SameLearned(db, Rebuild(env, db, t, r, labels, n), steps, Import(d, n));
  }

  lemma SkipLearns(db: Db, steps: seq<Step>, step: Step)
    requires Sane(db) && Learned(db, steps) && Has(db, step) && !New(steps, step)
    ensures Learned(db, steps + [step])
  {
    assert SameRevisions(db, db);
    SameLearned(db, db, steps, step);
  }

  lemma ReimportLearns(env: Env, db: Db, t: Id, r: Id, d: Descriptor, n: Normalization, steps: seq<Step>)
    requires Sound(env) && Valid(env, db) && Learned(db, steps) && IsRevision(db, t, r, d)
    requires Deterministic(steps + [Import(d, n)])
    ensures Learned(Reimport(env, db, t, r, d, n), steps + [Import(d, n)])
  {
    var filled := Backfill(db, t, r, d);
    BackfillKeeps(env, db, t, r, d);
    BackfillLearned(db, t, r, d, steps);
    FilledLearns(env, filled, db.revisions[r].status, t, r, d, n, steps);
  }

  lemma FilledLearns(env: Env, filled: Db, status: Status, t: Id, r: Id, d: Descriptor, n: Normalization,
      steps: seq<Step>)
    requires Sound(env) && Valid(env, filled) && Learned(filled, steps) && IsRevision(filled, t, r, d)
    requires Deterministic(steps + [Import(d, n)])
    ensures var rebuilt := status != Normalized && !Unusable(n) && t in filled.traces;
      Learned(if rebuilt then Rebuild(env, filled, t, r, DescribedLabels(filled.traces[t], d), n) else filled,
        steps + [Import(d, n)])
  {
    if status == Normalized || Unusable(n) {
      var i := Source(filled, t, r, d, n, steps);
      assert Has(filled, Import(d, n));
      SkipLearns(filled, steps, Import(d, n));
    } else {
      RebuildLearns(env, filled, t, r, DescribedLabels(filled.traces[t], d), d, n, steps);
    }
  }

  lemma ImportWhich(env: Env, db: Db, d: Descriptor, n: Normalization) returns (t: Id, r: Id)
    requires Imported(db, d)
    ensures IsRevision(db, t, r, d) && ImportTrace(env, db, d, n) == Reimport(env, db, t, r, d, n)
  {
    t, r :| IsRevision(db, t, r, d) && ImportTrace(env, db, d, n) == Reimport(env, db, t, r, d, n);
  }

  lemma ImportLearns(env: Env, db: Db, d: Descriptor, n: Normalization, steps: seq<Step>)
    requires Sound(env) && Valid(env, db) && Learned(db, steps)
    requires Deterministic(steps + [Import(d, n)])
    ensures Learned(ImportTrace(env, db, d, n), steps + [Import(d, n)])
  {
    if Imported(db, d) {
      var t, r := ImportWhich(env, db, d, n);
      ReimportLearns(env, db, t, r, d, n, steps);
    } else {
      assert ImportTrace(env, db, d, n) == CommitRevision(env, db, d, n);
      CommitLearns(env, db, d, n, steps);
    }
  }

  lemma TitlesLearn(env: Env, db: Db, t: Id, r: Id, title: Text, steps: seq<Step>, step: Step)
    requires Sane(db) && Learned(db, steps) && (step == Titled(t, title) || step == Generated(t, r, title))
    ensures Learned(Apply(env, db, step), steps + [step])
  {
    forall f
      ensures Knows(SetTitleOverride(db, t, title), f) <==> Knows(db, f)
      ensures Knows(SetGeneratedTitle(db, t, r, title), f) <==> Knows(db, f)
    {
      OverrideFacts(db, t, title, f);
      GeneratedFacts(db, t, r, title, f);
    }
    OverrideFacts(db, t, title, Fact([], [], 0, 0, [], Body(0, 0, [])));
    GeneratedFacts(db, t, r, title, Fact([], [], 0, 0, [], Body(0, 0, [])));
    SameLearned(db, Apply(env, db, step), steps, step);
  }

  lemma StepLearns(env: Env, db: Db, steps: seq<Step>, step: Step)
    requires Sound(env) && Valid(env, db) && Learned(db, steps) && Deterministic(steps + [step])
    requires ImportsAndTitles([step])
    ensures Learned(Apply(env, db, step), steps + [step])
  {
    assert [step][0] == step;
    match step
    case Import(d, n) => ImportLearns(env, db, d, n, steps);
    case Titled(t, title) => TitlesLearn(env, db, t, 0, title, steps, step);
    case Generated(t, r, title) => TitlesLearn(env, db, t, r, title, steps, step);
    case _ =>
  }

  lemma {:induction false} RunSnoc(db: Db, turns: seq<Turn>, turn: Turn)
    ensures Run(db, turns + [turn]) == Apply(turn.env, Run(db, turns), turn.step)
    decreases |turns|
  {
    if turns == [] {
      assert [turn][1..] == [] && turns + [turn] == [turn];
    } else {
      assert (turns + [turn])[1..] == turns[1..] + [turn];
      RunSnoc(Apply(turns[0].env, db, turns[0].step), turns[1..], turn);
    }
  }

  lemma Shorter(before: seq<Step>, last: Step)
    requires Deterministic(before + [last]) && ImportsAndTitles(before + [last])
    ensures Deterministic(before) && ImportsAndTitles(before) && ImportsAndTitles([last])
  {
    var more := before + [last];
    assert forall i :: 0 <= i < |before| ==> before[i] == more[i];
    assert more[|before|] == last;
  }

  lemma TurnLearns(env: Env, db: Db, steps: seq<Step>, turn: Turn)
    requires SoundLike(env, turn) && Valid(env, db) && Learned(db, steps) && Deterministic(steps + [turn.step])
    requires ImportsAndTitles([turn.step])
    ensures Learned(Apply(turn.env, db, turn.step), steps + [turn.step])
  {
    ValidLike(env, turn.env, db);
    StepLearns(turn.env, db, steps, turn.step);
  }

  /** After any run of imports and renames from nothing, the archive knows exactly what the
      imports told it. */
  lemma {:induction false} RunLearns(env: Env, turns: seq<Turn>)
    requires AllSound(env, turns) && Deterministic(StepsOf(turns)) && ImportsAndTitles(StepsOf(turns))
    ensures Learned(Run(EMPTY, turns), StepsOf(turns))
    decreases |turns|
  {
    EmptyIsValid(env);
    if turns == [] {
      assert StepsOf(turns) == [];
    } else {
      var before, last := turns[..|turns| - 1], turns[|turns| - 1];
      assert turns == before + [last] && StepsOf(turns) == StepsOf(before) + [last.step];
      Shorter(StepsOf(before), last.step);
      RunLearns(env, before);
      RunKeeps(env, EMPTY, before);
      RunSnoc(EMPTY, before, last);
      TurnLearns(env, Run(EMPTY, before), StepsOf(before), last);
    }
  }

  // ---- Whether the order of imports matters

  /** The same import, but for its clock. */
  predicate Alike(a: Step, b: Step) {
    a.Import? && b.Import? && a.d == b.d.(now := a.d.now) && a.n == b.n
  }

  ghost predicate Covers(a: seq<Step>, b: seq<Step>) {
    forall i :: 0 <= i < |a| && a[i].Import? ==> Made(b, a[i])
  }

  ghost predicate Made(b: seq<Step>, step: Step) {
    exists j :: 0 <= j < |b| && Alike(step, b[j])
  }

  /** Both runs make the same imports, in any order and however often. */
  ghost predicate SameImports(a: seq<Step>, b: seq<Step>) {
    Covers(a, b) && Covers(b, a)
  }

  /** The import has an event with this key. */
  ghost predicate Mentions(step: Step, harness: Text, nativeId: Text, key: Text) {
    && step.Import? && step.d.harness == harness && step.d.nativeId == nativeId
    && exists k :: 0 <= k < |step.n.events| && step.n.events[k].key == key
  }

  /** Every import of the key carries a native time, one revision always the same. */
  ghost predicate Timed(steps: seq<Step>, harness: Text, nativeId: Text, key: Text) {
    && (forall i :: 0 <= i < |steps| && Mentions(steps[i], harness, nativeId, key) ==> steps[i].d.nativeUpdatedAt.Some?)
    && (forall i, j ::
          (0 <= i < |steps| && 0 <= j < |steps| && Mentions(steps[i], harness, nativeId, key) &&
           Mentions(steps[j], harness, nativeId, key)) ==> OneTime(steps[i], steps[j]))
  }

  predicate OneTime(a: Step, b: Step) {
    a.Import? && b.Import? && SameSource(a.d, b.d) ==> a.d.nativeUpdatedAt == b.d.nativeUpdatedAt
  }

  lemma FactMentioned(step: Step, f: Fact)
    requires step.Import? && ImportFact(step.d, step.n, f)
    ensures Mentions(step, f.harness, f.nativeId, f.key)
  {
  }

  lemma FactAgain(a: Step, b: Step, f: Fact)
    requires a.Import? && b.Import? && ImportFact(a.d, a.n, f)
    requires SameSource(a.d, b.d) && a.n.events == b.n.events && a.d.Time() == b.d.Time()
    ensures ImportFact(b.d, b.n, f)
  {
  }

  lemma TimedLater(a: seq<Step>, b: seq<Step>, i: nat, j: nat, f: Fact)
    requires Timed(a, f.harness, f.nativeId, f.key) && Covers(b, a)
    requires i < |a| && j < |b| && a[i].Import? && b[j].Import? && SameSource(a[i].d, b[j].d)
    requires a[i].n.events == b[j].n.events
    requires ImportFact(a[i].d, a[i].n, f)
    ensures a[i].d.Time() == b[j].d.Time()
  {
    assert Made(a, b[j]);
    var k :| 0 <= k < |a| && Alike(b[j], a[k]);
    FactMentioned(a[i], f);
    assert Mentions(a[k], f.harness, f.nativeId, f.key);
  }

  lemma ToldSame(a: seq<Step>, b: seq<Step>, f: Fact)
    requires SameImports(a, b) && Deterministic(b) && Timed(a, f.harness, f.nativeId, f.key) && Told(a, f)
    ensures Told(b, f)
  {
    var i: nat :| Adds(a, i) && ImportFact(a[i].d, a[i].n, f);
    assert Made(b, a[i]);
    var k :| 0 <= k < |b| && Alike(a[i], b[k]);
    var j := Added(b, k);
    TimedLater(a, b, i, j, f);
    FactAgain(a[i], b[j], f);
  }

  lemma TimedToo(a: seq<Step>, b: seq<Step>, harness: Text, nativeId: Text, key: Text)
    requires Covers(b, a) && Timed(a, harness, nativeId, key)
    ensures Timed(b, harness, nativeId, key)
  {
    forall i | 0 <= i < |b| && b[i].Import?
      ensures exists k :: 0 <= k < |a| && Alike(b[i], a[k])
    {
      assert Made(a, b[i]);
    }
    forall i, k | 0 <= i < |b| && 0 <= k < |a| && Alike(b[i], a[k]) && Mentions(b[i], harness, nativeId, key)
      ensures Mentions(a[k], harness, nativeId, key)
    {
    }
  }

  lemma {:induction false} RunKnows(env: Env, turns: seq<Turn>)
    requires AllSound(env, turns) && Deterministic(StepsOf(turns)) && ImportsAndTitles(StepsOf(turns))
    ensures Valid(env, Run(EMPTY, turns)) && forall f :: Knows(Run(EMPTY, turns), f) <==> Told(StepsOf(turns), f)
  {
    EmptyIsValid(env);
    RunKeeps(env, EMPTY, turns);
    RunLearns(env, turns);
  }

  /** The preferred content of an event depends only on the set of imports made, whatever their
      order and clocks, how often they were repeated and what was renamed in between, when every
      import of it carries a native time. */
  lemma OrderIndependent(env: Env, a: seq<Turn>, b: seq<Turn>, e: Id, harness: Text, nativeId: Text)
    returns (f: Fact, d: Id)
    requires AllSound(env, a) && AllSound(env, b) && SameImports(StepsOf(a), StepsOf(b))
    requires ImportsAndTitles(StepsOf(a)) && ImportsAndTitles(StepsOf(b))
    requires Deterministic(StepsOf(a)) && Deterministic(StepsOf(b))
    requires e in Run(EMPTY, a).events && IsTrace(Run(EMPTY, a), Run(EMPTY, a).events[e].trace, harness, nativeId)
    requires Timed(StepsOf(a), harness, nativeId, Run(EMPTY, a).events[e].key)
    ensures Prefers(Run(EMPTY, a), e, f) && Prefers(Run(EMPTY, b), d, f)
  {
    var one, other := Run(EMPTY, a), Run(EMPTY, b);
    RunKnows(env, a);
    RunKnows(env, b);
    TimedToo(StepsOf(a), StepsOf(b), harness, nativeId, one.events[e].key);
    forall g | About(one, e, g)
      ensures Knows(one, g) <==> Knows(other, g)
    {
      if Told(StepsOf(a), g) {
        ToldSame(StepsOf(a), StepsOf(b), g);
      }
      if Told(StepsOf(b), g) {
        ToldSame(StepsOf(b), StepsOf(a), g);
      }
    }
    f, d := PreferredDependsOnFacts(env, one, other, e);
  }
}
