/** What the stored search text of an event says: every text of its content, and the labels of its
    trace. So whatever an imported event says, a search for it shows the event. */
module SearchText {
  import U = Utf8
  import opened Archive
  import opened ArchiveSteps
  import opened ArchiveRuns
  import Paging = SearchPaging
  import Plans = SearchPlans

  // ---- Texts joined by new lines

  ghost predicate Has(text: Text, part: Text) {
    U.Within(part, text)
  }

  lemma HasAt(text: Text, part: Text, k: nat)
    requires k + |part| <= |text| && text[k..k + |part|] == part
    ensures Has(text, part)
  {
    assert U.OccursAt(part, text, k);
  }

  lemma HasItself(part: Text)
    ensures Has(part, part)
  {
    HasAt(part, part, 0);
  }

  lemma NoLonger(text: Text, part: Text)
    ensures Has(text, part) ==> |part| <= |text|
  {
  }

  lemma HasMore(before: Text, text: Text, after: Text, part: Text)
    requires Has(text, part)
    ensures Has(before + text + after, part)
  {
    var k: nat :| U.OccursAt(part, text, k);
    assert (before + text + after)[|before| + k..|before| + k + |part|] == text[k..k + |part|];
    HasAt(before + text + after, part, |before| + k);
  }

  lemma HasLeft(text: Text, after: Text, part: Text)
    requires Has(text, part)
    ensures Has(text + after, part)
  {
    HasMore([], text, after, part);
    assert [] + text + after == text + after;
  }

  lemma HasRight(before: Text, text: Text, part: Text)
    requires Has(text, part)
    ensures Has(before + text, part)
  {
    HasMore(before, text, [], part);
    assert before + text + [] == before + text;
  }

  /** A text that one line can say. */
  predicate OneLine(part: Text) {
    part != [] && NEW_LINE !in part
  }

  lemma NotAcross(text: Text, part: Text, k: nat, at: nat)
    requires OneLine(part) && U.OccursAt(part, text, k) && at < |text| && text[at] == NEW_LINE
    ensures at < k || k + |part| <= at
  {
    assert forall i :: 0 <= i < |part| ==> part[i] == text[k..k + |part|][i] == text[k + i];
    assert forall i :: 0 <= i < |part| ==> part[i] in part && k + i != at;
    assert k <= at < k + |part| ==> 0 <= at - k < |part|;
  }

  /** Between two lines nothing more is said. */
  lemma HasOneOf(a: Text, b: Text, part: Text)
    requires OneLine(part)
    ensures Has(a + [NEW_LINE] + b, part) <==> Has(a, part) || Has(b, part)
  {
    var text := a + [NEW_LINE] + b;
    if Has(a, part) {
      HasLeft(a, [NEW_LINE] + b, part);
      assert a + ([NEW_LINE] + b) == text;
    }
    if Has(b, part) {
      HasRight(a + [NEW_LINE], b, part);
    }
    if Has(text, part) {
      var k: nat :| U.OccursAt(part, text, k);
      NotAcross(text, part, k, |a|);
      if k > |a| {
        assert b[k - |a| - 1..k - |a| - 1 + |part|] == text[k..k + |part|];
        HasAt(b, part, k - |a| - 1);
      } else {
        assert a[k..k + |part|] == text[k..k + |part|];
        HasAt(a, part, k);
      }
    }
  }

  lemma {:induction false} JoinHas(parts: seq<Text>, part: Text)
    requires part in parts
    ensures Has(Join(parts), part)
  {
    if part == parts[0] {
      HasItself(part);
      if |parts| > 1 {
        HasLeft(parts[0], [NEW_LINE] + Join(parts[1..]), part);
        assert parts[0] + ([NEW_LINE] + Join(parts[1..])) == Join(parts);
      }
    } else {
      assert part in parts[1..];
      JoinHas(parts[1..], part);
      HasRight(parts[0] + [NEW_LINE], Join(parts[1..]), part);
    }
  }

  ghost predicate OneHas(parts: seq<Text>, part: Text) {
    exists p :: p in parts && Has(p, part)
  }

  lemma {:induction false} JoinHasOne(parts: seq<Text>, part: Text)
    requires OneLine(part)
    ensures Has(Join(parts), part) <==> OneHas(parts, part)
  {
    if |parts| > 1 {
      JoinHasOne(parts[1..], part);
      HasOneOf(parts[0], Join(parts[1..]), part);
      assert forall p :: p in parts <==> p == parts[0] || p in parts[1..];
    } else if |parts| == 1 {
      assert Join(parts) == parts[0];
    } else {
      NoLonger([], part);
    }
  }

  // ---- The text of a recording

  /** The labels a trace is found by. */
  function LabelSet(t: Trace): set<Text> {
    {t.harness, t.title, t.workingDirectory, t.remote, t.root, t.titleOverride, t.generatedTitle} - {[]}
  }

  /** The text has every text of the content. */
  ghost predicate Says(text: Text, body: Body) {
    forall part :: part in body.fields ==> Has(text, part)
  }

  ghost predicate Names(text: Text, row: Trace) {
    forall tag :: tag in LabelSet(row) ==> Has(text, tag)
  }

  ghost predicate SaysSources(text: Text, sources: seq<Text>) {
    forall source :: source in sources ==> Has(text, source)
  }

  /** What one line a text says is said by the content, a source path, or a label. */
  ghost predicate SaysOnly(text: Text, body: Body, sources: seq<Text>, row: Trace) {
    forall part :: OneLine(part) && Has(text, part) ==>
      OneHas(body.fields, part) || OneHas(sources, part) || exists tag :: tag in LabelSet(row) && Has(tag, part)
  }

  lemma ContentSays(body: Body, sources: seq<Text>, after: Text)
    ensures Says(SearchableText(body, sources) + after, body) && SaysSources(SearchableText(body, sources) + after, sources)
  {
    forall part | part in body.fields || part in sources
      ensures Has(SearchableText(body, sources) + after, part)
    {
      assert part in body.fields + sources;
      JoinHas(body.fields + sources, part);
      HasLeft(SearchableText(body, sources), after, part);
    }
  }

  function LabelParts(t: Trace): seq<Text> {
    [t.harness, t.title, t.workingDirectory, t.remote, t.root] + Titles(t.titleOverride) + Titles(t.generatedTitle)
  }

  lemma LabelAmong(t: Trace, tag: Text)
    requires tag != []
    ensures tag in LabelParts(t) <==> tag in LabelSet(t)
  {
    var first := [t.harness, t.title, t.workingDirectory, t.remote, t.root];
    assert first[0] == t.harness && first[1] == t.title && first[2] == t.workingDirectory;
    assert first[3] == t.remote && first[4] == t.root;
    assert forall p :: p in LabelParts(t) <==> p in first || p in Titles(t.titleOverride) || p in Titles(t.generatedTitle);
    assert forall p :: p in first ==> p in {t.harness, t.title, t.workingDirectory, t.remote, t.root};
  }

  lemma LabelsName(before: Text, t: Trace)
    ensures Names(before + Labels(t), t)
  {
    var parts := LabelParts(t);
    forall tag | tag in LabelSet(t)
      ensures Has(before + Labels(t), tag)
    {
      LabelAmong(t, tag);
      JoinHas(parts, tag);
      HasRight(before, Labels(t), tag);
    }
  }

  lemma LabelsOnly(t: Trace, part: Text)
    requires OneLine(part) && Has(Labels(t), part)
    ensures exists tag :: tag in LabelSet(t) && Has(tag, part)
  {
    var parts := LabelParts(t);
    JoinHasOne(parts, part);
    var p :| p in parts && Has(p, part);
    NoLonger(p, part);
    LabelAmong(t, p);
  }

  ghost predicate SaysExactly(text: Text, body: Body, sources: seq<Text>, row: Trace) {
    Says(text, body) && SaysSources(text, sources) && Names(text, row) && SaysOnly(text, body, sources, row)
  }

  /** A new text says the content, the sources and the labels, and nothing else on one line. */
  lemma NewTextSays(body: Body, sources: seq<Text>, t: Trace)
    ensures SaysExactly(SearchableText(body, sources) + [NEW_LINE] + Labels(t), body, sources, t)
  {
    var content := SearchableText(body, sources);
    var text := content + [NEW_LINE] + Labels(t);
    assert text == content + ([NEW_LINE] + Labels(t));
    ContentSays(body, sources, [NEW_LINE] + Labels(t));
    LabelsName(content + [NEW_LINE], t);
    forall part | OneLine(part) && Has(text, part)
      ensures OneHas(body.fields, part) || OneHas(sources, part) || exists tag :: tag in LabelSet(t) && Has(tag, part)
    {
      HasOneOf(content, Labels(t), part);
      if Has(content, part) {
        JoinHasOne(body.fields + sources, part);
      } else {
        LabelsOnly(t, part);
      }
    }
  }

  // ---- Every text along a run

  ghost predicate TextOk(db: Db, k: Link) {
    k in db.recordings && k.observation in db.observations && Says(db.recordings[k].text, db.observations[k.observation].body)
  }

  /** Every recording says what its observation says. */
  ghost predicate AllSay(db: Db) {
    forall k :: k in db.recordings ==> TextOk(db, k)
  }

  /** The recordings left are as they were. */
  ghost predicate FewerTexts(db: Db, after: Db) {
    && (forall k :: k in after.recordings ==>
      k in db.recordings && after.recordings[k].text == db.recordings[k].text && k.observation in after.observations)
    && (forall o :: o in after.observations && o in db.observations ==>
      after.observations[o].body == db.observations[o].body)
  }

  lemma FewerSay(db: Db, after: Db)
    requires AllSay(db) && FewerTexts(db, after)
    ensures AllSay(after)
  {
    forall k | k in after.recordings
      ensures TextOk(after, k)
    {
      assert TextOk(db, k);
    }
  }

  lemma FinishedText(env: Env, db: Db, e: Id, k: Link, labels: Text, event: Event, repeated: bool)
    ensures var after := Finished(env, db, e, k, labels, event, repeated);
      && k in after.recordings
      && after.recordings[k].text ==
        (if k in db.recordings then db.recordings[k].text else SearchableText(event.body, event.sources) + [NEW_LINE] + labels)
  {
  }

  ghost predicate Keeps(db: Db, after: Db, o: Id, k: Link) {
    && ObservationsGrow(db, after, o) && RecordingsGrow(db, after, k)
  }

  lemma GrownSays(db: Db, after: Db, k: Link)
    requires AllSay(db) && Keeps(db, after, k.observation, k) && TextOk(after, k)
    ensures AllSay(after)
  {
    forall j | j in after.recordings
      ensures TextOk(after, j)
    {
      if j != k {
        assert TextOk(db, j);
      }
    }
  }

  /** The text of a link that is there stays. */
  lemma InsertEventText(env: Env, db: Db, t: Id, r: Id, labels: Text, event: Event, seen: set<Id>)
    requires Sound(env) && AllSay(db)
    ensures var (after, o) := InsertEvent(env, db, t, r, labels, event, seen);
      Keeps(db, after, o, Link(o, r)) && TextOk(after, Link(o, r))
    ensures var (after, o) := InsertEvent(env, db, t, r, labels, event, seen);
      Link(o, r) !in db.recordings ==>
        after.recordings[Link(o, r)].text == SearchableText(event.body, event.sources) + [NEW_LINE] + labels
  {
    var (prepared, e, o) := Prepared(env, db, t, event);
    var row := InsertEventIs(env, db, t, r, labels, event, seen);
    PreparedIs(env, db, t, event);
    FinishedText(env, prepared, e, Link(o, r), labels, event, o in seen);
    NewTextOk(db, event, InsertEvent(env, db, t, r, labels, event, seen).0, Link(o, r), labels);
  }

  lemma NewTextOk(db: Db, event: Event, after: Db, k: Link, labels: Text)
    requires AllSay(db) && k in after.recordings && k.observation in after.observations
    requires after.observations[k.observation].body == event.body
    requires k in db.recordings ==> Keeps(db, after, k.observation, k) && after.recordings[k].text == db.recordings[k].text
    requires k !in db.recordings ==>
      after.recordings[k].text == SearchableText(event.body, event.sources) + [NEW_LINE] + labels
    ensures TextOk(after, k)
  {
    ContentSays(event.body, event.sources, [NEW_LINE] + labels);
    assert SearchableText(event.body, event.sources) + ([NEW_LINE] + labels) ==
      SearchableText(event.body, event.sources) + [NEW_LINE] + labels;
    assert k in db.recordings ==> TextOk(db, k);
  }

  lemma {:induction false} InsertEventsSay(env: Env, db: Db, t: Id, r: Id, labels: Text, events: seq<Event>,
      seen: set<Id>)
    requires Sound(env) && AllSay(db)
    ensures AllSay(InsertEvents(env, db, t, r, labels, events, seen))
    decreases |events|
  {
    if events != [] {
      var (after, o) := InsertEvent(env, db, t, r, labels, events[0], seen);
      InsertEventText(env, db, t, r, labels, events[0], seen);
      GrownSays(db, after, Link(o, r));
      InsertEventsSay(env, after, t, r, labels, events[1..], seen + {o});
    }
  }

  lemma CommitSays(env: Env, db: Db, d: Descriptor, n: Normalization)
    requires Sound(env) && Consistent(db) && AllSay(db)
    ensures AllSay(CommitRevision(env, db, d, n))
  {
    var (begun, t, r, labels) := Begun(env, db, d, n);
    BegunIs(env, db, d, n);
    SameSay(db, begun);
    InsertEventsSay(env, begun, t, r, labels, n.events, {});
    SameSay(InsertEvents(env, begun, t, r, labels, n.events, {}), CommitRevision(env, db, d, n));
  }

  lemma SameSay(db: Db, after: Db)
    requires AllSay(db) && after.recordings == db.recordings && after.observations == db.observations
    ensures AllSay(after)
  {
    forall k | k in after.recordings
      ensures TextOk(after, k)
    {
      assert TextOk(db, k);
    }
  }

  lemma RebuildSays(env: Env, db: Db, t: Id, r: Id, labels: Text, n: Normalization)
    requires Sound(env) && Sane(db) && AllSay(db)
    ensures AllSay(Rebuild(env, db, t, r, labels, n))
  {
    var emptied := Emptied(db, t, r, n);
    EmptiedIs(db, t, r, n);
    FewerSay(db, emptied);
    InsertEventsSay(env, emptied, t, r, labels, n.events, {});
    SameSay(InsertEvents(env, emptied, t, r, labels, n.events, {}), Rebuild(env, db, t, r, labels, n));
  }

  lemma RewriteSays(db: Db, texts: map<Link, Text>)
    requires AllSay(db)
    requires forall k :: k in texts && k in db.recordings && k.observation in db.observations ==>
      Says(texts[k], db.observations[k.observation].body)
    ensures AllSay(Rewrite(db, texts))
  {
    forall k | k in db.recordings
      ensures TextOk(Rewrite(db, texts), k)
    {
      assert TextOk(db, k);
    }
  }

  lemma ReindexedText(db: Db, t: Id, k: Link)
    requires k in ReindexedTexts(db, t)
    ensures k in db.recordings && k.observation in db.observations && t in db.traces
    ensures SaysExactly(ReindexedTexts(db, t)[k], db.observations[k.observation].body, db.recordings[k].sources, db.traces[t])
  {
    NewTextSays(db.observations[k.observation].body, db.recordings[k].sources, db.traces[t]);
  }

  lemma ReindexSays(db: Db, t: Id)
    requires AllSay(db)
    ensures AllSay(Reindex(db, t))
  {
    forall k | k in ReindexedTexts(db, t)
      ensures Says(ReindexedTexts(db, t)[k], db.observations[k.observation].body)
    {
      ReindexedText(db, t, k);
    }
    RewriteSays(db, ReindexedTexts(db, t));
  }

  lemma TitlesSay(db: Db, t: Id, r: Id, title: Text)
    requires AllSay(db)
    ensures AllSay(SetTitleOverride(db, t, title)) && AllSay(SetGeneratedTitle(db, t, r, title))
  {
    if t in db.traces {
      UpdateSays(db, t, db.traces[t].(titleOverride := title), true);
      UpdateSays(db, t, db.traces[t].(generatedTitle := title, generatedRevision := r), title != db.traces[t].generatedTitle);
    }
  }

  lemma UpdateSays(db: Db, t: Id, row: Trace, reindex: bool)
    requires AllSay(db)
    ensures AllSay(UpdateTitles(db, t, row, reindex))
  {
    var after := db.(traces := db.traces[t := row]);
    SameSay(db, after);
    ReindexSays(after, t);
  }

  lemma AppendedSays(text: Text, after: Text, body: Body)
    requires Says(text, body)
    ensures Says(text + after, body)
  {
    forall part | part in body.fields
      ensures Has(text + after, part)
    {
      HasLeft(text, after, part);
    }
  }

  lemma BackfillSays(db: Db, t: Id, r: Id, d: Descriptor)
    requires AllSay(db)
    ensures AllSay(Backfill(db, t, r, d))
  {
    if t in db.traces && BackfilledText(db.traces[t], d) != [] {
      var added := [NEW_LINE] + Join(BackfilledText(db.traces[t], d));
      var filled := db.(traces := db.traces[t := Backfilled(db.traces[t], d)]);
      SameSay(db, filled);
      forall k | k in db.recordings && k.revision == r && k.observation in db.observations
        ensures Says(db.recordings[k].text + [NEW_LINE] + Join(BackfilledText(db.traces[t], d)), db.observations[k.observation].body)
      {
        assert TextOk(db, k);
        AppendedSays(db.recordings[k].text, added, db.observations[k.observation].body);
        assert db.recordings[k].text + added == db.recordings[k].text + [NEW_LINE] + Join(BackfilledText(db.traces[t], d));
      }
      RewriteSays(filled, map k | k in db.recordings && k.revision == r ::
        db.recordings[k].text + [NEW_LINE] + Join(BackfilledText(db.traces[t], d)));
    }
  }

  lemma ReimportSays(env: Env, db: Db, t: Id, r: Id, d: Descriptor, n: Normalization)
    requires Sound(env) && Valid(env, db) && IsRevision(db, t, r, d) && AllSay(db)
    ensures AllSay(Reimport(env, db, t, r, d, n))
  {
    var filled := Backfill(db, t, r, d);
    BackfillSays(db, t, r, d);
    if Reimport(env, db, t, r, d, n) != filled {
      BackfillKeeps(env, db, t, r, d);
      RebuildSays(env, filled, t, r, DescribedLabels(filled.traces[t], d), n);
    }
  }

  lemma ImportSays(env: Env, db: Db, d: Descriptor, n: Normalization)
    requires Sound(env) && Valid(env, db) && AllSay(db)
    ensures AllSay(ImportTrace(env, db, d, n))
  {
    if Imported(db, d) {
      var t, r := ImportWhich(env, db, d, n);
      ReimportSays(env, db, t, r, d, n);
    } else {
      CommitSays(env, db, d, n);
    }
  }

  lemma DeleteSays(db: Db, t: Id)
    requires AllSay(db)
    ensures AllSay(DeleteTrace(db, t))
  {
    FewerSay(db, DeleteTrace(db, t));
  }

  lemma StepSays(env: Env, db: Db, step: Step)
    requires Sound(env) && Valid(env, db) && AllSay(db)
    ensures AllSay(Apply(env, db, step))
  {
    match step
    case Import(d, n) => ImportSays(env, db, d, n);
    case Renormalized(r, n) =>
      if Renormalize(env, db, r, n) != db {
        RebuildSays(env, db, db.revisions[r].trace, r, Labels(db.traces[db.revisions[r].trace]), n);
      }
    case Titled(t, title) => TitlesSay(db, t, 0, title);
    case Generated(t, r, title) => TitlesSay(db, t, r, title);
    case Deleted(t) => DeleteSays(db, t);
  }

  /** Over every run of imports, rebuilds, renames and deletes, the search text of every recording has
      every text of its observation. */
  lemma {:induction false} RunSays(env: Env, db: Db, turns: seq<Turn>)
    requires AllSound(env, turns) && Valid(env, db) && AllSay(db)
    ensures AllSay(Run(db, turns))
    decreases |turns|
  {
    if turns != [] {
      var turn := turns[0];
      assert SoundLike(env, turn);
      ValidLike(env, turn.env, db);
      StepSays(turn.env, db, turn.step);
      TurnKeeps(env, db, turn);
      RunSays(env, Apply(turn.env, db, turn.step), turns[1..]);
    }
  }

  // ---- Texts written anew

  /** Reindexing a trace makes every text of it say its content, all sources recorded, and the labels
      the trace has now, and nothing else on one line. */
  lemma ReindexedExactly(db: Db, t: Id, k: Link)
    requires Sane(db) && t in db.traces && k in db.recordings && db.revisions[k.revision].trace == t
    ensures var after := Reindex(db, t);
      && k in after.recordings && after.recordings[k].sources == db.recordings[k].sources
      && SaysExactly(after.recordings[k].text, db.observations[k.observation].body, db.recordings[k].sources, db.traces[t])
  {
    assert GoodRecording(db, k);
    ReindexedText(db, t, k);
  }

  /** The text was made from one of the events. */
  ghost predicate MadeFrom(db: Db, k: Link, events: seq<Event>, row: Trace) {
    && k in db.recordings && k.observation in db.observations
    && exists n :: 0 <= n < |events| && MadeOf(db, k, events[n], row)
  }

  ghost predicate MadeOf(db: Db, k: Link, event: Event, row: Trace)
    requires k in db.recordings && k.observation in db.observations
  {
    && db.observations[k.observation].body == event.body
    && SaysExactly(db.recordings[k].text, event.body, event.sources, row)
  }

  lemma MadeStays(db: Db, after: Db, k: Link, events: seq<Event>, row: Trace)
    requires MadeFrom(db, k, events, row) && k in after.recordings && k.observation in after.observations
    requires after.recordings[k].text == db.recordings[k].text
    requires after.observations[k.observation] == db.observations[k.observation]
    ensures MadeFrom(after, k, events, row)
  {
    var n :| 0 <= n < |events| && MadeOf(db, k, events[n], row);
    assert MadeOf(after, k, events[n], row);
  }

  lemma MadeLater(db: Db, k: Link, events: seq<Event>, row: Trace)
    requires events != [] && MadeFrom(db, k, events[1..], row)
    ensures MadeFrom(db, k, events, row)
  {
    var n :| 0 <= n < |events| - 1 && MadeOf(db, k, events[1..][n], row);
    assert MadeOf(db, k, events[n + 1], row);
  }

  /** A text that is there is not written again. */
  ghost predicate TextsStay(db: Db, after: Db) {
    forall k :: TextOk(db, k) ==>
      && k in after.recordings && k.observation in after.observations
      && after.recordings[k].text == db.recordings[k].text && after.observations[k.observation] == db.observations[k.observation]
  }

  lemma TextsStayTwice(db: Db, middle: Db, after: Db)
    requires AllSay(db) && AllSay(middle) && TextsStay(db, middle) && TextsStay(middle, after)
    ensures TextsStay(db, after)
  {
    forall k | TextOk(db, k)
      ensures TextOk(middle, k)
    {
    }
  }

  lemma InsertEventStays(env: Env, db: Db, t: Id, r: Id, labels: Text, event: Event, seen: set<Id>)
    requires Sound(env) && AllSay(db)
    ensures TextsStay(db, InsertEvent(env, db, t, r, labels, event, seen).0)
  {
    var (prepared, e, o) := Prepared(env, db, t, event);
    var row := InsertEventIs(env, db, t, r, labels, event, seen);
    PreparedIs(env, db, t, event);
    FinishedText(env, prepared, e, Link(o, r), labels, event, o in seen);
  }

  lemma {:induction false} InsertEventsTexts(env: Env, db: Db, t: Id, r: Id, row: Trace, events: seq<Event>,
      seen: set<Id>)
    requires Sound(env) && AllSay(db)
    ensures var after := InsertEvents(env, db, t, r, Labels(row), events, seen);
      TextsStay(db, after) && forall k :: k in after.recordings && k !in db.recordings ==> MadeFrom(after, k, events, row)
    decreases |events|
  {
    if events != [] {
      var (middle, o) := InsertEvent(env, db, t, r, Labels(row), events[0], seen);
      var after := InsertEvents(env, db, t, r, Labels(row), events, seen);
      InsertEventText(env, db, t, r, Labels(row), events[0], seen);
      GrownSays(db, middle, Link(o, r));
      InsertEventStays(env, db, t, r, Labels(row), events[0], seen);
      InsertEventsTexts(env, middle, t, r, row, events[1..], seen + {o});
      TextsStayTwice(db, middle, after);
      forall k | k in after.recordings && k !in db.recordings
        ensures MadeFrom(after, k, events, row)
      {
        if k in middle.recordings {
          FirstMade(env, db, t, r, row, events[0], seen, k);
          assert MadeOf(middle, k, events[0], row);
          assert TextOk(middle, k);
          MadeStays(middle, after, k, events, row);
        } else {
          MadeLater(after, k, events, row);
        }
      }
    }
  }

  lemma FirstMade(env: Env, db: Db, t: Id, r: Id, row: Trace, event: Event, seen: set<Id>, k: Link)
    requires Sound(env) && AllSay(db)
    requires k in InsertEvent(env, db, t, r, Labels(row), event, seen).0.recordings && k !in db.recordings
    ensures var middle := InsertEvent(env, db, t, r, Labels(row), event, seen).0;
      k.observation in middle.observations && MadeOf(middle, k, event, row)
  {
    var (middle, o) := InsertEvent(env, db, t, r, Labels(row), event, seen);
    var e := InsertEventIs(env, db, t, r, Labels(row), event, seen);
    InsertEventText(env, db, t, r, Labels(row), event, seen);
    NewTextSays(event.body, event.sources, row);
  }

  /** The text says the labels a descriptor has. */
  ghost predicate NamesDescribed(text: Text, d: Descriptor) {
    forall tag :: tag in {d.harness, d.title, d.workingDirectory, d.remote, d.root} && tag != [] ==> Has(text, tag)
  }

  function DescribedRow(row: Trace, d: Descriptor): Trace {
    row.(harness := d.harness, title := d.title, workingDirectory := d.workingDirectory, remote := d.remote, root := d.root)
  }

  lemma MadeNames(db: Db, k: Link, events: seq<Event>, row: Trace, d: Descriptor)
    requires MadeFrom(db, k, events, DescribedRow(row, d))
    ensures NamesDescribed(db.recordings[k].text, d)
  {
    var n :| 0 <= n < |events| && MadeOf(db, k, events[n], DescribedRow(row, d));
    forall tag | tag in {d.harness, d.title, d.workingDirectory, d.remote, d.root} && tag != []
      ensures tag in LabelSet(DescribedRow(row, d))
    {
    }
  }

  /** A new revision's texts say its events, and the labels of its descriptor. */
  lemma CommitTexts(env: Env, db: Db, d: Descriptor, n: Normalization, k: Link)
    requires Sound(env) && Valid(env, db) && !Imported(db, d) && AllSay(db)
    requires var after := CommitRevision(env, db, d, n); k in after.recordings && k !in db.recordings
    ensures NamesDescribed(CommitRevision(env, db, d, n).recordings[k].text, d)
  {
    var (begun, t, r, labels) := Begun(env, db, d, n);
    var filled := InsertEvents(env, begun, t, r, labels, n.events, {});
    BegunIs(env, db, d, n);
    BegunReady(env, db, d, n);
    SameSay(db, begun);
    var (named, u) := UpsertTrace(env, db, d);
    assert t in named.traces && labels == Labels(DescribedRow(named.traces[t], d));
    InsertEventsTexts(env, begun, t, r, DescribedRow(named.traces[t], d), n.events, {});
    MadeNames(filled, k, n.events, named.traces[t], d);
  }

  // ---- Backfilling keeps the labels said

  /** Every text of the revision says the labels its trace has. */
  ghost predicate RevisionNamed(db: Db, t: Id, r: Id) {
    t in db.traces && forall k :: k in db.recordings && k.revision == r ==> Names(db.recordings[k].text, db.traces[t])
  }

  /** What is appended are labels the row gains. */
  lemma AppendedAreLabels(row: Trace, d: Descriptor, tag: Text)
    requires tag in BackfilledText(row, d) && tag != []
    ensures tag in LabelSet(Backfilled(row, d)) && Backfilled(row, d) != row
  {
  }

  lemma BackfilledNames(text: Text, row: Trace, d: Descriptor)
    requires Names(text, row)
    ensures BackfilledText(row, d) == [] ==> Names(text, Backfilled(row, d))
    ensures BackfilledText(row, d) != [] ==> Names(text + [NEW_LINE] + Join(BackfilledText(row, d)), Backfilled(row, d))
  {
    var after, added := Backfilled(row, d), BackfilledText(row, d);
    forall tag | tag in LabelSet(after)
      ensures tag in LabelSet(row) || tag in added
    {
      AddedTag(row, d, tag);
    }
    if added != [] {
      forall tag | tag in LabelSet(after)
        ensures Has(text + [NEW_LINE] + Join(added), tag)
      {
        if tag in added {
          JoinHas(added, tag);
          HasRight(text + [NEW_LINE], Join(added), tag);
        } else {
          HasLeft(text, [NEW_LINE] + Join(added), tag);
          assert text + ([NEW_LINE] + Join(added)) == text + [NEW_LINE] + Join(added);
        }
      }
    }
  }

  lemma AddedTag(row: Trace, d: Descriptor, tag: Text)
    requires tag in LabelSet(Backfilled(row, d))
    ensures tag in LabelSet(row) || tag in BackfilledText(row, d)
  {
  }

  /** A revision filled in from its descriptor says what its trace row then has. */
  lemma BackfillNamed(db: Db, t: Id, r: Id, d: Descriptor)
    requires RevisionNamed(db, t, r) && AllSay(db)
    ensures RevisionNamed(Backfill(db, t, r, d), t, r)
    ensures forall tag :: tag in BackfilledText(db.traces[t], d) && tag != [] ==>
      tag in LabelSet(Backfill(db, t, r, d).traces[t]) && Backfill(db, t, r, d).traces[t] != db.traces[t]
  {
    var after := Backfill(db, t, r, d);
    forall tag | tag in BackfilledText(db.traces[t], d) && tag != []
      ensures tag in LabelSet(after.traces[t]) && after.traces[t] != db.traces[t]
    {
      AppendedAreLabels(db.traces[t], d, tag);
    }
    forall k | k in after.recordings && k.revision == r
      ensures Names(after.recordings[k].text, after.traces[t])
    {
      assert TextOk(db, k);
      BackfilledNames(db.recordings[k].text, db.traces[t], d);
    }
  }

  // ---- A search for what an imported event says

  /** A recording that the search's clauses let pass is found by every text of its content. */
  lemma LinkIsFound(db: Db, k: Link, part: Text, f: Plans.Filters, test: Text -> bool, max: Id, results: seq<Paging.Row>)
    requires Sane(db) && TextOk(db, k) && part in db.observations[k.observation].body.fields && Plans.Passes(db, f, k)
    requires Plans.EventOf(db, k) <= max && forall text :: U.Within(part, text) ==> test(text)
    requires Paging.Exact(results, Paging.Scan(Plans.AllRows(db, f), test, max), 0, max + 1)
    ensures exists n :: 0 <= n < |results| && results[n].event == Plans.EventOf(db, k)
  {
    var row := Plans.RowOf(db, k);
    Plans.RowIsListed(db, f, k);
    assert Has(row.text, part);
    assert Paging.Wanted(Paging.Scan(Plans.AllRows(db, f), test, max), row);
    assert Paging.Shown(results, row);
  }

  /** The search has no clause but its text. */
  ghost predicate Unfiltered(f: Plans.Filters) {
    forall id: Id :: f.trace(id) && f.observation(id) && f.revision(id)
  }

  /** The event a fact is about is among the results. */
  ghost predicate ShowsFact(db: Db, f: Fact, results: seq<Paging.Row>) {
    exists n :: 0 <= n < |results| && IsFactEvent(db, f, results[n].event)
  }

  ghost predicate IsFactEvent(db: Db, f: Fact, e: Id) {
    e in db.events && db.events[e].key == f.key && IsTrace(db, db.events[e].trace, f.harness, f.nativeId)
  }

  /** After any run, whatever a known event says finds it. */
  lemma {:induction false} FactIsFound(env: Env, turns: seq<Turn>, fact: Fact, part: Text, f: Plans.Filters,
      test: Text -> bool, max: Id, results: seq<Paging.Row>)
    requires AllSound(env, turns) && Knows(Run(EMPTY, turns), fact) && part in fact.body.fields && Unfiltered(f)
    requires forall e :: e in Run(EMPTY, turns).events ==> e <= max
    requires forall text :: U.Within(part, text) ==> test(text)
    requires Paging.Exact(results, Paging.Scan(Plans.AllRows(Run(EMPTY, turns), f), test, max), 0, max + 1)
    ensures ShowsFact(Run(EMPTY, turns), fact, results)
  {
    var db := Run(EMPTY, turns);
    EmptyIsValid(env);
    RunKeeps(env, EMPTY, turns);
    RunSays(env, EMPTY, turns);
    var k :| Placed(db, k) && FactOf(db, k) == fact;
    assert GoodRecording(db, k) && TextOk(db, k);
    LinkIsFound(db, k, part, f, test, max, results);
    var n :| 0 <= n < |results| && results[n].event == Plans.EventOf(db, k);
    assert IsFactEvent(db, fact, results[n].event);
  }

  /** After any run of imports and renames, a search for any text of an event that an import brought
      shows the event. */
  lemma {:induction false} ImportedIsFound(env: Env, turns: seq<Turn>, i: nat, j: nat, part: Text, f: Plans.Filters,
      test: Text -> bool, max: Id, results: seq<Paging.Row>)
    requires AllSound(env, turns) && Deterministic(StepsOf(turns)) && ImportsAndTitles(StepsOf(turns)) && Unfiltered(f)
    requires i < |turns| && turns[i].step.Import? && j < |turns[i].step.n.events|
    requires part in turns[i].step.n.events[j].body.fields
    requires forall e :: e in Run(EMPTY, turns).events ==> e <= max
    requires forall text :: U.Within(part, text) ==> test(text)
    requires Paging.Exact(results, Paging.Scan(Plans.AllRows(Run(EMPTY, turns), f), test, max), 0, max + 1)
    ensures exists n ::
      && 0 <= n < |results| && results[n].event in Run(EMPTY, turns).events
      && Run(EMPTY, turns).events[results[n].event].key == turns[i].step.n.events[j].key
      && IsTrace(Run(EMPTY, turns), Run(EMPTY, turns).events[results[n].event].trace, turns[i].step.d.harness, turns[i].step.d.nativeId)
  {
    var steps := StepsOf(turns);
    var a := Added(steps, i);
    var d, n := steps[a].d, steps[a].n;
    assert n.events == turns[i].step.n.events;
    var fact := Fact(d.harness, d.nativeId, d.revision, d.Time(), n.events[j].key, n.events[j].body);
    assert ImportFact(d, n, fact);
    assert Told(steps, fact);
    RunKnows(env, turns);
    FactIsFound(env, turns, fact, part, f, test, max, results);
    var m :| 0 <= m < |results| && IsFactEvent(Run(EMPTY, turns), fact, results[m].event);
  }
}
