/** The three statements Search may use over the archive's tables, and why they find the same rows. */
module SearchPlans {
  import opened Utf8
  import opened Archive
  import opened SearchPaging
  import Regex
  import Narrowing
  import TrigramQuery
  import T = TextChunks

  /** The clauses a query may add on a trace, an observation and a revision. */
  datatype Filters = Filters(trace: Id -> bool, observation: Id -> bool, revision: Id -> bool)

  /** Chunks the index returns. */
  type Hit = seq<Byte> -> bool

  ghost function EventOf(db: Db, k: Link): Id
    requires Keyed(db, k)
  {
    db.observations[k.observation].event
  }

  ghost predicate Passes(db: Db, f: Filters, k: Link) {
    && k in db.recordings && Keyed(db, k) && EventOf(db, k) in db.events
    && f.trace(db.events[EventOf(db, k)].trace) && f.observation(k.observation) && f.revision(k.revision)
  }

  ghost function RowOf(db: Db, k: Link): Row
    requires k in db.recordings && Keyed(db, k)
  {
    Row(EventOf(db, k), k.observation, db.recordings[k].text)
  }

  /** The rows a plain scan of the tables would test. */
  ghost function AllRows(db: Db, f: Filters): set<Row> {
    set k | k in db.recordings && Passes(db, f, k) :: RowOf(db, k)
  }

  ghost predicate Chosen(db: Db, rows: seq<Row>, links: set<Link>) {
    && (forall k :: k in links ==> k in db.recordings && Keyed(db, k) && RowOf(db, k) in rows)
    && (forall r :: r in rows ==> exists k :: k in links && k in db.recordings && Keyed(db, k) && RowOf(db, k) == r)
  }

  ghost predicate HasHit(db: Db, k: Link, hit: Hit)
    requires k in db.recordings
  {
    exists n :: 0 <= n < |db.recordings[k].chunks| && hit(db.recordings[k].chunks[n].content)
  }

  // ---- The three plans

  ghost function SelectiveLinks(db: Db, f: Filters, hit: Hit, max: nat, before: nat): set<Link> {
    set k | k in db.recordings && Passes(db, f, k) && HasHit(db, k, hit) && EventOf(db, k) <= max && EventOf(db, k) < before
  }

  /** selectiveSearchStatement: every indexed chunk, without a limit. */
  ghost predicate Selective(rows: seq<Row>, db: Db, f: Filters, hit: Hit, max: nat, before: nat) {
    && Sorted(rows)
    && Chosen(db, rows, SelectiveLinks(db, f, hit, max, before))
  }

  /** ORDER BY id DESC LIMIT size. */
  ghost predicate Newest(batch: set<nat>, of: set<nat>, size: nat) {
    && batch <= of && |batch| <= size
    && (|batch| < size ==> batch == of)
    && (forall in_, out :: in_ in batch && out in of && out !in batch ==> out < in_)
  }

  /** The inner select of candidateFirstSearchStatement groups indexed chunks by their event column. */
  ghost predicate ChunkPasses(db: Db, f: Filters, hit: Hit, max: nat, before: nat, k: Link, n: nat)
    requires k in db.recordings
  {
    && n < |db.recordings[k].chunks|
    && var chunk := db.recordings[k].chunks[n];
    && hit(chunk.content) && chunk.event <= max && chunk.event < before
    && chunk.event in db.events && f.trace(db.events[chunk.event].trace)
    && k.observation in db.observations && f.observation(k.observation)
    && f.revision(k.revision)
  }

  ghost function CandidateEvents(db: Db, f: Filters, hit: Hit, max: nat, before: nat): set<nat> {
    set k, n | k in db.recordings && 0 <= n < |db.recordings[k].chunks| && ChunkPasses(db, f, hit, max, before, k, n) ::
      db.recordings[k].chunks[n].event
  }

  /** Its outer select joins the batch to indexed chunks again, and to the chunk's observation and
      revision; the trace filters are not repeated. */
  ghost predicate CandidateRow(db: Db, f: Filters, hit: Hit, batch: set<nat>, k: Link) {
    && k in db.recordings && Keyed(db, k) && f.observation(k.observation) && f.revision(k.revision)
    && exists n ::
      (0 <= n < |db.recordings[k].chunks| && hit(db.recordings[k].chunks[n].content) &&
       db.recordings[k].chunks[n].event in batch)
  }

  ghost function CandidateLinks(db: Db, f: Filters, hit: Hit, batch: set<nat>): set<Link> {
    set k | k in db.recordings && CandidateRow(db, f, hit, batch, k)
  }

  ghost predicate CandidateFirst(rows: seq<Row>, db: Db, f: Filters, hit: Hit, max: nat, before: nat, size: nat) {
    && Sorted(rows)
    && exists batch :: Newest(batch, CandidateEvents(db, f, hit, max, before), size) && Chosen(db, rows, CandidateLinks(db, f, hit, batch))
  }

  ghost function PassingLinks(db: Db, f: Filters, batch: set<nat>): set<Link> {
    set k | k in db.recordings && Keyed(db, k) && EventOf(db, k) in batch && f.observation(k.observation) && f.revision(k.revision)
  }

  ghost predicate EventPasses(db: Db, f: Filters, max: nat, before: nat, e: Id) {
    && e in db.events && e <= max && e < before && f.trace(db.events[e].trace)
    && exists k :: Of(db, k, e) && f.observation(k.observation) && f.revision(k.revision)
  }

  ghost function PassingEvents(db: Db, f: Filters, max: nat, before: nat): set<nat> {
    set e | e in db.events && EventPasses(db, f, max, before, e)
  }

  /** eventFirstSearchStatement: events by their filters, then all their rows that pass. */
  ghost predicate EventFirst(rows: seq<Row>, db: Db, f: Filters, max: nat, before: nat, size: nat) {
    && Sorted(rows)
    && exists batch ::
      Newest(batch, PassingEvents(db, f, max, before), size) && Chosen(db, rows, PassingLinks(db, f, batch))
  }

  // ---- Each plan reads what a plain scan would

  /** A text that passes the test has a chunk the index returns. */
  ghost predicate Narrows(db: Db, hit: Hit, test: Test) {
    forall k :: k in db.recordings && test(db.recordings[k].text) ==> HasHit(db, k, hit)
  }

  lemma RowIsListed(db: Db, f: Filters, k: Link)
    requires Passes(db, f, k)
    ensures RowOf(db, k) in AllRows(db, f)
  {
  }

  lemma SelectiveWanted(db: Db, f: Filters, hit: Hit, test: Test, max: nat, before: nat, r: Row) returns (k: Link)
    requires Narrows(db, hit, test) && Wanted(Scan(AllRows(db, f), test, max), r) && r.event < before
    ensures k in SelectiveLinks(db, f, hit, max, before) && RowOf(db, k) == r
  {
    k :| k in db.recordings && Passes(db, f, k) && RowOf(db, k) == r;
  }

  lemma SelectiveIsGood(rows: seq<Row>, db: Db, f: Filters, hit: Hit, test: Test, max: nat, before: nat, size: nat)
    requires Sane(db) && Narrows(db, hit, test) && Selective(rows, db, f, hit, max, before)
    ensures GoodBatch(rows, Scan(AllRows(db, f), test, max), before, size)
  {
    var scan := Scan(AllRows(db, f), test, max);
    var links := SelectiveLinks(db, f, hit, max, before);
    assert Chosen(db, rows, links);
    forall n | 0 <= n < |rows|
      ensures rows[n] in scan.all && 0 < rows[n].event < before && rows[n].event <= max
    {
      assert rows[n] in rows;
      var k :| k in links && RowOf(db, k) == rows[n];
      RowIsListed(db, f, k);
    }
    forall r | Wanted(scan, r) && r.event < before
      ensures r in rows
    {
      var k := SelectiveWanted(db, f, hit, test, max, before, r);
      assert RowOf(db, k) in rows;
    }
  }

  /** A plan that lists exactly the passing rows of a newest batch of events reads a good batch. */
  lemma NewestIsGood(rows: seq<Row>, db: Db, f: Filters, test: Test, max: nat, before: nat, size: nat, batch: set<nat>,
      of: set<nat>)
    requires Consistent(db) && Sorted(rows) && Newest(batch, of, size)
    requires forall n :: 0 <= n < |rows| ==>
      rows[n] in AllRows(db, f) && rows[n].event < before && rows[n].event <= max && rows[n].event in batch
    requires forall e :: e in batch ==> exists n :: 0 <= n < |rows| && rows[n].event == e
    requires forall r {:trigger r in AllRows(db, f)} ::
      r in AllRows(db, f) && test(r.text) && r.event <= max && r.event < before ==>
      r.event in of && (r.event in batch ==> r in rows)
    ensures GoodBatch(rows, Scan(AllRows(db, f), test, max), before, size)
  {
    EventsAreCounted(rows, |rows|);
    assert rows[..|rows|] == rows;
    assert EventsOf(rows) == batch;
    forall n | 0 <= n < |rows|
      ensures 0 < rows[n].event
    {
      var k :| k in db.recordings && Passes(db, f, k) && RowOf(db, k) == rows[n];
    }
    forall r | Wanted(Scan(AllRows(db, f), test, max), r) && r.event < before && Reaches(rows, size, r)
      ensures r in rows
    {
      if Events(rows) >= size {
        assert rows[|rows| - 1].event in batch;
      }
    }
  }

  lemma ChunkEvent(db: Db, k: Link, n: nat)
    requires Sane(db) && k in db.recordings && n < |db.recordings[k].chunks|
    ensures Keyed(db, k) && db.recordings[k].chunks[n].event == EventOf(db, k) && EventOf(db, k) in db.events
  {
    assert GoodRecording(db, k);
  }

  lemma CandidateBounds(db: Db, f: Filters, hit: Hit, max: nat, before: nat, e: nat)
    requires e in CandidateEvents(db, f, hit, max, before)
    ensures e in db.events && e <= max && e < before && f.trace(db.events[e].trace)
  {
    var k, n :| k in db.recordings && 0 <= n < |db.recordings[k].chunks| &&
      ChunkPasses(db, f, hit, max, before, k, n) && db.recordings[k].chunks[n].event == e;
  }

  lemma CandidateChosen(db: Db, f: Filters, hit: Hit, max: nat, before: nat, batch: set<nat>, k: Link)
    requires Sane(db) && batch <= CandidateEvents(db, f, hit, max, before) && k in db.recordings && Keyed(db, k)
    ensures CandidateRow(db, f, hit, batch, k) <==> Passes(db, f, k) && HasHit(db, k, hit) && EventOf(db, k) in batch
    ensures EventOf(db, k) in batch ==> EventOf(db, k) <= max && EventOf(db, k) < before
  {
    if EventOf(db, k) in batch {
      CandidateBounds(db, f, hit, max, before, EventOf(db, k));
    }
    forall n | 0 <= n < |db.recordings[k].chunks| {
      ChunkEvent(db, k, n);
    }
  }

  lemma CandidateShown(db: Db, f: Filters, hit: Hit, max: nat, before: nat, batch: set<nat>, e: nat) returns (k: Link)
    requires Sane(db) && batch <= CandidateEvents(db, f, hit, max, before) && e in batch
    ensures CandidateRow(db, f, hit, batch, k) && EventOf(db, k) == e
  {
    var n;
    k, n :| k in db.recordings && 0 <= n < |db.recordings[k].chunks| && ChunkPasses(db, f, hit, max, before, k, n) &&
      db.recordings[k].chunks[n].event == e;
    ChunkEvent(db, k, n);
  }

  lemma CandidateWanted(db: Db, f: Filters, hit: Hit, max: nat, before: nat, k: Link)
    requires Sane(db) && Passes(db, f, k) && HasHit(db, k, hit) && EventOf(db, k) <= max && EventOf(db, k) < before
    ensures EventOf(db, k) in CandidateEvents(db, f, hit, max, before)
  {
    var n :| 0 <= n < |db.recordings[k].chunks| && hit(db.recordings[k].chunks[n].content);
    ChunkEvent(db, k, n);
    assert ChunkPasses(db, f, hit, max, before, k, n);
  }

  lemma CandidateFirstIsGood(rows: seq<Row>, db: Db, f: Filters, hit: Hit, test: Test, max: nat, before: nat, size: nat)
    requires Sane(db) && Narrows(db, hit, test) && CandidateFirst(rows, db, f, hit, max, before, size)
    ensures GoodBatch(rows, Scan(AllRows(db, f), test, max), before, size)
  {
    var of := CandidateEvents(db, f, hit, max, before);
    var batch :| Newest(batch, of, size) && Chosen(db, rows, CandidateLinks(db, f, hit, batch));
    var links := CandidateLinks(db, f, hit, batch);
    forall n | 0 <= n < |rows|
      ensures rows[n] in AllRows(db, f) && rows[n].event < before && rows[n].event <= max && rows[n].event in batch
    {
      assert rows[n] in rows;
      var k :| k in links && RowOf(db, k) == rows[n];
      CandidateChosen(db, f, hit, max, before, batch, k);
      RowIsListed(db, f, k);
    }
    forall e | e in batch
      ensures exists n :: 0 <= n < |rows| && rows[n].event == e
    {
      var k := CandidateShown(db, f, hit, max, before, batch, e);
      assert k in links && RowOf(db, k) in rows;
    }
    forall r | r in AllRows(db, f) && test(r.text) && r.event <= max && r.event < before
      ensures r.event in of && (r.event in batch ==> r in rows)
    {
      var k :| k in db.recordings && Passes(db, f, k) && RowOf(db, k) == r;
      CandidateWanted(db, f, hit, max, before, k);
      CandidateChosen(db, f, hit, max, before, batch, k);
      assert r.event in batch ==> k in links;
    }
    NewestIsGood(rows, db, f, test, max, before, size, batch, of);
  }

  lemma PassingChosen(db: Db, f: Filters, max: nat, before: nat, batch: set<nat>, k: Link)
    requires batch <= PassingEvents(db, f, max, before)
    ensures k in PassingLinks(db, f, batch) <==> Passes(db, f, k) && EventOf(db, k) in batch
    ensures k in PassingLinks(db, f, batch) ==>
      RowOf(db, k) in AllRows(db, f) && EventOf(db, k) <= max && EventOf(db, k) < before
    ensures Passes(db, f, k) && EventOf(db, k) <= max && EventOf(db, k) < before ==>
      EventOf(db, k) in PassingEvents(db, f, max, before)
  {
    if Passes(db, f, k) {
      assert Of(db, k, EventOf(db, k));
    }
  }

  lemma PassingShown(db: Db, f: Filters, max: nat, before: nat, batch: set<nat>, e: nat) returns (k: Link)
    requires batch <= PassingEvents(db, f, max, before) && e in batch
    ensures k in PassingLinks(db, f, batch) && EventOf(db, k) == e
  {
    assert EventPasses(db, f, max, before, e);
    k :| Of(db, k, e) && f.observation(k.observation) && f.revision(k.revision);
  }

  lemma EventFirstIsGood(rows: seq<Row>, db: Db, f: Filters, test: Test, max: nat, before: nat, size: nat)
    requires Sane(db) && EventFirst(rows, db, f, max, before, size)
    ensures GoodBatch(rows, Scan(AllRows(db, f), test, max), before, size)
  {
    var of := PassingEvents(db, f, max, before);
    var batch :| Newest(batch, of, size) && Chosen(db, rows, PassingLinks(db, f, batch));
    forall n | 0 <= n < |rows|
      ensures rows[n] in AllRows(db, f) && rows[n].event < before && rows[n].event <= max && rows[n].event in batch
    {
      assert rows[n] in rows;
      var k :| k in PassingLinks(db, f, batch) && RowOf(db, k) == rows[n];
      PassingChosen(db, f, max, before, batch, k);
    }
    forall e | e in batch
      ensures exists n :: 0 <= n < |rows| && rows[n].event == e
    {
      var k := PassingShown(db, f, max, before, batch, e);
      assert RowOf(db, k) in rows;
    }
    forall r | r in AllRows(db, f) && test(r.text) && r.event <= max && r.event < before
      ensures r.event in of && (r.event in batch ==> r in rows)
    {
      var k :| k in db.recordings && Passes(db, f, k) && RowOf(db, k) == r;
      PassingChosen(db, f, max, before, batch, k);
    }
    NewestIsGood(rows, db, f, test, max, before, size, batch, of);
  }

  // ---- Whichever plan is used

  datatype Plan = SelectivePlan(hit: Hit) | CandidatePlan(hit: Hit) | EventPlan

  ghost predicate Returns(plan: Plan, rows: seq<Row>, db: Db, f: Filters, max: nat, before: nat, size: nat) {
    match plan
    case SelectivePlan(hit) => Selective(rows, db, f, hit, max, before)
    case CandidatePlan(hit) => CandidateFirst(rows, db, f, hit, max, before, size)
    case EventPlan => EventFirst(rows, db, f, max, before, size)
  }

  ghost predicate Usable(plan: Plan, db: Db, test: Test) {
    plan.EventPlan? || Narrows(db, plan.hit, test)
  }

  /** Every plan reads a batch a page can be collected from. */
  lemma PlanIsGood(plan: Plan, rows: seq<Row>, db: Db, f: Filters, test: Test, max: nat, before: nat, size: nat)
    requires Sane(db) && Usable(plan, db, test) && Returns(plan, rows, db, f, max, before, size)
    ensures GoodBatch(rows, Scan(AllRows(db, f), test, max), before, size)
  {
    match plan
    case SelectivePlan(hit) => SelectiveIsGood(rows, db, f, hit, test, max, before, size);
    case CandidatePlan(hit) => CandidateFirstIsGood(rows, db, f, hit, test, max, before, size);
    case EventPlan => EventFirstIsGood(rows, db, f, test, max, before, size);
  }

  ghost predicate HasMatch(u: Regex.Unicode, re: Regex.Regexp, text: Text) {
    exists i: nat, j: nat :: i <= j <= |text| && Regex.Matches(u, re, text, i, j)
  }

  ghost predicate IndexHit(u: Regex.Unicode, query: seq<TrigramQuery.Fts>, chunk: seq<Byte>) {
    Narrowing.ChunkMatches(u, query, chunk)
  }

  lemma FoundHit(db: Db, k: Link, u: Regex.Unicode, query: seq<TrigramQuery.Fts>)
    requires Sane(db) && k in db.recordings && Narrowing.Found(u, query, db.recordings[k].text)
    ensures HasHit(db, k, chunk => IndexHit(u, query, chunk))
  {
    assert GoodRecording(db, k);
    var text := db.recordings[k].text;
    var n :| 0 <= n < |T.Chunks(text)| && Narrowing.ChunkMatches(u, query, T.Chunks(text)[n]);
    assert db.recordings[k].chunks[n].content == T.Chunks(text)[n];
  }

  /** In every reachable archive the index query of a safe expression narrows the search for it. */
  lemma {:induction false} RegexNarrows(db: Db, u: Regex.Unicode, re: Regex.Regexp, q: TrigramQuery.Query)
    requires Sane(db) && Regex.Standard(u) && Narrowing.Codesearch(u, Narrowing.LowerFoldedLiterals(re), q)
    requires Narrowing.Safe(re)
    ensures Narrows(db, chunk => IndexHit(u, Narrowing.RegexTrigramQuery(re, q), chunk), text => HasMatch(u, re, text))
  {
    forall k | k in db.recordings && HasMatch(u, re, db.recordings[k].text)
      ensures HasHit(db, k, chunk => IndexHit(u, Narrowing.RegexTrigramQuery(re, q), chunk))
    {
      assert GoodRecording(db, k);
      var i: nat, j: nat :| i <= j <= |db.recordings[k].text| && Regex.Matches(u, re, db.recordings[k].text, i, j);
      Narrowing.NarrowingKeepsMatches(u, re, q, db.recordings[k].text, i, j);
      FoundHit(db, k, u, Narrowing.RegexTrigramQuery(re, q));
    }
  }

  /** So does the phrase an exact search asks the index for. */
  lemma ExactNarrows(db: Db, u: Regex.Unicode, wanted: Text)
    requires Sane(db) && Narrowing.Candidate(wanted) != []
    ensures Narrows(db, chunk => IndexHit(u, [TrigramQuery.Phrase(Narrowing.Candidate(wanted))], chunk), text => Within(wanted, text))
  {
    forall k | k in db.recordings && Within(wanted, db.recordings[k].text)
      ensures HasHit(db, k, chunk => IndexHit(u, [TrigramQuery.Phrase(Narrowing.Candidate(wanted))], chunk))
    {
      Narrowing.ExactKeepsMatches(u, wanted, db.recordings[k].text);
      FoundHit(db, k, u, [TrigramQuery.Phrase(Narrowing.Candidate(wanted))]);
    }
  }

  /** A search of one snapshot by one plan: fetch is what its statement returns below a position. */
  ghost predicate Serves(plan: Plan, fetch: nat -> seq<Row>, db: Db, f: Filters, max: nat, size: nat) {
    forall before: nat :: Returns(plan, fetch(before), db, f, max, before, size)
  }

  /** Search with any plan, limit and time budget, following every cursor from one past the newest
      event: exactly the events a plain scan finds, once each, newest first. */
  method SearchAll(ghost plan: Plan, fetch: nat -> seq<Row>, ghost db: Db, ghost f: Filters, test: Test, limit: nat,
      max: nat, expired: (nat, nat) -> bool)
    returns (pages: seq<Page>)
    requires Sane(db) && Usable(plan, db, test) && 0 < limit
    requires Serves(plan, fetch, db, f, max, BatchSize(limit))
    ensures Followed(pages, Scan(AllRows(db, f), test, max), max + 1, limit)
    ensures Exact(AllResults(pages), Scan(AllRows(db, f), test, max), 0, max + 1)
  {
    forall before: nat
      ensures GoodBatch(fetch(before), Scan(AllRows(db, f), test, max), before, BatchSize(limit))
    {
      PlanIsGood(plan, fetch(before), db, f, test, max, before, BatchSize(limit));
    }
    pages := ReadAll(fetch, Scan(AllRows(db, f), test, max), test, limit, max + 1, expired);
    FollowedIsExact(pages, Scan(AllRows(db, f), test, max), max + 1, limit);
  }
}
