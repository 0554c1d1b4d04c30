/** The rows the session list reads from the tables, with and without a filter. */
module SessionList {
  import opened Utf8
  import opened Lineage
  import opened Cards

  /** An observation of an event, joined to it: time orders event_time, and clock is that time in
      seconds when it is RFC 3339. */
  datatype Seen = Seen(
    observation: nat, event: nat, trace: Id, model: string, role: string, kind: string, tool: string,
    time: int, clock: Option<int>)

  /** A row of observation_revisions. */
  datatype Kept = Kept(observation: nat, revision: nat, text: Text)

  /** A row of revision_machines. */
  datatype Ran = Ran(revision: nat, machine: string)

  /** names has the remote and the paths of each trace's repository. */
  datatype Snapshot = Snapshot(
    traces: Traces, seen: set<Seen>, kept: set<Kept>, revisions: map<nat, Id>, ran: set<Ran>, names: map<Id, set<string>>)

  ghost predicate IsKept(db: Snapshot, s: Seen) {
    exists k :: k in db.kept && k.observation == s.observation
  }

  /** What the archive keeps: references resolve, and every observation is recorded by a revision. */
  ghost predicate Sound(db: Snapshot) {
    && Valid(db.traces)
    && (forall s :: s in db.seen ==> s.trace in db.traces && s.event > 0 && IsKept(db, s))
    && (forall s, t :: s in db.seen && t in db.seen && s.event == t.event ==> s.trace == t.trace)
  }

  /** Empty texts and absent bounds do not filter. */
  datatype Filter = Filter(
    harness: string, model: string, role: string, kind: string, tool: string, after: Option<int>, before: Option<int>,
    machine: string, repository: string)

  /** The filter of an activity row. */
  function ByRange(harness: string, model: string, after: Option<int>, before: Option<int>): Filter {
    Filter(harness, model, "", "", "", after, before, "", "")
  }

  predicate InRange(after: Option<int>, before: Option<int>, time: int) {
    (after.Some? ==> after.value <= time) && (before.Some? ==> time <= before.value)
  }

  predicate Passes(wanted: string, value: string) {
    wanted == "" || wanted == value
  }

  /** needsObservation. */
  predicate NeedsObservation(f: Filter) {
    f.model != "" || f.role != "" || f.kind != "" || f.tool != "" || f.after.Some? || f.before.Some?
  }

  predicate Browsing(f: Filter) {
    !NeedsObservation(f)
  }

  ghost function Home(db: Snapshot, t: Id): Id {
    SessionOf(Links(db.traces), t)
  }

  /** The clause on the trace's own row, and the one on the repository of its session. */
  ghost predicate TracePasses(db: Snapshot, f: Filter, t: Id) {
    && t in db.traces && Passes(f.harness, db.traces[t].harness)
    && (f.repository == "" || (Home(db, t) in db.names && f.repository in db.names[Home(db, t)]))
  }

  predicate ObservationPasses(f: Filter, s: Seen) {
    && Passes(f.model, s.model) && Passes(f.role, s.role) && Passes(f.kind, s.kind) && Passes(f.tool, s.tool)
    && InRange(f.after, f.before, s.time)
  }

  ghost predicate RevisionPasses(db: Snapshot, f: Filter, revision: nat) {
    f.machine == "" || Ran(revision, f.machine) in db.ran
  }

  /** Browsing, some revision of the trace is of the machine. */
  ghost predicate MachinePasses(db: Snapshot, f: Filter, t: Id) {
    f.machine == "" || exists r :: r in db.revisions && db.revisions[r] == t && Ran(r, f.machine) in db.ran
  }

  ghost predicate SeenPasses(db: Snapshot, f: Filter, s: Seen) {
    TracePasses(db, f, s.trace) && ObservationPasses(f, s)
  }

  ghost predicate Selects(db: Snapshot, f: Filter, s: Seen, k: Kept) {
    k.observation == s.observation && SeenPasses(db, f, s) && RevisionPasses(db, f, k.revision)
  }

  ghost function RowFor(db: Snapshot, t: Id, event: nat, text: Text): Row {
    var s := Home(db, t);
    Row(s, if s in db.traces then db.traces[s].updated else 0, t, event, text)
  }

  /** Browsing lists the traces that are their own session; a filter lists observations. */
  ghost function TraceRows(db: Snapshot, f: Filter): set<Row> {
    set t | t in db.traces && Home(db, t) == t && TracePasses(db, f, t) && MachinePasses(db, f, t) ::
      RowFor(db, t, 0, [])
  }

  ghost function SeenRows(db: Snapshot, f: Filter): set<Row> {
    set s, k | s in db.seen && k in db.kept && Selects(db, f, s, k) :: RowFor(db, s.trace, s.event, k.text)
  }

  /** The rows of the list, before the cursor clause; searching, they are always observations. */
  ghost function Rows(db: Snapshot, f: Filter, searching: bool): set<Row> {
    if Browsing(f) && !searching then TraceRows(db, f) else SeenRows(db, f)
  }

  lemma HomeIs(db: Snapshot, t: Id)
    requires Sound(db) && t in db.traces
    ensures Home(db, t) in db.traces && Home(db, t) > 0 && t > 0 && Home(db, Home(db, t)) == Home(db, t)
    ensures db.traces[Home(db, t)].harness == db.traces[t].harness
  {
    SessionInHarness(db.traces, t);
    SessionIsItsOwn(Links(db.traces), t);
  }

  lemma RowsAre(db: Snapshot, f: Filter, searching: bool, r: Row) returns (t: Id)
    requires Sound(db) && r in Rows(db, f, searching)
    ensures t in db.traces && t > 0 && r == RowFor(db, t, r.event, r.text) && r.card == Home(db, t) && r.trace == t
    ensures r.card > 0
    ensures r.event == 0 ==> Home(db, t) == t
    ensures r.event > 0 ==> exists s :: s in db.seen && s.event == r.event && s.trace == t
  {
    if Browsing(f) && !searching {
      t :| t in db.traces && Home(db, t) == t && r == RowFor(db, t, 0, []);
    } else {
      var s, k :| s in db.seen && k in db.kept && Selects(db, f, s, k) && r == RowFor(db, s.trace, s.event, k.text);
      t := s.trace;
    }
    HomeIs(db, t);
  }

  /** The rows of the list are of real sessions: each has one update time, each event one trace. */
  lemma RowsAreUniform(db: Snapshot, f: Filter, searching: bool, test: Test)
    requires Sound(db)
    ensures Uniform(Scan(Rows(db, f, searching), test))
  {
    forall r | r in Rows(db, f, searching)
      ensures r.card > 0 && r.trace > 0
    {
      var t := RowsAre(db, f, searching, r);
    }
    forall r, s | r in Rows(db, f, searching) && s in Rows(db, f, searching) && r.card == s.card
      ensures r.updated == s.updated
      ensures r.event == s.event ==> r.trace == s.trace
    {
      var t := RowsAre(db, f, searching, r);
      var u := RowsAre(db, f, searching, s);
    }
  }

  /** Following every cursor lists each session with a matching row once, in card order, and as many
      cards as there are such sessions. */
  lemma {:induction false} WholeList(db: Snapshot, f: Filter, searching: bool, test: Test, pages: seq<Page>, limit: nat)
    requires Sound(db) && Followed(pages, Scan(Rows(db, f, searching), test), None, limit)
    ensures Exact(AllCards(pages), Scan(Rows(db, f, searching), test), None, None)
    ensures |AllCards(pages)| == |Matching(Scan(Rows(db, f, searching), test))|
  {
    var scan := Scan(Rows(db, f, searching), test);
    RowsAreUniform(db, f, searching, test);
    FollowedIsExact(pages, scan, None, limit);
    ListCounts(AllCards(pages), scan);
  }
}
