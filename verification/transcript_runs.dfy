/** When a cached transcript order is wrong: exactly when a trace, a revision and a run get the ids of
    ones that were deleted, and what was cached under those ids is still there. */
module TranscriptRuns {
  import opened Utf8
  import opened Archive
  import opened ArchiveSteps
  import opened ArchiveRuns
  import opened TranscriptViews
  import opened TranscriptCache
  import opened TranscriptReads
  import opened TranscriptShown

  // ---- Event ids never come back

  /** Event ids given from now on are above top. */
  ghost predicate Fresher(env: Env, top: Id) {
    forall used: set<Id> :: env.nextEvent(used) > top
  }

  /** Every event that is there now was there before, in the same trace, or has a new id. */
  ghost predicate EventsFrom(db: Db, after: Db, top: Id) {
    forall e :: e in after.events ==> e > top || (e in db.events && after.events[e].trace == db.events[e].trace)
  }

  lemma NewId(env: Env, db: Db, t: Id, r: Id, labels: Text, event: Event, seen: set<Id>, top: Id, e: Id)
    requires Sound(env) && Fresher(env, top)
    requires e in InsertEvent(env, db, t, r, labels, event, seen).0.events && e !in db.events
    ensures e > top
  {
    var (prepared, row, o) := Prepared(env, db, t, event);
    assert e in prepared.events;
    assert e in InsertEventRow(env, db, t, event.key, event.body.time).0.events;
  }

  lemma {:induction false} NewIds(env: Env, db: Db, t: Id, r: Id, labels: Text, events: seq<Event>, seen: set<Id>,
      top: Id, e: Id)
    requires Sound(env) && Fresher(env, top)
    requires e in InsertEvents(env, db, t, r, labels, events, seen).events && e !in db.events
    ensures e > top
    decreases |events|
  {
    if events != [] {
      var (after, o) := InsertEvent(env, db, t, r, labels, events[0], seen);
      if e in after.events {
        NewId(env, db, t, r, labels, events[0], seen, top, e);
      } else {
        NewIds(env, after, t, r, labels, events[1..], seen + {o}, top, e);
      }
    }
  }

  lemma {:induction false} InsertedFrom(env: Env, db: Db, t: Id, r: Id, labels: Text, events: seq<Event>, top: Id)
    requires Sound(env) && Fresher(env, top)
    ensures EventsFrom(db, InsertEvents(env, db, t, r, labels, events, {}), top)
  {
    var after := InsertEvents(env, db, t, r, labels, events, {});
    InsertEventsStay(env, db, t, r, labels, events, {});
    forall e | e in after.events && e !in db.events
      ensures e > top
    {
      NewIds(env, db, t, r, labels, events, {}, top, e);
    }
  }

  lemma FromSame(db: Db, begun: Db, after: Db, top: Id)
    requires begun.events == db.events && EventsFrom(begun, after, top)
    ensures EventsFrom(db, after, top)
  {
  }

  lemma CommitFrom(env: Env, db: Db, d: Descriptor, n: Normalization, top: Id)
    requires Sound(env) && Valid(env, db) && Fresher(env, top)
    ensures EventsFrom(db, CommitRevision(env, db, d, n), top)
  {
    var (begun, t, r, labels) := Begun(env, db, d, n);
    BegunIs(env, db, d, n);
    var filled := InsertEvents(env, begun, t, r, labels, n.events, {});
    InsertedFrom(env, begun, t, r, labels, n.events, top);
    FromSame(db, begun, filled, top);
    FromSame(db, db, FillTitle(filled, t, n.title), top);
  }

  lemma PrunedFrom(env: Env, db: Db, filled: Db, t: Id, top: Id)
    requires EventsFrom(db, filled, top)
    ensures EventsFrom(db, Pruned(Resettled(env, filled, t), t), top)
  {
  }

  lemma RebuildFrom(env: Env, db: Db, t: Id, r: Id, labels: Text, n: Normalization, top: Id)
    requires Sound(env) && Valid(env, db) && Fresher(env, top) && r in db.revisions && db.revisions[r].trace == t
    ensures EventsFrom(db, Rebuild(env, db, t, r, labels, n), top)
  {
    var emptied := Emptied(db, t, r, n);
    EmptiedRows(db, t, r, n);
    InsertedFrom(env, emptied, t, r, labels, n.events, top);
    var filled := InsertEvents(env, emptied, t, r, labels, n.events, {});
    FromSame(db, emptied, filled, top);
    PrunedFrom(env, db, filled, t, top);
  }

  lemma BackfillEvents(db: Db, t: Id, r: Id, d: Descriptor)
    ensures Backfill(db, t, r, d).events == db.events
  {
  }

  lemma FilledFrom(env: Env, filled: Db, t: Id, r: Id, d: Descriptor, n: Normalization, top: Id,
      events: map<Id, EventRow>)
    requires Sound(env) && Valid(env, filled) && Fresher(env, top) && events == filled.events
    requires r in filled.revisions && filled.revisions[r].trace == t && t in filled.traces
    ensures EventsFrom(EMPTY.(events := events), Rebuild(env, filled, t, r, DescribedLabels(filled.traces[t], d), n), top)
  {
    RebuildFrom(env, filled, t, r, DescribedLabels(filled.traces[t], d), n, top);
  }

  lemma ReimportFrom(env: Env, db: Db, t: Id, r: Id, d: Descriptor, n: Normalization, top: Id)
    requires Sound(env) && Valid(env, db) && Fresher(env, top) && IsRevision(db, t, r, d)
    ensures EventsFrom(db, Reimport(env, db, t, r, d, n), top)
  {
    var filled := Backfill(db, t, r, d);
    BackfillEvents(db, t, r, d);
    if Reimport(env, db, t, r, d, n) != filled {
      BackfillKeeps(env, db, t, r, d);
      BackfillIs(db, t, r, d);
      FilledFrom(env, filled, t, r, d, n, top, db.events);
    }
  }

  lemma ImportAgainFrom(env: Env, sys: Sys, t: Id, r: Id, d: Descriptor, n: Normalization, top: Id)
    requires Sound(env) && Valid(env, sys.db) && Fresher(env, top) && IsRevision(sys.db, t, r, d)
    ensures EventsFrom(sys.db, ImportAgain(env, sys, t, r, d, n).db, top)
  {
    ReimportFrom(env, sys.db, t, r, d, n, top);
  }

  lemma ImportNewFrom(env: Env, sys: Sys, d: Descriptor, n: Normalization, top: Id)
    requires Sound(env) && Valid(env, sys.db) && Fresher(env, top)
    ensures EventsFrom(sys.db, ImportNew(env, sys, d, n).db, top)
  {
    CommitFrom(env, sys.db, d, n, top);
  }

  lemma ImportFrom(env: Env, sys: Sys, d: Descriptor, n: Normalization, top: Id)
    requires Sound(env) && Valid(env, sys.db) && Fresher(env, top)
    ensures EventsFrom(sys.db, ImportSys(env, sys, d, n).db, top)
  {
    if Imported(sys.db, d) {
      var t, r := WhichImport(env, sys, d, n);
      ImportAgainFrom(env, sys, t, r, d, n, top);
    } else {
      ImportNewFrom(env, sys, d, n, top);
    }
  }

  lemma WhichImport(env: Env, sys: Sys, d: Descriptor, n: Normalization) returns (t: Id, r: Id)
    requires Imported(sys.db, d)
    ensures IsRevision(sys.db, t, r, d) && ImportSys(env, sys, d, n) == ImportAgain(env, sys, t, r, d, n)
  {
    t, r :| IsRevision(sys.db, t, r, d) && ImportSys(env, sys, d, n) == ImportAgain(env, sys, t, r, d, n);
  }

  lemma RenormalizeFrom(env: Env, sys: Sys, r: Id, n: Normalization, top: Id)
    requires Sound(env) && Valid(env, sys.db) && Fresher(env, top)
    ensures EventsFrom(sys.db, RenormalizeSys(env, sys, r, n).db, top)
  {
    if r in sys.db.revisions && sys.db.revisions[r].trace in sys.db.traces && !Unusable(n) {
      RebuildFrom(env, sys.db, sys.db.revisions[r].trace, r, Labels(sys.db.traces[sys.db.revisions[r].trace]), n, top);
    }
  }

  lemma TitlesFrom(db: Db, t: Id, r: Id, title: Text, top: Id)
    ensures EventsFrom(db, SetTitleOverride(db, t, title), top)
    ensures EventsFrom(db, SetGeneratedTitle(db, t, r, title), top)
  {
  }

  lemma AfterFrom(env: Env, sys: Sys, turn: Turn, top: Id)
    requires SoundLike(env, turn) && Valid(env, sys.db) && Fresher(turn.env, top)
    ensures EventsFrom(sys.db, After(sys, turn).db, top)
  {
    ValidLike(env, turn.env, sys.db);
    match turn.step
    case Import(d, n) => ImportFrom(turn.env, sys, d, n, top);
    case Renormalized(r, n) => RenormalizeFrom(turn.env, sys, r, n, top);
    case Titled(t, title) => TitlesFrom(sys.db, t, 0, title, top);
    case Generated(t, r, title) => TitlesFrom(sys.db, t, r, title, top);
    case Deleted(t) =>
  }

  // ---- What is cached along a run

  /** The events listed were all deleted. */
  ghost predicate Gone(db: Db, ids: seq<Id>) {
    forall e :: e in ids ==> e !in db.events
  }

  ghost predicate OfTrace(db: Db, t: Id, ids: seq<Id>) {
    forall e :: e in ids && e in db.events ==> db.events[e].trace == t
  }

  /** A cached order of a transcript that is there. */
  ghost predicate Live(sys: Sys, order: Order, k: Key, ids: seq<Id>) {
    Exists(sys.db, k.view) && Holds(sys, order, k.view, k.generation, ids) && OfTrace(sys.db, k.view.trace, ids)
  }

  ghost predicate GoneOrLive(sys: Sys, order: Order, k: Key, ids: seq<Id>) {
    Gone(sys.db, ids) || Live(sys, order, k, ids)
  }

  ghost predicate TrackedAt(sys: Sys, order: Order, items: map<Key, seq<Id>>, top: Id, k: Key)
    requires k in items
  {
    (forall e :: e in items[k] ==> e <= top) && GoneOrLive(sys, order, k, items[k])
  }

  /** No event is newer than top, and every cached order is live or its events are gone. */
  ghost predicate Tracked(sys: Sys, order: Order, items: map<Key, seq<Id>>, top: Id) {
    && (forall e :: e in sys.db.events ==> e <= top)
    && forall k {:trigger TrackedAt(sys, order, items, top, k)} :: k in items ==> TrackedAt(sys, order, items, top, k)
  }

  lemma GoneStays(db: Db, after: Db, ids: seq<Id>, top: Id)
    requires EventsFrom(db, after, top) && Gone(db, ids) && forall e :: e in ids ==> e <= top
    ensures Gone(after, ids)
  {
  }

  lemma OfTraceStays(db: Db, after: Db, t: Id, ids: seq<Id>, top: Id)
    requires EventsFrom(db, after, top) && OfTrace(db, t, ids) && forall e :: e in ids ==> e <= top
    ensures OfTrace(after, t, ids)
  {
  }

  /** Traces and revisions stay, with every transcript. */
  ghost predicate KeepsRows(db: Db, after: Db) {
    && db.traces.Keys <= after.traces.Keys
    && forall r :: r in db.revisions ==> r in after.revisions && after.revisions[r].trace == db.revisions[r].trace
  }

  lemma NamesKeep(db: Db, after: Db)
    requires KeepsNames(db, after)
    ensures KeepsRows(db, after)
  {
  }

  lemma StepRows(env: Env, sys: Sys, turn: Turn)
    requires SoundLike(env, turn) && Valid(env, sys.db) && !turn.step.Deleted?
    ensures KeepsRows(sys.db, After(sys, turn).db)
  {
    ValidLike(env, turn.env, sys.db);
    match turn.step
    case Import(d, n) =>
      ImportNames(turn.env, sys, d, n);
      NamesKeep(sys.db, After(sys, turn).db);
    case Renormalized(r, n) =>
      RenormalizeNames(turn.env, sys, r, n);
      NamesKeep(sys.db, After(sys, turn).db);
    case Titled(t, title) => TitleKeeps(sys.db, t, 0, title);
    case Generated(t, r, title) => TitleKeeps(sys.db, t, r, title);
  }

  lemma TitleKeeps(db: Db, t: Id, r: Id, title: Text)
    ensures KeepsRows(db, SetTitleOverride(db, t, title)) && KeepsRows(db, SetGeneratedTitle(db, t, r, title))
  {
    TitlesUnseen(db, t, r, title);
  }

  lemma NamedExists(db: Db, after: Db, v: View)
    requires KeepsRows(db, after) && Exists(db, v)
    ensures Exists(after, v)
  {
  }

  lemma DeleteExists(env: Env, db: Db, t: Id, v: View)
    requires Valid(env, db) && Exists(db, v) && t != v.trace
    ensures Exists(DeleteTrace(db, t), v)
  {
  }

  /** Nothing but deleting its trace takes a transcript away. */
  lemma StillExists(env: Env, sys: Sys, turn: Turn, v: View)
    requires SoundLike(env, turn) && Valid(env, sys.db) && Exists(sys.db, v)
    requires turn.step.Deleted? ==> turn.step.trace != v.trace
    ensures Exists(After(sys, turn).db, v)
  {
    if turn.step.Deleted? {
      DeleteExists(env, sys.db, turn.step.trace, v);
    } else {
      StepRows(env, sys, turn);
      NamedExists(sys.db, After(sys, turn).db, v);
    }
  }

  lemma ImportAgainNames(env: Env, sys: Sys, t: Id, r: Id, d: Descriptor, n: Normalization)
    requires Sound(env) && Valid(env, sys.db) && IsRevision(sys.db, t, r, d)
    ensures KeepsNames(sys.db, ImportAgain(env, sys, t, r, d, n).db)
  {
    ReimportWrote(env, sys.db, t, r, d, n);
  }

  lemma ImportNewNames(env: Env, sys: Sys, d: Descriptor, n: Normalization)
    requires Sound(env) && Valid(env, sys.db)
    requires !Imported(sys.db, d)
    ensures KeepsNames(sys.db, ImportNew(env, sys, d, n).db)
  {
    CommitWrote(env, sys.db, d, n);
  }

  lemma ImportNames(env: Env, sys: Sys, d: Descriptor, n: Normalization)
    requires Sound(env) && Valid(env, sys.db)
    ensures KeepsNames(sys.db, ImportSys(env, sys, d, n).db)
  {
    if Imported(sys.db, d) {
      var t, r := WhichImport(env, sys, d, n);
      ImportAgainNames(env, sys, t, r, d, n);
    } else {
      ImportNewNames(env, sys, d, n);
    }
  }

  lemma RenormalizeNames(env: Env, sys: Sys, r: Id, n: Normalization)
    requires Sound(env) && Valid(env, sys.db)
    ensures KeepsNames(sys.db, RenormalizeSys(env, sys, r, n).db)
  {
    if r in sys.db.revisions && sys.db.revisions[r].trace in sys.db.traces && !Unusable(n) {
      var t := sys.db.revisions[r].trace;
      RebuildWrote(env, sys.db, t, r, Labels(sys.db.traces[t]), n);
    }
  }

  /** A delete keeps the orders of the traces that stay. */
  lemma DeleteHolds(env: Env, sys: Sys, t: Id, order: Order, v: View, g: Id, ids: seq<Id>)
    requires Valid(env, sys.db) && Holds(sys, order, v, g, ids) && Exists(sys.db, v) && v.trace != t
    ensures Holds(DeleteSys(sys, t), order, v, g, ids)
  {
    var after := DeleteSys(sys, t);
    assert Exists(after.db, v);
    DeleteLeaves(env, sys.db, t, v);
    SameGeneration(sys, after, v);
    assert RunIds(after, v) <= after.runs.Keys;
  }

  lemma LiveStays(env: Env, sys: Sys, turn: Turn, order: Order, k: Key, ids: seq<Id>, top: Id)
    requires SoundLike(env, turn) && Valid(env, sys.db) && RunsOk(sys) && Fresher(turn.env, top)
    requires Live(sys, order, k, ids) && (forall e :: e in ids ==> e <= top)
    requires turn.step.Deleted? ==> turn.step.trace != k.view.trace
    ensures Live(After(sys, turn), order, k, ids)
  {
    AfterFrom(env, sys, turn, top);
    OfTraceStays(sys.db, After(sys, turn).db, k.view.trace, ids, top);
    StillExists(env, sys, turn, k.view);
    if turn.step.Deleted? {
      DeleteHolds(env, sys, turn.step.trace, order, k.view, k.generation, ids);
    } else {
      StepStays(env, sys, turn, order, k.view, k.generation, ids);
    }
  }

  /** Deleting its trace takes all events of an order. */
  lemma DeletedIsGone(db: Db, t: Id, ids: seq<Id>)
    requires OfTrace(db, t, ids)
    ensures Gone(DeleteTrace(db, t), ids)
  {
  }

  lemma OwnDeleted(sys: Sys, turn: Turn, ids: seq<Id>)
    requires turn.step.Deleted? && OfTrace(sys.db, turn.step.trace, ids)
    ensures Gone(After(sys, turn).db, ids)
  {
    DeletedIsGone(sys.db, turn.step.trace, ids);
  }

  lemma GoneTracked(env: Env, sys: Sys, turn: Turn, ids: seq<Id>, top: Id)
    requires SoundLike(env, turn) && Valid(env, sys.db) && Fresher(turn.env, top)
    requires (forall e :: e in ids ==> e <= top) && Gone(sys.db, ids)
    ensures Gone(After(sys, turn).db, ids)
  {
    AfterFrom(env, sys, turn, top);
    GoneStays(sys.db, After(sys, turn).db, ids, top);
  }

  lemma StaysTracked(env: Env, sys: Sys, turn: Turn, order: Order, k: Key, ids: seq<Id>, top: Id)
    requires SoundLike(env, turn) && Valid(env, sys.db) && RunsOk(sys) && Fresher(turn.env, top)
    requires (forall e :: e in ids ==> e <= top) && GoneOrLive(sys, order, k, ids)
    ensures GoneOrLive(After(sys, turn), order, k, ids)
  {
    if Gone(sys.db, ids) {
      GoneTracked(env, sys, turn, ids, top);
    } else if turn.step == Deleted(k.view.trace) {
      OwnDeleted(sys, turn, ids);
    } else {
      LiveStays(env, sys, turn, order, k, ids, top);
    }
  }

  lemma TrackedStaysAt(env: Env, sys: Sys, turn: Turn, order: Order, items: map<Key, seq<Id>>, top: Id, next: Id,
      k: Key)
    requires SoundLike(env, turn) && Valid(env, sys.db) && RunsOk(sys) && Fresher(turn.env, top) && top <= next
    requires k in items && TrackedAt(sys, order, items, top, k)
    ensures TrackedAt(After(sys, turn), order, items, next, k)
  {
    StaysTracked(env, sys, turn, order, k, items[k], top);
  }

  ghost function Above(top: Id, db: Db): (next: Id)
    ensures top <= next && forall e :: e in db.events ==> e <= next
  {
    var newest := Newest(db.events.Keys);
    if newest > top then newest else top
  }

  /** Every transaction keeps the cache tracked, deletes of the newest run included. */
  lemma TrackedStays(env: Env, sys: Sys, turn: Turn, order: Order, items: map<Key, seq<Id>>, top: Id)
    requires SoundLike(env, turn) && Valid(env, sys.db) && RunsOk(sys) && Fresher(turn.env, top)
    requires Tracked(sys, order, items, top)
    ensures Tracked(After(sys, turn), order, items, Above(top, After(sys, turn).db))
  {
    forall k | k in items
      ensures TrackedAt(After(sys, turn), order, items, Above(top, After(sys, turn).db), k)
    {
      assert TrackedAt(sys, order, items, top, k);
      TrackedStaysAt(env, sys, turn, order, items, top, Above(top, After(sys, turn).db), k);
    }
  }

  // ---- The condition

  /** The trace and revision a transaction records a run for. */
  ghost function Written(sys: Sys, turn: Turn): (w: Option<(Id, Id)>)
    ensures w.Some? ==> turn.step.Import? || turn.step.Renormalized?
  {
    match turn.step
    case Import(d, n) =>
      if t, r :| IsRevision(sys.db, t, r, d) then
        if sys.db.revisions[r].status == Normalized then None else Some((t, r))
      else
        var (begun, t, r, labels) := Begun(turn.env, sys.db, d, n);
        Some((t, r))
    case Renormalized(r, n) =>
      if r in sys.db.revisions && sys.db.revisions[r].trace in sys.db.traces then Some((sys.db.revisions[r].trace, r))
      else None
    case _ => None
  }

  /** An order is cached under the ids that the transaction gives to revision r's transcript, unless
      it is empty and so is what will be shown. */
  ghost predicate Taken(sys: Sys, n: Normalization, r: Id, items: map<Key, seq<Id>>, v: View) {
    var k := Key(v, Newest(sys.runs.Keys) + 1);
    k in items && !(items[k] == [] && !WillShow(sys.db, n, r, v))
  }

  ghost predicate TakesNone(sys: Sys, turn: Turn, items: map<Key, seq<Id>>) {
    Written(sys, turn).Some? ==>
      var (t, r) := Written(sys, turn).value;
      !Taken(sys, turn.step.n, r, items, Whole(t)) && !Taken(sys, turn.step.n, r, items, Single(t, r))
  }

  ghost predicate Current(sys: Sys, k: Key) {
    Exists(sys.db, k.view) && k.generation == Generation(sys, k.view)
  }

  /** What a transaction does to the transcripts: nothing but to those of the revision it writes,
      which get a new generation. */
  ghost predicate Moves(sys: Sys, after: Sys, written: Option<(Id, Id)>) {
    && (forall v: View {:trigger Exists(after.db, v)} ::
      Exists(after.db, v) && (written.None? || !Concerns(v, written.value.0, written.value.1)) ==>
      (Exists(sys.db, v) && Entries(after.db, v) == Entries(sys.db, v) && Generation(after, v) == Generation(sys, v)))
    && (written.Some? ==> MovesTo(sys, after, written.value.0, written.value.1))
  }

  ghost predicate MovesTo(sys: Sys, after: Sys, t: Id, r: Id) {
    forall v: View {:trigger Exists(after.db, v)} :: Concerns(v, t, r) ==>
      (Exists(after.db, v) && Generation(after, v) == Newest(sys.runs.Keys) + 1)
  }

  lemma WroteMoves(env: Env, sys: Sys, after: Db, t: Id, r: Id)
    requires Wrote(sys.db, after, t, r) && Valid(env, sys.db) && Valid(env, after) && RunsOk(sys)
    ensures Moves(sys, Ran(after, sys.runs, r), Some((t, r)))
  {
    var ran := Ran(after, sys.runs, r);
    forall v: View | Concerns(v, t, r)
      ensures Exists(ran.db, v) && Generation(ran, v) == Newest(sys.runs.Keys) + 1
    {
      WroteHere(sys, after, t, r, v);
    }
    forall v: View | Exists(ran.db, v) && !Concerns(v, t, r)
      ensures Exists(sys.db, v) && Entries(ran.db, v) == Entries(sys.db, v) && Generation(ran, v) == Generation(sys, v)
    {
      WroteElsewhere(sys, after, t, r, v);
    }
  }

  lemma UnseenMoves(sys: Sys, after: Db)
    requires Unseen(sys.db, after)
    ensures Moves(sys, Sys(after, sys.runs), None)
  {
    forall v: View | Exists(after, v)
      ensures Exists(sys.db, v) && Entries(after, v) == Entries(sys.db, v)
      ensures Generation(Sys(after, sys.runs), v) == Generation(sys, v)
    {
      SameGeneration(sys, Sys(after, sys.runs), v);
    }
  }

  lemma DeleteMoves(env: Env, sys: Sys, t: Id)
    requires Valid(env, sys.db)
    ensures Moves(sys, DeleteSys(sys, t), None)
  {
    var after := DeleteSys(sys, t);
    forall v: View | Exists(after.db, v)
      ensures Exists(sys.db, v) && Entries(after.db, v) == Entries(sys.db, v)
      ensures Generation(after, v) == Generation(sys, v)
    {
      DeleteLeaves(env, sys.db, t, v);
      SameGeneration(sys, after, v);
    }
  }

  lemma RenormalizeMoves(env: Env, sys: Sys, r: Id, n: Normalization)
    requires Sound(env) && Valid(env, sys.db) && RunsOk(sys)
    requires r in sys.db.revisions && sys.db.revisions[r].trace in sys.db.traces
    ensures Moves(sys, RenormalizeSys(env, sys, r, n), Some((sys.db.revisions[r].trace, r)))
  {
    var t := sys.db.revisions[r].trace;
    RenormalizeKeeps(env, sys.db, r, n);
    if Unusable(n) {
      TextsUnseen(sys.db, sys.db);
      UnseenWrote(sys.db, sys.db, t, r);
    } else {
      RebuildWrote(env, sys.db, t, r, Labels(sys.db.traces[t]), n);
    }
    WroteMoves(env, sys, Renormalize(env, sys.db, r, n), t, r);
  }

  lemma ReimportMoves(env: Env, sys: Sys, t: Id, r: Id, d: Descriptor, n: Normalization)
    requires Sound(env) && Valid(env, sys.db) && RunsOk(sys) && IsRevision(sys.db, t, r, d)
    ensures Moves(sys, ImportAgain(env, sys, t, r, d, n), if sys.db.revisions[r].status == Normalized then None else Some((t, r)))
  {
    if sys.db.revisions[r].status == Normalized {
      ReimportUnseen(env, sys.db, t, r, d, n);
      UnseenMoves(sys, Reimport(env, sys.db, t, r, d, n));
    } else {
      ReimportKeeps(env, sys.db, t, r, d, n);
      ReimportWrote(env, sys.db, t, r, d, n);
      WroteMoves(env, sys, Reimport(env, sys.db, t, r, d, n), t, r);
    }
  }

  lemma CommitMoves(env: Env, sys: Sys, d: Descriptor, n: Normalization)
    requires Sound(env) && Valid(env, sys.db) && RunsOk(sys) && !Imported(sys.db, d)
    ensures var (begun, t, r, labels) := Begun(env, sys.db, d, n); Moves(sys, ImportNew(env, sys, d, n), Some((t, r)))
  {
    var (begun, t, r, labels) := Begun(env, sys.db, d, n);
    CommitKeeps(env, sys.db, d, n);
    CommitWrote(env, sys.db, d, n);
    WroteMoves(env, sys, CommitRevision(env, sys.db, d, n), t, r);
  }

  lemma OneRevision(db: Db, t: Id, r: Id, u: Id, q: Id, d: Descriptor)
    requires Named(db) && IsRevision(db, t, r, d) && IsRevision(db, u, q, d)
    ensures u == t && q == r
  {
    assert SameTrace(db, u, t);
    assert SameRevision(db, q, r);
  }

  lemma SameImport(sys: Sys, turn: Turn) returns (t: Id, r: Id)
    requires turn.step.Import? && Named(sys.db) && Imported(sys.db, turn.step.d)
    ensures IsRevision(sys.db, t, r, turn.step.d)
    ensures After(sys, turn) == ImportAgain(turn.env, sys, t, r, turn.step.d, turn.step.n)
    ensures Written(sys, turn) == if sys.db.revisions[r].status == Normalized then None else Some((t, r))
  {
    var d := turn.step.d;
    t, r := WhichImport(turn.env, sys, d, turn.step.n);
    var u: Id, q: Id :| IsRevision(sys.db, u, q, d) && Written(sys, turn) ==
      if sys.db.revisions[q].status == Normalized then None else Some((u, q));
    OneRevision(sys.db, t, r, u, q, d);
  }

  lemma ImportMoves(env: Env, sys: Sys, turn: Turn)
    requires turn.step.Import? && Sound(turn.env) && Valid(turn.env, sys.db) && RunsOk(sys)
    ensures Moves(sys, After(sys, turn), Written(sys, turn))
  {
    var d, n := turn.step.d, turn.step.n;
    if Imported(sys.db, d) {
      var t, r := SameImport(sys, turn);
      ReimportMoves(turn.env, sys, t, r, d, n);
    } else {
      CommitMoves(turn.env, sys, d, n);
    }
  }

  lemma StepMoves(env: Env, sys: Sys, turn: Turn)
    requires SoundLike(env, turn) && Valid(env, sys.db) && RunsOk(sys)
    ensures Moves(sys, After(sys, turn), Written(sys, turn))
  {
    ValidLike(env, turn.env, sys.db);
    match turn.step
    case Import(d, n) => ImportMoves(env, sys, turn);
    case Renormalized(r, n) =>
      if r in sys.db.revisions && sys.db.revisions[r].trace in sys.db.traces {
        RenormalizeMoves(turn.env, sys, r, n);
      } else {
        TextsUnseen(sys.db, sys.db);
        UnseenMoves(sys, sys.db);
      }
    case Titled(t, title) =>
      TitlesUnseen(sys.db, t, 0, title);
      UnseenMoves(sys, Apply(turn.env, sys.db, turn.step));
    case Generated(t, r, title) =>
      TitlesUnseen(sys.db, t, r, title);
      UnseenMoves(sys, Apply(turn.env, sys.db, turn.step));
    case Deleted(t) => DeleteMoves(env, sys, t);
  }

  lemma FreshIsThere(db: Db, order: Order, v: View, e: Id)
    requires Sorting(order) && e in Fresh(order, db, v)
    ensures e in db.events && db.events[e].trace == v.trace
  {
    var x :| x in Entries(db, v) && x.event == e;
  }

  lemma ShownIsThere(db: Db, order: Order, v: View)
    requires Sorting(order) && Gone(db, Fresh(order, db, v))
    ensures Fresh(order, db, v) == []
  {
    var ids := Fresh(order, db, v);
    if ids != [] {
      assert ids[0] in ids;
      FreshIsThere(db, order, v, ids[0]);
      assert false;
    }
  }

  /** An order whose events are gone is right only when it is empty and nothing is shown. */
  lemma GoneIsWrong(db: Db, order: Order, v: View, ids: seq<Id>)
    requires Sorting(order) && Gone(db, ids)
    ensures ids == Fresh(order, db, v) <==> ids == [] && Fresh(order, db, v) == []
  {
    if ids == Fresh(order, db, v) {
      ShownIsThere(db, order, v);
    }
  }

  lemma AheadWasGone(sys: Sys, order: Order, items: map<Key, seq<Id>>, top: Id, k: Key)
    requires Tracked(sys, order, items, top) && k in items && k.generation == Newest(sys.runs.Keys) + 1
    ensures Gone(sys.db, items[k]) && forall e :: e in items[k] ==> e <= top
  {
    assert TrackedAt(sys, order, items, top, k);
  }

  /** What is cached for the next run is of a transcript deleted since. */
  lemma AheadIsGone(env: Env, sys: Sys, turn: Turn, order: Order, items: map<Key, seq<Id>>, top: Id, v: View)
    requires SoundLike(env, turn) && Valid(env, sys.db) && Fresher(turn.env, top) && Tracked(sys, order, items, top)
    requires Key(v, Newest(sys.runs.Keys) + 1) in items
    ensures Gone(After(sys, turn).db, items[Key(v, Newest(sys.runs.Keys) + 1)])
  {
    var k := Key(v, Newest(sys.runs.Keys) + 1);
    AheadWasGone(sys, order, items, top, k);
    GoneTracked(env, sys, turn, items[k], top);
  }

  lemma AgainShows(env: Env, sys: Sys, t: Id, r: Id, d: Descriptor, n: Normalization, v: View)
    requires Sound(env) && Valid(env, sys.db) && IsRevision(sys.db, t, r, d) && sys.db.revisions[r].status != Normalized
    requires Concerns(v, t, r)
    ensures Filled(ImportAgain(env, sys, t, r, d, n).db, v) <==> WillShow(sys.db, n, r, v)
  {
    ReimportShows(env, sys.db, t, r, d, n, v);
  }

  lemma NewShows(env: Env, sys: Sys, d: Descriptor, n: Normalization, v: View)
    requires Sound(env) && Valid(env, sys.db) && !Imported(sys.db, d)
    requires Concerns(v, Begun(env, sys.db, d, n).1, Begun(env, sys.db, d, n).2)
    ensures Filled(ImportNew(env, sys, d, n).db, v) <==> WillShow(sys.db, n, Begun(env, sys.db, d, n).2, v)
  {
    CommitShows(env, sys.db, d, n, v);
  }

  ghost predicate Writes(sys: Sys, turn: Turn, v: View) {
    Written(sys, turn).Some? && Concerns(v, Written(sys, turn).value.0, Written(sys, turn).value.1)
  }

  lemma ImportWillShow(sys: Sys, turn: Turn, v: View)
    requires turn.step.Import? && Sound(turn.env) && Valid(turn.env, sys.db) && Writes(sys, turn, v)
    ensures Filled(After(sys, turn).db, v) <==> WillShow(sys.db, turn.step.n, Written(sys, turn).value.1, v)
  {
    var d, n := turn.step.d, turn.step.n;
    if Imported(sys.db, d) {
      var t, r := SameImport(sys, turn);
      AgainShows(turn.env, sys, t, r, d, n, v);
    } else {
      NewShows(turn.env, sys, d, n, v);
    }
  }

  /** What a written transcript shows is told from the tables before. */
  lemma WritesShow(env: Env, sys: Sys, turn: Turn, v: View)
    requires SoundLike(env, turn) && Valid(env, sys.db) && Writes(sys, turn, v)
    ensures Filled(After(sys, turn).db, v) <==> WillShow(sys.db, turn.step.n, Written(sys, turn).value.1, v)
  {
    ValidLike(env, turn.env, sys.db);
    match turn.step
    case Import(d, n) => ImportWillShow(sys, turn, v);
    case Renormalized(r, n) => RenormalizeShows(turn.env, sys.db, r, n, v);
    case _ =>
  }

  lemma TakenIf(env: Env, db: Db, order: Order, v: View, ids: seq<Id>)
    requires Valid(env, db) && Sorting(order) && Gone(db, ids)
    ensures ids != Fresh(order, db, v) <==> !(ids == [] && !Filled(db, v))
  {
    GoneIsWrong(db, order, v, ids);
    ShowsIfFilled(env, db, order, v);
  }

  lemma TakenIsWrong(env: Env, sys: Sys, turn: Turn, order: Order, items: map<Key, seq<Id>>, top: Id, v: View)
    requires SoundLike(env, turn) && Valid(env, sys.db) && Fresher(turn.env, top) && Tracked(sys, order, items, top)
    requires Sorting(order) && Key(v, Newest(sys.runs.Keys) + 1) in items && Writes(sys, turn, v)
    ensures Taken(sys, turn.step.n, Written(sys, turn).value.1, items, v) <==>
      items[Key(v, Newest(sys.runs.Keys) + 1)] != Fresh(order, After(sys, turn).db, v)
  {
    AheadIsGone(env, sys, turn, order, items, top, v);
    AfterKeeps(env, sys, turn);
    TakenIf(env, After(sys, turn).db, order, v, items[Key(v, Newest(sys.runs.Keys) + 1)]);
    WritesShow(env, sys, turn, v);
  }

  /** A transaction leaves a right cache right exactly when no order is cached under the trace,
      revision and run ids it gives again. */
  lemma StepCoherence(env: Env, sys: Sys, turn: Turn, order: Order, items: map<Key, seq<Id>>, top: Id)
    requires SoundLike(env, turn) && Valid(env, sys.db) && RunsOk(sys) && Fresher(turn.env, top) && Sorting(order)
    requires Tracked(sys, order, items, top) && Coherent(sys, order, items)
    ensures Coherent(After(sys, turn), order, items) <==> TakesNone(sys, turn, items)
  {
    StepMoves(env, sys, turn);
    forall v: View | Key(v, Newest(sys.runs.Keys) + 1) in items && Writes(sys, turn, v)
      ensures Taken(sys, turn.step.n, Written(sys, turn).value.1, items, v) <==>
        items[Key(v, Newest(sys.runs.Keys) + 1)] != Fresh(order, After(sys, turn).db, v)
    {
      TakenIsWrong(env, sys, turn, order, items, top, v);
    }
    CoherenceMoves(sys, After(sys, turn), turn, order, items);
  }

  lemma CoherenceMoves(sys: Sys, after: Sys, turn: Turn, order: Order, items: map<Key, seq<Id>>)
    requires Moves(sys, after, Written(sys, turn)) && Coherent(sys, order, items)
    requires forall v: View :: Key(v, Newest(sys.runs.Keys) + 1) in items && Writes(sys, turn, v) ==>
      (Taken(sys, turn.step.n, Written(sys, turn).value.1, items, v) <==>
        items[Key(v, Newest(sys.runs.Keys) + 1)] != Fresh(order, after.db, v))
    ensures Coherent(after, order, items) <==> TakesNone(sys, turn, items)
  {
    var written := Written(sys, turn);
    if TakesNone(sys, turn, items) {
      forall k | k in items && Current(after, k)
        ensures items[k] == Fresh(order, after.db, k.view)
      {
        if Writes(sys, turn, k.view) {
          assert k == Key(k.view, Newest(sys.runs.Keys) + 1);
        }
      }
    } else {
      var (t, r) := written.value;
      var v := if Taken(sys, turn.step.n, r, items, Whole(t)) then Whole(t) else Single(t, r);
      assert Concerns(v, t, r) && Exists(after.db, v);
      assert Current(after, Key(v, Newest(sys.runs.Keys) + 1));
    }
  }

  // ---- Runs with reads

  /** A run: transactions, and reads after which the cache holds other items. */
  datatype Act = Did(turn: Turn) | Looked(items: map<Key, seq<Id>>)

  /** A read evicts what it likes, and caches what it sorted for the generation it found. */
  ghost predicate Reading(sys: Sys, order: Order, items: map<Key, seq<Id>>, after: map<Key, seq<Id>>) {
    forall k :: k in after ==>
      (k in items && after[k] == items[k]) || (Current(sys, k) && after[k] == Fresh(order, sys.db, k.view))
  }

  datatype Story = Story(sys: Sys, items: map<Key, seq<Id>>, top: Id)

  const START := Story(Sys(EMPTY, map[]), map[], 0)

  ghost predicate Possible(env: Env, order: Order, s: Story, act: Act) {
    match act
    case Did(turn) => SoundLike(env, turn) && Fresher(turn.env, s.top)
    case Looked(items) => Reading(s.sys, order, s.items, items)
  }

  ghost function Next(s: Story, act: Act): Story {
    match act
    case Did(turn) =>
      var sys := After(s.sys, turn);
      Story(sys, s.items, Above(s.top, sys.db))
    case Looked(items) => s.(items := items)
  }

  ghost predicate Ok(env: Env, order: Order, s: Story) {
    Valid(env, s.sys.db) && RunsOk(s.sys) && Tracked(s.sys, order, s.items, s.top)
  }

  ghost predicate Right(order: Order, s: Story) {
    Coherent(s.sys, order, s.items)
  }

  lemma FreshIsLive(sys: Sys, order: Order, k: Key, top: Id)
    requires Sorting(order) && Current(sys, k) && forall e :: e in sys.db.events ==> e <= top
    ensures Live(sys, order, k, Fresh(order, sys.db, k.view))
    ensures forall e :: e in Fresh(order, sys.db, k.view) ==> e <= top
  {
    ReadHolds(sys, order, k.view);
    forall e | e in Fresh(order, sys.db, k.view)
      ensures e in sys.db.events && sys.db.events[e].trace == k.view.trace
    {
      FreshIsThere(sys.db, order, k.view, e);
    }
  }

  lemma ReadOk(env: Env, order: Order, s: Story, items: map<Key, seq<Id>>)
    requires Ok(env, order, s) && Sorting(order) && Reading(s.sys, order, s.items, items)
    ensures Ok(env, order, s.(items := items)) && (Right(order, s) ==> Right(order, s.(items := items)))
  {
    forall k | k in items
      ensures TrackedAt(s.sys, order, items, s.top, k)
    {
      if k in s.items && items[k] == s.items[k] {
        assert TrackedAt(s.sys, order, s.items, s.top, k);
      } else {
        FreshIsLive(s.sys, order, k, s.top);
      }
    }
  }

  lemma RunsStayOk(env: Env, sys: Sys, turn: Turn)
    requires SoundLike(env, turn) && Valid(env, sys.db) && RunsOk(sys)
    ensures RunsOk(After(sys, turn))
  {
    ValidLike(env, turn.env, sys.db);
    if !turn.step.Deleted? {
      StepRows(env, sys, turn);
      NamesOk(sys, After(sys, turn).db);
      match turn.step
      case Import(d, n) => ImportRuns(turn.env, sys, d, n);
      case _ =>
    }
  }

  lemma NamesOk(sys: Sys, after: Db)
    requires RunsOk(sys) && KeepsRows(sys.db, after)
    ensures RunsOk(Sys(after, sys.runs))
    ensures forall r :: r in after.revisions ==> RunsOk(Ran(after, sys.runs, r))
  {
  }

  lemma ImportRuns(env: Env, sys: Sys, d: Descriptor, n: Normalization)
    requires Sound(env) && Valid(env, sys.db) && RunsOk(sys) && KeepsRows(sys.db, ImportSys(env, sys, d, n).db)
    ensures RunsOk(ImportSys(env, sys, d, n))
  {
    NamesOk(sys, ImportSys(env, sys, d, n).db);
    if !Imported(sys.db, d) {
      CommitWrote(env, sys.db, d, n);
    }
  }

  lemma ActOk(env: Env, order: Order, s: Story, act: Act)
    requires Ok(env, order, s) && Sorting(order) && Possible(env, order, s, act)
    ensures Ok(env, order, Next(s, act))
  {
    match act
    case Did(turn) =>
      AfterKeeps(env, s.sys, turn);
      RunsStayOk(env, s.sys, turn);
      TrackedStays(env, s.sys, turn, order, s.items, s.top);
    case Looked(items) => ReadOk(env, order, s, items);
  }

  ghost predicate Harmless(s: Story, act: Act) {
    act.Did? ==> TakesNone(s.sys, act.turn, s.items)
  }

  lemma ActRight(env: Env, order: Order, s: Story, act: Act)
    requires Ok(env, order, s) && Sorting(order) && Possible(env, order, s, act) && Right(order, s)
    ensures Right(order, Next(s, act)) <==> Harmless(s, act)
  {
    match act
    case Did(turn) => StepCoherence(env, s.sys, turn, order, s.items, s.top);
    case Looked(items) => ReadOk(env, order, s, items);
  }

  ghost predicate AllPossible(env: Env, order: Order, s: Story, acts: seq<Act>)
    decreases |acts|
  {
    acts == [] || (Possible(env, order, s, acts[0]) && AllPossible(env, order, Next(s, acts[0]), acts[1..]))
  }

  ghost predicate AllHarmless(s: Story, acts: seq<Act>)
    decreases |acts|
  {
    acts == [] || (Harmless(s, acts[0]) && AllHarmless(Next(s, acts[0]), acts[1..]))
  }

  /** The cache is right now, and after every act. */
  ghost predicate AlwaysRight(order: Order, s: Story, acts: seq<Act>)
    decreases |acts|
  {
    Right(order, s) && (acts == [] || AlwaysRight(order, Next(s, acts[0]), acts[1..]))
  }

  lemma {:induction false} RightExactly(env: Env, order: Order, s: Story, acts: seq<Act>)
    requires Ok(env, order, s) && Sorting(order) && AllPossible(env, order, s, acts) && Right(order, s)
    ensures AlwaysRight(order, s, acts) <==> AllHarmless(s, acts)
    decreases |acts|
  {
    if acts != [] {
      ActOk(env, order, s, acts[0]);
      ActRight(env, order, s, acts[0]);
      if Right(order, Next(s, acts[0])) {
        RightExactly(env, order, Next(s, acts[0]), acts[1..]);
      }
    }
  }

  lemma StartIsRight(env: Env, order: Order)
    ensures Ok(env, order, START) && Right(order, START)
  {
    EmptyIsValid(env);
  }

  /** Over every run of transactions and reads from nothing, deletes included, a current cached order
      is always the freshly sorted one if and only if no transaction records a run for a transcript
      that has an order cached under the run's id. */
  lemma {:induction false} CacheIsRightExactly(env: Env, order: Order, acts: seq<Act>)
    requires Sorting(order) && AllPossible(env, order, START, acts)
    ensures AlwaysRight(order, START, acts) <==> AllHarmless(START, acts)
  {
    StartIsRight(env, order);
    RightExactly(env, order, START, acts);
  }

  // ---- A run after which a page is not found

  lemma DeleteOnly(env: Env, db: Db, t: Id)
    requires Valid(env, db) && db.traces.Keys <= {t}
    ensures DeleteTrace(db, t) == EMPTY
  {
    var after := DeleteTrace(db, t);
    DeleteConsistent(db, t);
    DeleteSane(db, t);
    assert after.traces == map[];
    assert after.revisions == map[] && after.events == map[];
    assert after.observations == map[];
    assert after.recordings == map[];
  }

  lemma NothingLeft(env: Env, d: Descriptor, n: Normalization)
    requires Sound(env)
    ensures DeleteSys(ImportNew(env, START.sys, d, n), Begun(env, EMPTY, d, n).1) == START.sys
  {
    EmptyIsValid(env);
    CommitKeeps(env, EMPTY, d, n);
    CommitParents(env, EMPTY, d, n);
    DeleteOnly(env, CommitRevision(env, EMPTY, d, n), Begun(env, EMPTY, d, n).1);
  }

  /** The order read right after the first import. */
  ghost function FirstRead(env: Env, d: Descriptor, n: Normalization, order: Order): map<Key, seq<Id>> {
    var v := Whole(Begun(env, EMPTY, d, n).1);
    map[Key(v, 1) := Fresh(order, CommitRevision(env, EMPTY, d, n), v)]
  }

  lemma FirstImport(env: Env, d: Descriptor, n: Normalization)
    requires Sound(env)
    ensures After(START.sys, Turn(env, Import(d, n))) == ImportNew(env, START.sys, d, n)
    ensures Written(START.sys, Turn(env, Import(d, n))) == Some((Begun(env, EMPTY, d, n).1, Begun(env, EMPTY, d, n).2))
    ensures Begun(env, EMPTY, d, n).1 == env.next({})
    ensures Newest(START.sys.runs.Keys) == 0
  {
  }

  lemma FirstCurrent(env: Env, d: Descriptor, n: Normalization)
    requires Sound(env)
    ensures Current(ImportNew(env, START.sys, d, n), Key(Whole(Begun(env, EMPTY, d, n).1), 1))
  {
    EmptyIsValid(env);
    CommitMoves(env, START.sys, d, n);
    assert Concerns(Whole(Begun(env, EMPTY, d, n).1), Begun(env, EMPTY, d, n).1, Begun(env, EMPTY, d, n).2);
  }

  lemma FirstShown(env: Env, d: Descriptor, n: Normalization, order: Order)
    requires Sound(env) && Sorting(order) && n.events != []
    ensures Fresh(order, CommitRevision(env, EMPTY, d, n), Whole(Begun(env, EMPTY, d, n).1)) != []
  {
    EmptyIsValid(env);
    CommitKeeps(env, EMPTY, d, n);
    CommitShows(env, EMPTY, d, n, Whole(Begun(env, EMPTY, d, n).1));
    ShowsIfFilled(env, CommitRevision(env, EMPTY, d, n), order, Whole(Begun(env, EMPTY, d, n).1));
  }

  lemma FirstReading(env: Env, d: Descriptor, n: Normalization, order: Order)
    requires Sound(env)
    ensures Reading(ImportNew(env, START.sys, d, n), order, map[], FirstRead(env, d, n, order))
  {
    FirstCurrent(env, d, n);
  }

  /** The only trace is imported, read and deleted, and a trace is imported again: ids of rows come
      back when their table is empty, those of events do not. */
  ghost function Reuse(env: Env, later: Env, items: map<Key, seq<Id>>, d: Descriptor, n: Normalization, e: Descriptor,
      m: Normalization): seq<Act>
  {
    [Did(Turn(env, Import(d, n))), Looked(items), Did(Turn(later, Deleted(env.next({})))), Did(Turn(later, Import(e, m)))]
  }

  lemma ReuseRuns(env: Env, later: Env, items: map<Key, seq<Id>>, d: Descriptor, n: Normalization)
    requires Sound(env)
    ensures var imported := Next(START, Did(Turn(env, Import(d, n))));
      var deleted := Next(Next(imported, Looked(items)), Did(Turn(later, Deleted(env.next({})))));
      && imported == Story(ImportNew(env, START.sys, d, n), map[], Above(0, CommitRevision(env, EMPTY, d, n)))
      && deleted == Story(START.sys, items, Above(imported.top, EMPTY))
  {
    FirstImport(env, d, n);
    NothingLeft(env, d, n);
  }

  lemma ReuseTakes(later: Env, items: map<Key, seq<Id>>, e: Descriptor, m: Normalization)
    requires Sound(later) && Key(Whole(later.next({})), 1) in items
    requires items[Key(Whole(later.next({})), 1)] != [] || m.events != []
    ensures !TakesNone(START.sys, Turn(later, Import(e, m)), items)
  {
    FirstImport(later, e, m);
    NotThere(later, e, m);
  }

  lemma NotThere(env: Env, d: Descriptor, n: Normalization)
    requires Sound(env)
    ensures Begun(env, EMPTY, d, n).2 !in EMPTY.revisions
  {
  }

  /** What is seen of four acts. */
  lemma {:induction false} FourActs(env: Env, order: Order, s: Story, a: Act, b: Act, c: Act, d: Act)
    requires var t := Next(Next(Next(s, a), b), c);
      Possible(env, order, s, a) && Possible(env, order, Next(s, a), b) && Possible(env, order, Next(Next(s, a), b), c) &&
      Possible(env, order, t, d)
    ensures AllPossible(env, order, s, [a, b, c, d])
    ensures AllHarmless(s, [a, b, c, d]) ==> Harmless(Next(Next(Next(s, a), b), c), d)
  {
    var x, y, z := Next(s, a), Next(Next(s, a), b), Next(Next(Next(s, a), b), c);
    assert [a, b, c, d][1..] == [b, c, d] && [b, c, d][1..] == [c, d] && [c, d][1..] == [d] && [d][1..] == [];
    assert AllPossible(env, order, z, [d]) && AllPossible(env, order, y, [c, d]) && AllPossible(env, order, x, [b, c, d]);
    assert AllHarmless(x, [b, c, d]) ==> AllHarmless(y, [c, d]);
    assert AllHarmless(y, [c, d]) ==> AllHarmless(z, [d]);
  }

  lemma {:induction false} ReusePossible(env: Env, later: Env, order: Order, items: map<Key, seq<Id>>, d: Descriptor,
      n: Normalization,
      e: Descriptor, m: Normalization)
    requires Sound(env) && SoundLike(env, Turn(later, Import(e, m)))
    requires Fresher(env, 0) && Fresher(later, Above(0, CommitRevision(env, EMPTY, d, n)))
    requires Reading(ImportNew(env, START.sys, d, n), order, map[], items)
    requires !TakesNone(START.sys, Turn(later, Import(e, m)), items)
    ensures AllPossible(env, order, START, Reuse(env, later, items, d, n, e, m))
    ensures !AllHarmless(START, Reuse(env, later, items, d, n, e, m))
  {
    ReuseRuns(env, later, items, d, n);
    var top := Above(0, CommitRevision(env, EMPTY, d, n));
    AboveEmpty(top);
    FourActs(env, order, START, Did(Turn(env, Import(d, n))), Looked(items), Did(Turn(later, Deleted(env.next({})))),
      Did(Turn(later, Import(e, m))));
  }

  lemma AboveEmpty(top: Id)
    ensures Above(top, EMPTY) == top
  {
  }

  /** The run that shows it: the cache is wrong after the second import. */
  lemma {:induction false} StaleAfterDelete(env: Env, later: Env, order: Order, d: Descriptor, n: Normalization,
      e: Descriptor,
      m: Normalization)
    requires Sound(env) && SoundLike(env, Turn(later, Import(e, m))) && later.next({}) == env.next({}) && Sorting(order)
    requires n.events != [] || m.events != []
    requires Fresher(env, 0) && Fresher(later, Above(0, CommitRevision(env, EMPTY, d, n)))
    ensures AllPossible(env, order, START, Reuse(env, later, FirstRead(env, d, n, order), d, n, e, m))
    ensures !AlwaysRight(order, START, Reuse(env, later, FirstRead(env, d, n, order), d, n, e, m))
  {
    var items := FirstRead(env, d, n, order);
    FirstImport(env, d, n);
    FirstReading(env, d, n, order);
    if n.events != [] {
      FirstShown(env, d, n, order);
    }
    ReuseTakes(later, items, e, m);
    ReusePossible(env, later, order, items, d, n, e, m);
    CacheIsRightExactly(env, order, Reuse(env, later, items, d, n, e, m));
  }
}
