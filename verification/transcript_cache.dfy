/** The cache of transcript orders, over runs of the archive's transactions. A generation is the
    newest normalizer run of what is shown; row ids of runs and traces are reused after a delete. */
module TranscriptCache {
  import opened Utf8
  import opened Archive
  import opened ArchiveSteps
  import opened ArchiveRuns
  import opened TranscriptViews

  const CAPACITY := 8

  /** The archive with its normalizer_runs rows, each the run of a revision. */
  datatype Sys = Sys(db: Db, runs: map<Id, Id>)

  /** The ids a transcript query lists for the rows it sorts. */
  type Order = set<Entry> -> seq<Id>

  ghost predicate Sorting(order: Order) {
    forall es: set<Entry> ::
      && (forall i, j :: 0 <= i < j < |order(es)| ==> order(es)[i] != order(es)[j])
      && (forall e :: e in order(es) <==> exists x :: x in es && x.event == e)
  }

  // ---- Generations

  lemma {:induction false} NewestExists(ids: set<Id>) returns (m: Id)
    requires ids != {}
    ensures m in ids && forall n :: n in ids ==> n <= m
  {
    m :| m in ids;
    var first, rest := m, ids - {m};
    if rest != {} {
      var other := NewestExists(rest);
      m := if other > first then other else first;
    }
    forall n | n in ids
      ensures n <= m
    {
      assert n == first || n in rest;
    }
  }

  lemma HasNewest(ids: set<Id>)
    requires ids != {}
    ensures exists m :: m in ids && forall n :: n in ids ==> n <= m
  {
    var m := NewestExists(ids);
  }

  /** COALESCE(MAX(id),0). */
  ghost function Newest(ids: set<Id>): (m: Id)
    ensures forall n :: n in ids ==> n <= m
    ensures ids != {} ==> m in ids
    ensures ids == {} ==> m == 0
  {
    if ids == {} then 0
    else
      HasNewest(ids);
      var m :| m in ids && forall n :: n in ids ==> n <= m;
      m
  }

  ghost predicate IsRunOf(sys: Sys, v: View, n: Id) {
    && n in sys.runs && sys.runs[n] in sys.db.revisions && sys.db.revisions[sys.runs[n]].trace == v.trace
    && (v.Single? ==> sys.runs[n] == v.revision)
  }

  ghost function RunIds(sys: Sys, v: View): set<Id> {
    set n | n in sys.runs && IsRunOf(sys, v, n)
  }

  ghost function Generation(sys: Sys, v: View): Id {
    Newest(RunIds(sys, v))
  }

  ghost function Fresh(order: Order, db: Db, v: View): seq<Id> {
    order(Entries(db, v))
  }

  /** The order read at generation g is what the view shows as long as that is its generation, and
      the view never comes back to it otherwise. */
  ghost predicate Holds(sys: Sys, order: Order, v: View, g: Id, ids: seq<Id>) {
    && g <= Newest(sys.runs.Keys)
    && (Exists(sys.db, v) ==> Generation(sys, v) > g || (Generation(sys, v) == g && Fresh(order, sys.db, v) == ids))
  }

  lemma SameGeneration(sys: Sys, after: Sys, v: View)
    requires forall n :: IsRunOf(after, v, n) <==> IsRunOf(sys, v, n)
    ensures Generation(after, v) == Generation(sys, v)
  {
    assert RunIds(after, v) == RunIds(sys, v);
  }

  // ---- The archive's transactions with the runs they record

  ghost function Ran(after: Db, runs: map<Id, Id>, r: Id): Sys {
    Sys(after, runs[Newest(runs.Keys) + 1 := r])
  }

  ghost function ImportAgain(env: Env, sys: Sys, t: Id, r: Id, d: Descriptor, n: Normalization): Sys
    requires IsRevision(sys.db, t, r, d)
  {
    var after := Reimport(env, sys.db, t, r, d, n);
    if sys.db.revisions[r].status == Normalized then Sys(after, sys.runs) else Ran(after, sys.runs, r)
  }

  ghost function ImportNew(env: Env, sys: Sys, d: Descriptor, n: Normalization): Sys {
    Ran(CommitRevision(env, sys.db, d, n), sys.runs, Begun(env, sys.db, d, n).2)
  }

  ghost function ImportSys(env: Env, sys: Sys, d: Descriptor, n: Normalization): Sys {
    if t, r :| IsRevision(sys.db, t, r, d) then ImportAgain(env, sys, t, r, d, n) else ImportNew(env, sys, d, n)
  }

  ghost function RenormalizeSys(env: Env, sys: Sys, r: Id, n: Normalization): Sys {
    if r in sys.db.revisions && sys.db.revisions[r].trace in sys.db.traces then Ran(Renormalize(env, sys.db, r, n), sys.runs, r) else sys
  }

  ghost function DeleteSys(sys: Sys, t: Id): Sys {
    var after := DeleteTrace(sys.db, t);
    Sys(after, map n | n in sys.runs && sys.runs[n] in after.revisions :: sys.runs[n])
  }

  ghost function After(sys: Sys, turn: Turn): Sys {
    match turn.step
    case Import(d, n) => ImportSys(turn.env, sys, d, n)
    case Renormalized(r, n) => RenormalizeSys(turn.env, sys, r, n)
    case Titled(_, _) => Sys(Apply(turn.env, sys.db, turn.step), sys.runs)
    case Generated(_, _, _) => Sys(Apply(turn.env, sys.db, turn.step), sys.runs)
    case Deleted(t) => DeleteSys(sys, t)
  }

  ghost predicate RunsOk(sys: Sys) {
    forall n :: n in sys.runs ==> sys.runs[n] in sys.db.revisions
  }

  // ---- What each keeps

  ghost predicate Concerns(v: View, t: Id, r: Id) {
    v == Whole(t) || v == Single(t, r)
  }

  lemma WroteElsewhere(sys: Sys, after: Db, t: Id, r: Id, v: View)
    requires Wrote(sys.db, after, t, r) && Consistent(sys.db) && RunsOk(sys) && Exists(after, v) && !Concerns(v, t, r)
    ensures Exists(sys.db, v) && Entries(after, v) == Entries(sys.db, v)
    ensures Generation(Ran(after, sys.runs, r), v) == Generation(sys, v)
  {
    SameGeneration(sys, Ran(after, sys.runs, r), v);
  }

  lemma WroteHere(sys: Sys, after: Db, t: Id, r: Id, v: View)
    requires Wrote(sys.db, after, t, r) && Concerns(v, t, r)
    ensures Generation(Ran(after, sys.runs, r), v) == Newest(sys.runs.Keys) + 1
  {
    var ran, n := Ran(after, sys.runs, r), Newest(sys.runs.Keys) + 1;
    assert IsRunOf(ran, v, n);
    assert n in RunIds(ran, v) && Generation(ran, v) in RunIds(ran, v);
  }

  lemma WroteStays(sys: Sys, after: Db, t: Id, r: Id, order: Order, v: View, g: Id, ids: seq<Id>)
    requires Wrote(sys.db, after, t, r) && Consistent(sys.db) && RunsOk(sys) && Holds(sys, order, v, g, ids)
    ensures Holds(Ran(after, sys.runs, r), order, v, g, ids) && RunsOk(Ran(after, sys.runs, r))
  {
    assert Newest(sys.runs.Keys) + 1 in Ran(after, sys.runs, r).runs.Keys;
    if Exists(after, v) {
      if Concerns(v, t, r) {
        WroteHere(sys, after, t, r, v);
      } else {
        WroteElsewhere(sys, after, t, r, v);
      }
    }
  }

  lemma UnseenWrote(db: Db, after: Db, t: Id, r: Id)
    requires Unseen(db, after) && r in db.revisions && db.revisions[r].trace == t
    ensures Wrote(db, after, t, r)
  {
  }

  lemma UnseenThenWrote(db: Db, middle: Db, after: Db, t: Id, r: Id)
    requires Unseen(db, middle) && Wrote(middle, after, t, r)
    ensures Wrote(db, after, t, r)
  {
  }

  lemma UnseenStays(sys: Sys, after: Db, order: Order, v: View, g: Id, ids: seq<Id>)
    requires Unseen(sys.db, after) && RunsOk(sys) && Holds(sys, order, v, g, ids)
    ensures Holds(Sys(after, sys.runs), order, v, g, ids) && RunsOk(Sys(after, sys.runs))
  {
    SameGeneration(sys, Sys(after, sys.runs), v);
  }

  lemma FilledWrote(env: Env, db: Db, filled: Db, t: Id, r: Id, labels: Text, n: Normalization)
    requires Sound(env) && Valid(env, filled) && Unseen(db, filled) && r in db.revisions && db.revisions[r].trace == t
    ensures Wrote(db, Rebuild(env, filled, t, r, labels, n), t, r)
  {
    RebuildWrote(env, filled, t, r, labels, n);
    UnseenThenWrote(db, filled, Rebuild(env, filled, t, r, labels, n), t, r);
  }

  lemma ReimportWrote(env: Env, db: Db, t: Id, r: Id, d: Descriptor, n: Normalization)
    requires Sound(env) && Valid(env, db) && IsRevision(db, t, r, d)
    ensures Wrote(db, Reimport(env, db, t, r, d, n), t, r)
  {
    var filled := Backfill(db, t, r, d);
    BackfillUnseen(db, t, r, d);
    BackfillKeeps(env, db, t, r, d);
    if Reimport(env, db, t, r, d, n) == filled {
      UnseenWrote(db, filled, t, r);
    } else {
      FilledWrote(env, db, filled, t, r, DescribedLabels(filled.traces[t], d), n);
    }
  }

  lemma ReimportUnseen(env: Env, db: Db, t: Id, r: Id, d: Descriptor, n: Normalization)
    requires Sane(db) && IsRevision(db, t, r, d) && db.revisions[r].status == Normalized
    ensures Unseen(db, Reimport(env, db, t, r, d, n))
  {
    BackfillUnseen(db, t, r, d);
  }

  lemma ImportAgainStays(env: Env, sys: Sys, t: Id, r: Id, d: Descriptor, n: Normalization, order: Order, v: View,
      g: Id, ids: seq<Id>)
    requires Sound(env) && Valid(env, sys.db) && IsRevision(sys.db, t, r, d) && RunsOk(sys)
    requires Holds(sys, order, v, g, ids)
    ensures Holds(ImportAgain(env, sys, t, r, d, n), order, v, g, ids) && RunsOk(ImportAgain(env, sys, t, r, d, n))
  {
    var after := Reimport(env, sys.db, t, r, d, n);
    if sys.db.revisions[r].status == Normalized {
      ReimportUnseen(env, sys.db, t, r, d, n);
      UnseenStays(sys, after, order, v, g, ids);
    } else {
      ReimportWrote(env, sys.db, t, r, d, n);
      WroteStays(sys, after, t, r, order, v, g, ids);
    }
  }

  lemma ImportNewStays(env: Env, sys: Sys, d: Descriptor, n: Normalization, order: Order, v: View, g: Id, ids: seq<Id>)
    requires Sound(env) && Valid(env, sys.db) && !Imported(sys.db, d) && RunsOk(sys) && Holds(sys, order, v, g, ids)
    ensures Holds(ImportNew(env, sys, d, n), order, v, g, ids) && RunsOk(ImportNew(env, sys, d, n))
  {
    var (begun, t, r, labels) := Begun(env, sys.db, d, n);
    CommitWrote(env, sys.db, d, n);
    WroteStays(sys, CommitRevision(env, sys.db, d, n), t, r, order, v, g, ids);
  }

  lemma ImportStays(env: Env, sys: Sys, d: Descriptor, n: Normalization, order: Order, v: View, g: Id, ids: seq<Id>)
    requires Sound(env) && Valid(env, sys.db) && RunsOk(sys) && Holds(sys, order, v, g, ids)
    ensures Holds(ImportSys(env, sys, d, n), order, v, g, ids) && RunsOk(ImportSys(env, sys, d, n))
  {
    if Imported(sys.db, d) {
      var t, r :| IsRevision(sys.db, t, r, d) && ImportSys(env, sys, d, n) == ImportAgain(env, sys, t, r, d, n);
      ImportAgainStays(env, sys, t, r, d, n, order, v, g, ids);
    } else {
      ImportNewStays(env, sys, d, n, order, v, g, ids);
    }
  }

  lemma RenormalizeStays(env: Env, sys: Sys, r: Id, n: Normalization, order: Order, v: View, g: Id, ids: seq<Id>)
    requires Sound(env) && Valid(env, sys.db) && RunsOk(sys) && Holds(sys, order, v, g, ids)
    ensures Holds(RenormalizeSys(env, sys, r, n), order, v, g, ids) && RunsOk(RenormalizeSys(env, sys, r, n))
  {
    if r in sys.db.revisions && sys.db.revisions[r].trace in sys.db.traces {
      var t := sys.db.revisions[r].trace;
      var after := Renormalize(env, sys.db, r, n);
      if Unusable(n) {
        TextsUnseen(sys.db, sys.db);
        UnseenWrote(sys.db, sys.db, t, r);
      } else {
        RebuildWrote(env, sys.db, t, r, Labels(sys.db.traces[t]), n);
      }
      WroteStays(sys, after, t, r, order, v, g, ids);
    }
  }

  /** The delete takes no run newer than all that stay. */
  ghost predicate KeepsNewest(sys: Sys, step: Step) {
    step.Deleted? ==> Newest(DeleteSys(sys, step.trace).runs.Keys) == Newest(sys.runs.Keys)
  }

  lemma DeleteStays(env: Env, sys: Sys, t: Id, order: Order, v: View, g: Id, ids: seq<Id>)
    requires Sound(env) && Valid(env, sys.db) && RunsOk(sys) && Holds(sys, order, v, g, ids)
    requires KeepsNewest(sys, Deleted(t))
    ensures Holds(DeleteSys(sys, t), order, v, g, ids)
  {
    var after := DeleteSys(sys, t);
    if Exists(after.db, v) {
      DeleteLeaves(env, sys.db, t, v);
      SameGeneration(sys, after, v);
    }
  }

  lemma TitleStays(sys: Sys, t: Id, r: Id, title: Text, order: Order, v: View, g: Id, ids: seq<Id>)
    requires RunsOk(sys) && Holds(sys, order, v, g, ids)
    ensures var after := Sys(SetTitleOverride(sys.db, t, title), sys.runs); Holds(after, order, v, g, ids) && RunsOk(after)
    ensures var after := Sys(SetGeneratedTitle(sys.db, t, r, title), sys.runs);
      Holds(after, order, v, g, ids) && RunsOk(after)
  {
    TitlesUnseen(sys.db, t, r, title);
    UnseenStays(sys, SetTitleOverride(sys.db, t, title), order, v, g, ids);
    UnseenStays(sys, SetGeneratedTitle(sys.db, t, r, title), order, v, g, ids);
  }

  /** Every transaction that keeps the newest run keeps what a cached order stands for. */
  lemma StepStays(env: Env, sys: Sys, turn: Turn, order: Order, v: View, g: Id, ids: seq<Id>)
    requires SoundLike(env, turn) && Valid(env, sys.db) && RunsOk(sys) && Holds(sys, order, v, g, ids)
    requires KeepsNewest(sys, turn.step)
    ensures Holds(After(sys, turn), order, v, g, ids) && RunsOk(After(sys, turn))
  {
    ValidLike(env, turn.env, sys.db);
    match turn.step
    case Import(d, n) => ImportStays(turn.env, sys, d, n, order, v, g, ids);
    case Renormalized(r, n) => RenormalizeStays(turn.env, sys, r, n, order, v, g, ids);
    case Titled(t, title) => TitleStays(sys, t, 0, title, order, v, g, ids);
    case Generated(t, r, title) => TitleStays(sys, t, r, title, order, v, g, ids);
    case Deleted(t) => DeleteStays(turn.env, sys, t, order, v, g, ids);
  }

  // ---- The cache

  datatype Key = Key(view: View, generation: Id)

  /** What is cached is what it stands for, and stays so. */
  ghost predicate AllHold(sys: Sys, order: Order, items: map<Key, seq<Id>>) {
    forall k :: k in items ==> Holds(sys, order, k.view, k.generation, items[k])
  }

  /** The current generation's cached orders are the freshly sorted ones. */
  ghost predicate Coherent(sys: Sys, order: Order, items: map<Key, seq<Id>>) {
    forall k :: k in items && Exists(sys.db, k.view) && k.generation == Generation(sys, k.view) ==>
      items[k] == Fresh(order, sys.db, k.view)
  }

  lemma ReadHolds(sys: Sys, order: Order, v: View)
    ensures Holds(sys, order, v, Generation(sys, v), Fresh(order, sys.db, v))
  {
    if RunIds(sys, v) != {} {
      assert Generation(sys, v) in sys.runs.Keys;
    }
  }

  class TranscriptOrders {
    var keys: seq<Key>
    var items: map<Key, seq<Id>>

    ghost predicate Valid()
      reads this
    {
      && |keys| <= CAPACITY
      && (forall i, j :: 0 <= i < j < |keys| ==> keys[i] != keys[j])
      && (forall k :: k in items <==> k in keys)
    }

    constructor ()
      ensures Valid() && keys == [] && items == map[]
    {
      keys, items := [], map[];
    }

    method Get(key: Key) returns (ids: Option<seq<Id>>)
      ensures ids == if key in items then Some(items[key]) else None
    {
      ids := if key in items then Some(items[key]) else None;
    }

    /** First in, first out. */
    method Put(key: Key, ids: seq<Id>)
      requires Valid()
      modifies this
      ensures Valid()
      ensures key in old(items) ==> keys == old(keys) && items == old(items)
      ensures key !in old(items) ==>
        && keys == (if |old(keys)| == CAPACITY then old(keys)[1..] else old(keys)) + [key]
        && items == (if |old(keys)| == CAPACITY then old(items) - {old(keys)[0]} else old(items))[key := ids]
    {
      if key in items {
        return;
      }
      if |keys| == CAPACITY {
        items := items - {keys[0]};
        keys := keys[1..];
      }
      keys := keys + [key];
      items := items[key := ids];
    }

    /** transcriptOrder: `sorted` is what the query for the key lists. */
    method TranscriptOrder(ghost sys: Sys, ghost order: Order, key: Key, sorted: seq<Id>) returns (ids: seq<Id>)
      requires Valid() && AllHold(sys, order, items) && Exists(sys.db, key.view)
      requires key.generation == Generation(sys, key.view) && sorted == Fresh(order, sys.db, key.view)
      modifies this
      ensures Valid() && AllHold(sys, order, items)
      ensures ids == Fresh(order, sys.db, key.view)
    {
      var cached := Get(key);
      if cached.Some? {
        return cached.value;
      }
      Put(key, sorted);
      ReadHolds(sys, order, key.view);
      ids := sorted;
    }
  }

  // ---- Pages

  datatype Cursor = Cursor(view: View, offset: int, generation: Id)

  datatype Page = Page(ids: seq<Id>, next: Option<Cursor>) | NoTrace | InvalidCursor | Changed | MissingEvents

  function Min(a: int, b: int): int {
    if a < b then a else b
  }

  function Slice(ids: seq<Id>, offset: nat, limit: nat): seq<Id> {
    ids[Min(offset, |ids|)..Min(offset + limit, |ids|)]
  }

  /** TranscriptEvents; `found` says which ids the row query of the page finds. */
  method TranscriptEvents(orders: TranscriptOrders, ghost sys: Sys, ghost order: Order, v: View, exists_: bool,
      generation: Id, sorted: seq<Id>, found: Id -> bool, cursor: Option<Cursor>, limit: nat)
    returns (page: Page)
    requires orders.Valid() && AllHold(sys, order, orders.items) && Sorting(order) && 0 < limit
    requires exists_ == Exists(sys.db, v)
    requires exists_ ==> generation == Generation(sys, v) && sorted == Fresh(order, sys.db, v)
    requires forall e :: found(e) <==> exists x :: x in Entries(sys.db, v) && x.event == e
    modifies orders
    ensures orders.Valid() && AllHold(sys, order, orders.items)
    ensures page.NoTrace? <==> !exists_
    ensures page.InvalidCursor? <==> exists_ && cursor.Some? && (cursor.value.view != v || cursor.value.offset < 0)
    ensures page.Changed? <==>
      (exists_ && cursor.Some? && cursor.value.view == v && cursor.value.offset >= 0 &&
       cursor.value.generation != generation)
    ensures !page.MissingEvents?
    ensures page.Page? ==>
      var offset := if cursor.Some? then cursor.value.offset else 0;
      && 0 <= offset
      && page.ids == Slice(Fresh(order, sys.db, v), offset, limit)
      && page.next == (if offset + limit < |Fresh(order, sys.db, v)| then Some(Cursor(v, offset + limit, generation)) else None)
  {
    if !exists_ {
      return NoTrace;
    }
    var position := Cursor(v, 0, generation);
    if cursor.Some? {
      position := cursor.value;
      if position.view != v || position.offset < 0 {
        return InvalidCursor;
      }
      if position.generation != generation {
        return Changed;
      }
    }
    var all := orders.TranscriptOrder(sys, order, Key(v, generation), sorted);
    var ids := Slice(all, position.offset, limit);
    var k := 0;
    while k < |ids|
      invariant k <= |ids|
    {
      assert ids[k] in all;
      if !found(ids[k]) {
        return MissingEvents;
      }
      k := k + 1;
    }
    page := Page(ids, if position.offset + limit < |all| then Some(position.(offset := position.offset + limit)) else None);
  }
}
