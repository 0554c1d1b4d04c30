/** Where the events of any record hang, on the main line or off it: by the records alone. */
module ClaudeBranches {
  import opened Utf8
  import opened Claude
  import opened ClaudeChain

  // ---- Reading the records

  /** Above(Above(.. id)), n times. */
  function Up(parents: map<string, string>, id: string, n: nat): string
    decreases n
  {
    if n == 0 then id else Up(parents, Above(parents, id), n - 1)
  }

  /** Some block is one the viewer knows. */
  predicate AnyKnown(blocks: seq<Block>) {
    exists i :: 0 <= i < |blocks| && blocks[i].kind != Unknown
  }

  /** The record shows something of its own that others can hang on. */
  predicate Speaks(r: Record) {
    r.uuid != "" && (r.body.Note? || (r.body.Message? && AnyKnown(r.body.blocks)))
  }

  /** A user message that is nothing but tool results. */
  predicate IsAnswer(r: Record) {
    && r.body.Message? && r.body.role == User && r.body.blocks != []
    && forall i :: 0 <= i < |r.body.blocks| ==> r.body.blocks[i].kind == ToolResult
  }

  /** One of the first k records that speaks has the uuid. */
  ghost predicate SpokenBy(records: seq<Record>, k: nat, u: string) {
    exists i :: 0 <= i < k && i < |records| && records[i].uuid == u && Speaks(records[i])
  }

  /** Of the first k records that speak, record i is the first met from the uuid upwards. */
  ghost predicate Nearest(records: seq<Record>, k: nat, id: string, i: nat) {
    i < k && i < |records| && Speaks(records[i]) && exists n: nat :: FirstMet(records, k, id, records[i].uuid, n)
  }

  ghost predicate FirstMet(records: seq<Record>, k: nat, id: string, u: string, n: nat) {
    && Up(Parents(records), id, n) == u
    && forall m :: 0 <= m < n ==>
      Up(Parents(records), id, m) != "" && !SpokenBy(records, k, Up(Parents(records), id, m))
  }

  // ---- The events of a record

  ghost function At(records: seq<Record>, k: nat): State
    requires k <= |records|
  {
    Run(Parents(records), records[..k])
  }

  /** Where the events of record k begin. */
  ghost function Start(records: seq<Record>, k: nat): nat
    requires k <= |records|
  {
    |At(records, k).events|
  }

  ghost function Final(records: seq<Record>): seq<Event> {
    Completed(Parents(records), Run(Parents(records), records))
  }

  /** The record's key is that of its first event that is not an effort change. */
  ghost predicate IsMain(records: seq<Record>, events: seq<Event>, i: nat, key: Key)
    requires i < |records|
  {
    var s := Start(records, i);
    && s < |events| && s < Start(records, i + 1)
    && if events[s].key == EffortKey(records[i].uuid) then s + 1 < |events| && s + 1 < Start(records, i + 1) && events[s + 1].key == key
       else events[s].key == key
  }

  /** What is found for the record's parent when it is read. */
  ghost function Base(records: seq<Record>, i: nat): Option<Key>
    requires i < |records|
  {
    Resolve(Parents(records), At(records, i), records[i].parent)
  }

  /** A system prompt, or an answer that does not stay at its own call, whose first event b was put
      after event a. */
  ghost predicate HopAt(records: seq<Record>, events: seq<Event>, i: nat, a: Key, b: Key)
    requires i < |records|
  {
    && Start(records, i) < Start(records, i + 1) && Start(records, i) < |events|
    && events[Start(records, i)] == Event(b, Some(a))
    && (records[i].body.Prompt? ||
        (IsAnswer(records[i]) && records[i].uuid != "" && Base(records, i).Some? && Base(records, i) != Some(a)))
  }

  ghost predicate Hop(records: seq<Record>, events: seq<Event>, k: nat, a: Key, b: Key) {
    exists i :: 0 <= i < k && i < |records| && HopAt(records, events, i, a, b)
  }

  ghost predicate Hops(records: seq<Record>, events: seq<Event>, k: nat, chain: seq<Key>) {
    forall j {:trigger HopOn(records, events, k, chain, j)} :: 0 <= j < |chain| - 1 ==> HopOn(records, events, k, chain, j)
  }

  ghost predicate HopOn(records: seq<Record>, events: seq<Event>, k: nat, chain: seq<Key>, j: nat)
    requires j + 1 < |chain|
  {
    Hop(records, events, k, chain[j], chain[j + 1])
  }

  /** From event a one gets to b over the prompts and answers the first k records put after it, and
      nothing was put after b. */
  ghost predicate MovedOn(records: seq<Record>, events: seq<Event>, k: nat, a: Key, b: Key) {
    && (exists chain: seq<Key> :: chain != [] && chain[0] == a && chain[|chain| - 1] == b && Hops(records, events, k, chain))
    && forall c :: !Hop(records, events, k, b, c)
  }

  // ---- Looking up

  lemma {:induction false} UpMore(parents: map<string, string>, id: string, n: nat)
    ensures Up(parents, id, n + 1) == Above(parents, Up(parents, id, n))
    decreases n
  {
    if n > 0 {
      UpMore(parents, Above(parents, id), n - 1);
    }
  }

  lemma {:induction false} UpAdds(parents: map<string, string>, id: string, m: nat, n: nat)
    ensures Up(parents, id, m + n) == Up(parents, Up(parents, id, m), n)
    decreases m
  {
    if m > 0 {
      UpAdds(parents, Above(parents, id), m - 1, n);
    }
  }

  /** The first id with a key, going up. */
  ghost predicate FirstKeyed(parents: map<string, string>, keys: map<string, Key>, id: string, n: nat) {
    && Up(parents, id, n) != "" && Up(parents, id, n) in keys
    && forall m {:trigger Up(parents, id, m)} :: 0 <= m < n ==> Up(parents, id, m) != "" && Up(parents, id, m) !in keys
  }

  lemma {:induction false} FindsFirst(parents: map<string, string>, keys: map<string, Key>, id: string, n: nat,
      steps: nat)
    requires FirstKeyed(parents, keys, id, n) && n < steps
    ensures Find(parents, keys, id, steps) == Some(keys[Up(parents, id, n)])
    decreases n
  {
    assert Up(parents, id, 0) == id;
    if n > 0 {
      assert id !in keys;
      forall m: nat | m < n - 1
        ensures Up(parents, Above(parents, id), m) != "" && Up(parents, Above(parents, id), m) !in keys
      {
        assert Up(parents, id, m + 1) == Up(parents, Above(parents, id), m);
      }
      FindsFirst(parents, keys, Above(parents, id), n - 1, steps - 1);
    }
  }

  lemma {:induction false} FoundIsFirst(parents: map<string, string>, keys: map<string, Key>, id: string, steps: nat)
      returns (n: nat)
    requires Find(parents, keys, id, steps).Some?
    ensures n < steps && FirstKeyed(parents, keys, id, n)
    decreases steps
  {
    assert Up(parents, id, 0) == id;
    if id in keys {
      n := 0;
    } else {
      var m := FoundIsFirst(parents, keys, Above(parents, id), steps - 1);
      n := m + 1;
      forall j: nat | j < n
        ensures Up(parents, id, j) != "" && Up(parents, id, j) !in keys
      {
        if j > 0 {
          assert Up(parents, id, j) == Up(parents, Above(parents, id), j - 1);
        }
      }
    }
  }

  /** Going up to the first keyed id no id comes twice. */
  lemma {:induction false} UpApart(parents: map<string, string>, keys: map<string, Key>, id: string, n: nat, a: nat, b: nat)
    requires FirstKeyed(parents, keys, id, n) && a < b <= n
    ensures Up(parents, id, a) != Up(parents, id, b)
  {
    UpAdds(parents, id, a, n - b);
    UpAdds(parents, id, b, n - b);
    var earlier: nat := a + (n - b);
    assert Up(parents, id, earlier) !in keys;
  }

  ghost predicate Passed(parents: map<string, string>, id: string, k: nat, u: string) {
    exists m: nat :: m <= k && Up(parents, id, m) == u
  }

  lemma {:induction false} UpSet(parents: map<string, string>, keys: map<string, Key>, id: string, n: nat, k: nat)
      returns (ids: set<string>)
    requires FirstKeyed(parents, keys, id, n) && k <= n
    ensures |ids| == k + 1 && forall u :: u in ids <==> Passed(parents, id, k, u)
    decreases k
  {
    if k == 0 {
      ids := {Up(parents, id, 0)};
      assert Passed(parents, id, 0, Up(parents, id, 0));
    } else {
      var rest := UpSet(parents, keys, id, n, k - 1);
      forall m: nat | m <= k - 1
        ensures Up(parents, id, m) != Up(parents, id, k)
      {
        UpApart(parents, keys, id, n, m, k);
      }
      assert !Passed(parents, id, k - 1, Up(parents, id, k));
      ids := rest + {Up(parents, id, k)};
      forall u
        ensures u in ids <==> Passed(parents, id, k, u)
      {
        assert Passed(parents, id, k - 1, u) ==> Passed(parents, id, k, u);
        assert Passed(parents, id, k, Up(parents, id, k));
      }
    }
  }

  lemma StepIsKnown(parents: map<string, string>, id: string, m: nat)
    requires Up(parents, id, m + 1) != ""
    ensures Up(parents, id, m) in parents
  {
    UpMore(parents, id, m);
  }

  /** So it is found within as many steps as there are records. */
  lemma {:induction false} FirstIsNear(parents: map<string, string>, keys: map<string, Key>, id: string, n: nat)
    requires FirstKeyed(parents, keys, id, n) && forall u :: u in keys && u != "" ==> u in parents
    ensures n < |parents|
  {
    var ids := UpSet(parents, keys, id, n, n);
    forall u | u in ids
      ensures u in parents.Keys
    {
      assert Passed(parents, id, n, u);
      var m: nat :| m <= n && Up(parents, id, m) == u;
      if m < n {
        assert Up(parents, id, m + 1) != "";
        StepIsKnown(parents, id, m);
      }
    }
    SubsetCount(ids, parents.Keys);
    assert |parents.Keys| == |parents|;
  }

  // ---- What a record adds

  lemma {:induction false} BlocksAll(st: State, r: Record, base: Option<Key>, blocks: seq<Block>)
    requires forall n :: n in st.late ==> n < |st.events|
    ensures var after := EmitBlocks(st, r, base, blocks);
      && st.events <= after.events && after.keys == st.keys && after.inserted == st.inserted && after.prompts == st.prompts
      && (|after.events| > |st.events| <==> AnyKnown(blocks))
      && (forall n :: |st.events| <= n < |after.events| ==> BlockEvent(r, base, after.events[n]))
    ensures LateMore(st, EmitBlocks(st, r, base, blocks), |st.events|, base == None && r.parent != "", r.parent)
  {
    if blocks != [] {
      var front, last := blocks[..|blocks| - 1], blocks[|blocks| - 1];
      BlocksAll(st, r, base, front);
      assert AnyKnown(blocks) <==> AnyKnown(front) || last.kind != Unknown by {
        assert blocks == front + [last];
        assert blocks[|blocks| - 1] == last;
      }
    }
  }

  ghost predicate BlockEvent(r: Record, base: Option<Key>, e: Event) {
    e.parent == base && if r.uuid == "" then e.key.Digest? else e.key.BlockKey? && e.key.uuid == r.uuid
  }

  /** The events from `from` on wait for a parent, if they do. */
  ghost predicate LateMore(st: State, after: State, from: nat, waiting: bool, parent: string) {
    && (forall n :: n in after.late <==> n in st.late || (waiting && from <= n < |after.events|))
    && (forall n :: n in after.late ==> after.late[n] == if n in st.late then st.late[n] else parent)
  }

  predicate Changes(st: State, r: Record) {
    r.body.Message? && r.body.role == Assistant && r.body.effort != "" && r.body.effort != st.effort
  }

  ghost function Tail(parents: map<string, string>, st: State, r: Record): Option<Key>
    requires r.body.Message?
  {
    var following := Following(parents, st, r, Resolve(parents, st, r.parent));
    if following.Some? then following else Resolve(parents, st, r.parent)
  }

  /** Where the blocks of a message begin. */
  ghost function Blocks(st: State, r: Record): nat {
    |st.events| + if Changes(st, r) then 1 else 0
  }

  lemma BegunAll(parents: map<string, string>, st: State, r: Record)
    requires r.body.Message?
    ensures var (begun, base) := Begun(parents, st, r);
      && begun.events == (if Changes(st, r) then st.events + [Event(EffortKey(r.uuid), Tail(parents, st, r))] else st.events)
      && base == (if Changes(st, r) then Some(EffortKey(r.uuid)) else Tail(parents, st, r))
      && begun.keys == st.keys && begun.inserted == st.inserted && begun.prompts == st.prompts && begun.late == st.late
  {
  }

  lemma EndedAll(begun: State, shown: State, r: Record, following: Option<Key>)
    ensures var after := Ended(begun, shown, r, following);
      var shows := r.uuid != "" && |shown.events| > |begun.events|;
      && after.events == shown.events && after.late == shown.late && after.prompts == shown.prompts
      && after.keys == (if shows then shown.keys[r.uuid := shown.events[|begun.events|].key] else shown.keys)
      && after.inserted ==
        (if shows && following.Some? then shown.inserted[following.value := shown.events[|begun.events|].key] else shown.inserted)
  {
  }

  /** The steps of a message, one by one. */
  ghost predicate SaidBy(parents: map<string, string>, st: State, r: Record, begun: State, base: Option<Key>, shown: State)
    requires r.body.Message?
  {
    && (begun, base) == Begun(parents, st, r) && shown == EmitBlocks(begun, r, base, r.body.blocks)
    && Said(parents, st, r) == Ended(begun, shown, r, Following(parents, st, r, Resolve(parents, st, r.parent)))
  }

  lemma SaidEvents(parents: map<string, string>, st: State, r: Record, begun: State, base: Option<Key>, shown: State)
    requires r.body.Message? && (forall n :: n in st.late ==> n < |st.events|) && SaidBy(parents, st, r, begun, base, shown)
    ensures var after, f := Said(parents, st, r), Blocks(st, r);
      && st.events <= after.events && f <= |after.events| && after.prompts == st.prompts
      && (Changes(st, r) ==> after.events[|st.events|] == Event(EffortKey(r.uuid), Tail(parents, st, r)))
      && (|after.events| > f <==> AnyKnown(r.body.blocks))
      && (forall n :: f <= n < |after.events| ==>
        BlockEvent(r, if Changes(st, r) then Some(EffortKey(r.uuid)) else Tail(parents, st, r), after.events[n]))
  {
    BegunAll(parents, st, r);
    BlocksAll(begun, r, base, r.body.blocks);
    EndedAll(begun, shown, r, Following(parents, st, r, Resolve(parents, st, r.parent)));
    assert Changes(st, r) ==> begun.events[|st.events|] == Event(EffortKey(r.uuid), Tail(parents, st, r));
  }

  lemma FollowsUnchanged(parents: map<string, string>, st: State, r: Record)
    requires r.body.Message?
    ensures Following(parents, st, r, Resolve(parents, st, r.parent)).Some? ==>
      !Changes(st, r) && IsAnswer(r) && Resolve(parents, st, r.parent).Some?
      && Following(parents, st, r, Resolve(parents, st, r.parent)) == Resolve(parents, st, st.head)
      && Following(parents, st, r, Resolve(parents, st, r.parent)) != Resolve(parents, st, r.parent)
  {
  }

  lemma SaidMaps(parents: map<string, string>, st: State, r: Record, begun: State, base: Option<Key>, shown: State)
    requires r.body.Message? && (forall n :: n in st.late ==> n < |st.events|) && SaidBy(parents, st, r, begun, base, shown)
    ensures var after, f, following := Said(parents, st, r), Blocks(st, r), Following(parents, st, r, Resolve(parents, st, r.parent));
      var shows := r.uuid != "" && |after.events| > f;
      && after.keys == (if shows then st.keys[r.uuid := after.events[f].key] else st.keys)
      && after.inserted == (if shows && following.Some? then st.inserted[following.value := after.events[f].key] else st.inserted)
      && LateMore(st, after, f, !Changes(st, r) && Tail(parents, st, r) == None && r.parent != "", r.parent)
  {
    BegunAll(parents, st, r);
    BlocksAll(begun, r, base, r.body.blocks);
    EndedAll(begun, shown, r, Following(parents, st, r, Resolve(parents, st, r.parent)));
  }

  // ---- What holds after some records

  ghost predicate LateOk(st: State) {
    forall n :: n in st.late ==> n < |st.events| && st.events[n].parent == None
  }

  /** No record that is still to come can use the key. */
  ghost predicate KeyIsOld(records: seq<Record>, k: nat, st: State, key: Key)
    requires k <= |records|
  {
    match key
    case BlockKey(_, u, _) => Seen(records, k, u)
    case PromptKey(h) => h in st.prompts
    case _ => true
  }

  ghost predicate AllOld(records: seq<Record>, k: nat, st: State)
    requires k <= |records|
  {
    forall n {:trigger st.events[n]} :: 0 <= n < |st.events| ==> KeyIsOld(records, k, st, st.events[n].key)
  }

  ghost predicate KeyIs(records: seq<Record>, st: State, i: nat)
    requires i < |records|
  {
    Speaks(records[i]) ==> records[i].uuid in st.keys && IsMain(records, st.events, i, st.keys[records[i].uuid])
  }

  /** The uuids with a key are those of records that spoke, and it is the record's own. */
  ghost predicate KeysAre(records: seq<Record>, k: nat, st: State)
    requires k <= |records|
  {
    && (forall u :: u in st.keys && u != "" ==> SpokenBy(records, k, u))
    && (forall i {:trigger KeyIs(records, st, i)} :: 0 <= i < k ==> KeyIs(records, st, i))
  }

  ghost predicate HopIs(records: seq<Record>, k: nat, st: State, a: Key) {
    a in st.inserted ==> Hop(records, st.events, k, a, st.inserted[a])
  }

  /** What was put after an event is exactly what the map says. */
  ghost predicate HopsAre(records: seq<Record>, k: nat, st: State) {
    && (forall a {:trigger HopIs(records, k, st, a)} :: HopIs(records, k, st, a))
    && (forall a, b :: Hop(records, st.events, k, a, b) ==> a in st.inserted)
  }

  /** The record at which something was put after each event. */
  ghost function When(records: seq<Record>, k: nat): (at: map<Key, nat>)
    requires k <= |records|
    ensures at.Keys == At(records, k).inserted.Keys
    ensures forall a :: a in at ==> at[a] < k
  {
    if k == 0 then map[]
    else
      var before := When(records, k - 1);
      map a | a in At(records, k).inserted :: if a in before then before[a] else k - 1
  }

  ghost predicate Later(inserted: map<Key, Key>, at: map<Key, nat>, a: Key) {
    a in inserted && inserted[a] in inserted ==> a in at && inserted[a] in at && at[a] < at[inserted[a]]
  }

  ghost predicate AllLater(inserted: map<Key, Key>, at: map<Key, nat>) {
    forall a {:trigger Later(inserted, at, a)} :: Later(inserted, at, a)
  }

  ghost predicate Holds(records: seq<Record>, k: nat)
    requires k <= |records|
  {
    var st := At(records, k);
    && LateOk(st) && AllOld(records, k, st) && KeysAre(records, k, st) && HopsAre(records, k, st)
    && AllLater(st.inserted, When(records, k))
  }

  // ---- Following what was put after an event ends

  lemma {:induction false} FollowEnds(inserted: map<Key, Key>, at: map<Key, nat>, key: Key, hops: nat, from: nat,
      rest: set<Key>)
    requires AllLater(inserted, at) && at.Keys == inserted.Keys
    requires rest == (set a | a in inserted && at[a] >= from) && |rest| <= hops
    requires key in inserted ==> at[key] >= from
    ensures Follow(inserted, key, hops) !in inserted
    decreases hops
  {
    if key in inserted {
      assert key in rest;
      assert Later(inserted, at, key);
      var next := set a | a in inserted && at[a] >= at[key] + 1;
      assert next <= rest - {key};
      SubsetCount(next, rest - {key});
      FollowEnds(inserted, at, inserted[key], hops - 1, at[key] + 1, next);
    } else if hops > 0 {
      assert Follow(inserted, key, hops) == key;
    }
  }

  lemma {:induction false} FollowsFar(inserted: map<Key, Key>, at: map<Key, nat>, key: Key)
    requires AllLater(inserted, at) && at.Keys == inserted.Keys
    ensures Follow(inserted, key, |inserted| + 1) !in inserted
  {
    var rest := set a | a in inserted && at[a] >= 0;
    assert rest == inserted.Keys;
    assert |inserted.Keys| == |inserted|;
    FollowEnds(inserted, at, key, |inserted| + 1, 0, rest);
  }

  lemma {:induction false} FollowHops(records: seq<Record>, k: nat, st: State, key: Key, hops: nat)
      returns (chain: seq<Key>)
    requires HopsAre(records, k, st)
    ensures chain != [] && chain[0] == key && chain[|chain| - 1] == Follow(st.inserted, key, hops)
    ensures Hops(records, st.events, k, chain)
    decreases hops
  {
    if hops == 0 || key !in st.inserted {
      chain := [key];
    } else {
      var rest := FollowHops(records, k, st, st.inserted[key], hops - 1);
      chain := [key] + rest;
      assert HopIs(records, k, st, key);
      forall j: nat | j < |chain| - 1
        ensures HopOn(records, st.events, k, chain, j)
      {
        if j > 0 {
          assert HopOn(records, st.events, k, rest, j - 1);
        }
      }
    }
  }

  lemma {:induction false} FollowMoves(records: seq<Record>, k: nat, key: Key)
    requires k <= |records| && Holds(records, k)
    ensures var st := At(records, k); MovedOn(records, st.events, k, key, Follow(st.inserted, key, |st.inserted| + 1))
  {
    var st := At(records, k);
    var chain := FollowHops(records, k, st, key, |st.inserted| + 1);
    FollowsFar(st.inserted, When(records, k), key);
  }

  // ---- What is found for a uuid

  /** The key of the record nearest above the id, moved on; or none. */
  ghost predicate HangsOn(records: seq<Record>, k: nat, events: seq<Event>, id: string, parent: Option<Key>) {
    if parent.None? then forall i :: !Nearest(records, k, id, i)
    else exists i, key :: HangsBy(records, k, events, id, parent.value, i, key)
  }

  ghost predicate HangsBy(records: seq<Record>, k: nat, events: seq<Event>, id: string, parent: Key, i: nat, key: Key) {
    Nearest(records, k, id, i) && IsMain(records, events, i, key) && MovedOn(records, events, k, key, parent)
  }

  lemma SpokenIsKeyed(records: seq<Record>, k: nat, st: State, u: string)
    requires k <= |records| && KeysAre(records, k, st) && u != ""
    ensures u in st.keys <==> SpokenBy(records, k, u)
  {
    if SpokenBy(records, k, u) {
      var i :| 0 <= i < k && i < |records| && records[i].uuid == u && Speaks(records[i]);
      assert KeyIs(records, st, i);
    }
  }

  lemma NearestIsFirst(records: seq<Record>, k: nat, st: State, id: string, i: nat) returns (n: nat)
    requires k <= |records| && KeysAre(records, k, st) && Nearest(records, k, id, i)
    ensures FirstKeyed(Parents(records), st.keys, id, n) && Up(Parents(records), id, n) == records[i].uuid
  {
    n :| FirstMet(records, k, id, records[i].uuid, n);
    assert SpokenBy(records, k, records[i].uuid);
    SpokenIsKeyed(records, k, st, records[i].uuid);
    forall m: nat | m < n
      ensures Up(Parents(records), id, m) != "" && Up(Parents(records), id, m) !in st.keys
    {
      SpokenIsKeyed(records, k, st, Up(Parents(records), id, m));
    }
  }

  lemma FirstIsNearest(records: seq<Record>, k: nat, st: State, id: string, n: nat) returns (i: nat)
    requires k <= |records| && KeysAre(records, k, st) && FirstKeyed(Parents(records), st.keys, id, n)
    ensures Nearest(records, k, id, i) && records[i].uuid == Up(Parents(records), id, n)
  {
    var u := Up(Parents(records), id, n);
    SpokenIsKeyed(records, k, st, u);
    i :| 0 <= i < k && i < |records| && records[i].uuid == u && Speaks(records[i]);
    forall m: nat | m < n
      ensures Up(Parents(records), id, m) != "" && !SpokenBy(records, k, Up(Parents(records), id, m))
    {
      SpokenIsKeyed(records, k, st, Up(Parents(records), id, m));
    }
    assert FirstMet(records, k, id, records[i].uuid, n);
  }

  lemma {:induction false} KeyedHave(records: seq<Record>, k: nat, st: State)
    requires UniqueUuids(records) && k <= |records| && KeysAre(records, k, st)
    ensures forall u :: u in st.keys && u != "" ==> u in Parents(records)
  {
    forall u | u in st.keys && u != ""
      ensures u in Parents(records)
    {
      assert SpokenBy(records, k, u);
      var i :| 0 <= i < k && i < |records| && records[i].uuid == u && Speaks(records[i]);
      ParentsHave(records, i, |records|);
      assert records[..|records|] == records;
    }
  }

  /** Looking up finds what the records say. */
  lemma {:induction false} ResolveHangs(records: seq<Record>, k: nat, id: string)
    requires UniqueUuids(records) && k <= |records| && Holds(records, k)
    ensures HangsOn(records, k, At(records, k).events, id, Resolve(Parents(records), At(records, k), id))
  {
    var parents, st := Parents(records), At(records, k);
    var found := Find(parents, st.keys, id, |parents| + 1);
    KeyedHave(records, k, st);
    if found.Some? {
      var n := FoundIsFirst(parents, st.keys, id, |parents| + 1);
      FindsFirst(parents, st.keys, id, n, |parents| + 1);
      var i := FirstIsNearest(records, k, st, id, n);
      assert KeyIs(records, st, i);
      FollowMoves(records, k, found.value);
      assert HangsBy(records, k, st.events, id, Resolve(parents, st, id).value, i, found.value);
    } else if i: nat :| Nearest(records, k, id, i) {
      var n := NearestIsFirst(records, k, st, id, i);
      FirstIsNear(parents, st.keys, id, n);
      FindsFirst(parents, st.keys, id, n, |parents| + 1);
    }
  }

  // ---- One record more

  lemma {:induction false} AtNext(records: seq<Record>, k: nat)
    requires k < |records|
    ensures At(records, k + 1) == Step(Parents(records), At(records, k), records[k])
    ensures At(records, k).events <= At(records, k + 1).events
  {
    assert records[..k + 1][..k] == records[..k];
    StepGrows(Parents(records), At(records, k), records[k]);
  }

  lemma {:induction false} StartGrows(records: seq<Record>, i: nat, k: nat)
    requires i <= k <= |records|
    ensures At(records, i).events <= At(records, k).events
    decreases k
  {
    if i < k {
      StartGrows(records, i, k - 1);
      AtNext(records, k - 1);
    }
  }

  // What a record adds to the events, to the keys and to what waits.

  ghost predicate AddsEvents(st: State, after: State, r: Record) {
    && st.events <= after.events && st.prompts <= after.prompts
    && forall n {:trigger after.events[n]} :: |st.events| <= n < |after.events| ==> NewKey(r, after, after.events[n].key)
  }

  ghost predicate NewKey(r: Record, after: State, key: Key) {
    match key
    case BlockKey(_, u, _) => u != "" && u == r.uuid
    case PromptKey(h) => h in after.prompts
    case _ => true
  }

  /** Its first event that is not an effort change gives the record its key. */
  ghost predicate MainFrom(events: seq<Event>, s: nat, r: Record, key: Key) {
    && s < |events|
    && if events[s].key == EffortKey(r.uuid) then s + 1 < |events| && events[s + 1].key == key else events[s].key == key
  }

  ghost predicate AddsKeys(st: State, after: State, r: Record) {
    && (forall u :: u != "" && u != r.uuid ==>
      (u in after.keys <==> u in st.keys) && (u in st.keys ==> after.keys[u] == st.keys[u]))
    && (Speaks(r) ==> r.uuid in after.keys && MainFrom(after.events, |st.events|, r, after.keys[r.uuid]))
    && (!Speaks(r) && r.uuid != "" ==> (r.uuid in after.keys <==> r.uuid in st.keys))
  }

  ghost predicate AddsLate(st: State, after: State) {
    forall n :: n in after.late ==> n in st.late || (n < |after.events| && after.events[n].parent == None)
  }

  lemma SaidAddsEvents(parents: map<string, string>, st: State, r: Record, begun: State, base: Option<Key>, shown: State)
    requires r.body.Message? && LateOk(st) && SaidBy(parents, st, r, begun, base, shown)
    ensures AddsEvents(st, Said(parents, st, r), r)
  {
    SaidEvents(parents, st, r, begun, base, shown);
  }

  lemma SaidAddsLate(parents: map<string, string>, st: State, r: Record, begun: State, base: Option<Key>, shown: State)
    requires r.body.Message? && LateOk(st) && SaidBy(parents, st, r, begun, base, shown)
    ensures AddsLate(st, Said(parents, st, r))
  {
    SaidEvents(parents, st, r, begun, base, shown);
    SaidMaps(parents, st, r, begun, base, shown);
  }

  lemma SaidMain(parents: map<string, string>, st: State, r: Record, begun: State, base: Option<Key>, shown: State)
    requires r.body.Message? && LateOk(st) && SaidBy(parents, st, r, begun, base, shown)
    ensures var after, f := Said(parents, st, r), Blocks(st, r);
      |after.events| > f ==> MainFrom(after.events, |st.events|, r, after.events[f].key)
  {
    SaidEvents(parents, st, r, begun, base, shown);
  }

  lemma SaidAddsKeys(parents: map<string, string>, st: State, r: Record, begun: State, base: Option<Key>, shown: State)
    requires r.body.Message? && LateOk(st) && SaidBy(parents, st, r, begun, base, shown)
    ensures AddsKeys(st, Said(parents, st, r), r)
  {
    SaidMain(parents, st, r, begun, base, shown);
    SaidSpeaks(parents, st, r, begun, base, shown);
    SaidMaps(parents, st, r, begun, base, shown);
  }

  lemma SaidSpeaks(parents: map<string, string>, st: State, r: Record, begun: State, base: Option<Key>, shown: State)
    requires r.body.Message? && LateOk(st) && SaidBy(parents, st, r, begun, base, shown)
    ensures Speaks(r) <==> r.uuid != "" && |Said(parents, st, r).events| > Blocks(st, r)
  {
    SaidEvents(parents, st, r, begun, base, shown);
  }

  lemma NotedAdds(parents: map<string, string>, st: State, r: Record)
    requires r.body.Note?
    ensures var after := Noted(parents, st, r); AddsEvents(st, after, r) && AddsKeys(st, after, r) && AddsLate(st, after)
    ensures Noted(parents, st, r).inserted == st.inserted
  {
    var after := Noted(parents, st, r);
    assert after.events[..|st.events|] == st.events;
  }

  lemma WithPromptAdds(st: State, hash: string, parent: Option<Key>, r: Record)
    requires !Speaks(r)
    ensures var after := WithPrompt(st, hash, parent);
      AddsEvents(st, after, r) && AddsKeys(st, after, r) && AddsLate(st, after)
  {
    var after := WithPrompt(st, hash, parent);
    assert after.events[..|st.events|] == st.events;
  }

  lemma PromptedAdds(parents: map<string, string>, st: State, r: Record)
    requires r.body.Prompt?
    ensures var after := Prompted(parents, st, r); AddsEvents(st, after, r) && AddsKeys(st, after, r) && AddsLate(st, after)
  {
    var headed := Headed(st, r);
    WithPromptAdds(headed, r.body.hash, Resolve(parents, headed, headed.head), r);
  }

  ghost predicate Adds(records: seq<Record>, k: nat)
    requires k < |records|
  {
    var st, after := At(records, k), At(records, k + 1);
    AddsEvents(st, after, records[k]) && AddsKeys(st, after, records[k]) && AddsLate(st, after)
  }

  lemma MessageAdds(records: seq<Record>, k: nat)
    requires k < |records| && records[k].body.Message? && LateOk(At(records, k))
    ensures Adds(records, k)
  {
    var parents, st, r := Parents(records), At(records, k), records[k];
    var (begun, base) := Begun(parents, st, r);
    var shown := EmitBlocks(begun, r, base, r.body.blocks);
    AtNext(records, k);
    SaidAddsEvents(parents, st, r, begun, base, shown);
    SaidAddsKeys(parents, st, r, begun, base, shown);
    SaidAddsLate(parents, st, r, begun, base, shown);
  }

  lemma {:induction false} RecordAdds(records: seq<Record>, k: nat)
    requires k < |records| && LateOk(At(records, k))
    ensures Adds(records, k)
  {
    AtNext(records, k);
    match records[k].body
    case Silent =>
    case Note(_) => NotedAdds(Parents(records), At(records, k), records[k]);
    case Prompt(_) => PromptedAdds(Parents(records), At(records, k), records[k]);
    case Message(_, _, _) => MessageAdds(records, k);
  }

  /** What a record puts after an event that had nothing put after it yet, if it does. */
  ghost predicate Puts(records: seq<Record>, k: nat, st: State, after: State)
    requires k < |records|
  {
    || (after.inserted == st.inserted && forall a, b :: !HopAt(records, after.events, k, a, b))
    || exists a, b :: PutsOne(records, k, st, after, a, b)
  }

  ghost predicate PutsOne(records: seq<Record>, k: nat, st: State, after: State, a: Key, b: Key)
    requires k < |records|
  {
    && after.inserted == st.inserted[a := b] && HopAt(records, after.events, k, a, b) && a !in st.inserted
    && !Emitted(st.events, b)
  }

  lemma IsNew(records: seq<Record>, k: nat, key: Key)
    requires k <= |records| && AllOld(records, k, At(records, k)) && !KeyIsOld(records, k, At(records, k), key)
    ensures !Emitted(At(records, k).events, key)
  {
  }

  lemma {:induction false} ResolvedIsLast(records: seq<Record>, k: nat, id: string)
    requires k <= |records| && Holds(records, k)
    ensures Resolve(Parents(records), At(records, k), id).Some? ==>
      Resolve(Parents(records), At(records, k), id).value !in At(records, k).inserted
  {
    var parents, st := Parents(records), At(records, k);
    if Resolve(parents, st, id).Some? {
      FollowsFar(st.inserted, When(records, k), Find(parents, st.keys, id, |parents| + 1).value);
    }
  }

  lemma {:induction false} MessagePuts(records: seq<Record>, k: nat)
    requires UniqueUuids(records) && k < |records| && records[k].body.Message? && Holds(records, k)
    ensures Puts(records, k, At(records, k), At(records, k + 1))
  {
    var parents, st, r := Parents(records), At(records, k), records[k];
    var (begun, base) := Begun(parents, st, r);
    var after := At(records, k + 1);
    AtNext(records, k);
    SaidEvents(parents, st, r, begun, base, EmitBlocks(begun, r, base, r.body.blocks));
    SaidMaps(parents, st, r, begun, base, EmitBlocks(begun, r, base, r.body.blocks));
    FollowsUnchanged(parents, st, r);
    var following := Following(parents, st, r, Resolve(parents, st, r.parent));
    if following.Some? && r.uuid != "" && |after.events| > |st.events| {
      ResolvedIsLast(records, k, st.head);
      NotSeen(records, k);
      IsNew(records, k, after.events[|st.events|].key);
      assert PutsOne(records, k, st, after, following.value, after.events[|st.events|].key);
    }
  }

  lemma {:induction false} PromptPuts(records: seq<Record>, k: nat)
    requires k < |records| && records[k].body.Prompt? && Holds(records, k)
    ensures Puts(records, k, At(records, k), At(records, k + 1))
  {
    var parents, st, r := Parents(records), At(records, k), records[k];
    var after := At(records, k + 1);
    var headed := Headed(st, r);
    var parent := Resolve(parents, headed, headed.head);
    AtNext(records, k);
    ResolvedIsLast(records, k, headed.head);
    assert parent == Resolve(parents, st, headed.head);
    if r.body.hash !in st.prompts && parent.Some? {
      IsNew(records, k, PromptKey(r.body.hash));
      assert PutsOne(records, k, st, after, parent.value, PromptKey(r.body.hash));
    }
  }

  lemma {:induction false} RecordPuts(records: seq<Record>, k: nat)
    requires UniqueUuids(records) && k < |records| && Holds(records, k)
    ensures Puts(records, k, At(records, k), At(records, k + 1))
  {
    match records[k].body
    case Silent => AtNext(records, k);
    case Note(_) => AtNext(records, k);
    case Prompt(_) => PromptPuts(records, k);
    case Message(_, _, _) => MessagePuts(records, k);
  }

  lemma {:induction false} LateMoves(records: seq<Record>, k: nat)
    requires k < |records| && LateOk(At(records, k)) && Adds(records, k)
    ensures LateOk(At(records, k + 1))
  {
  }

  lemma {:induction false} OldMoves(records: seq<Record>, k: nat)
    requires k < |records| && AllOld(records, k, At(records, k)) && Adds(records, k)
    ensures AllOld(records, k + 1, At(records, k + 1))
  {
    var st, after := At(records, k), At(records, k + 1);
    forall n: nat | n < |after.events|
      ensures KeyIsOld(records, k + 1, after, after.events[n].key)
    {
      if n < |st.events| {
        assert after.events[n] == st.events[n];
        assert KeyIsOld(records, k, st, st.events[n].key);
      } else {
        assert NewKey(records[k], after, after.events[n].key);
        if records[k].uuid != "" {
          SeenHere(records, k);
        }
      }
    }
  }

  lemma IsMainStays(records: seq<Record>, events: seq<Event>, more: seq<Event>, i: nat, key: Key)
    requires i < |records| && IsMain(records, events, i, key) && events <= more
    ensures IsMain(records, more, i, key)
  {
  }

  lemma SpokenMore(records: seq<Record>, k: nat, u: string)
    requires k < |records|
    ensures SpokenBy(records, k + 1, u) <==> SpokenBy(records, k, u) || (Speaks(records[k]) && records[k].uuid == u)
  {
  }

  lemma {:induction false} MainIs(records: seq<Record>, k: nat)
    requires k < |records| && Adds(records, k)
    ensures KeyIs(records, At(records, k + 1), k)
  {
    var after, r := At(records, k + 1), records[k];
    if Speaks(r) {
      AddsMain(At(records, k), after, r);
      FromStart(records, after.events, k, after.keys[r.uuid]);
    }
  }

  lemma AddsMain(st: State, after: State, r: Record)
    requires AddsKeys(st, after, r) && Speaks(r)
    ensures r.uuid in after.keys && MainFrom(after.events, |st.events|, r, after.keys[r.uuid])
  {
  }

  lemma FromStart(records: seq<Record>, events: seq<Event>, k: nat, key: Key)
    requires k < |records| && MainFrom(events, Start(records, k), records[k], key) && |events| == Start(records, k + 1)
    ensures IsMain(records, events, k, key)
  {
  }

  lemma {:induction false} KeysMove(records: seq<Record>, k: nat)
    requires UniqueUuids(records) && k < |records| && KeysAre(records, k, At(records, k)) && Adds(records, k)
    ensures KeysAre(records, k + 1, At(records, k + 1))
  {
    var st, after := At(records, k), At(records, k + 1);
    forall i: nat | i < k + 1
      ensures KeyIs(records, after, i)
    {
      if i == k {
        MainIs(records, k);
      } else if Speaks(records[i]) {
        assert KeyIs(records, st, i);
        assert records[i].uuid != records[k].uuid;
        IsMainStays(records, st.events, after.events, i, st.keys[records[i].uuid]);
      }
    }
    forall u | u in after.keys && u != ""
      ensures SpokenBy(records, k + 1, u)
    {
      SpokenMore(records, k, u);
      if u == records[k].uuid && !Speaks(records[k]) {
        assert SpokenBy(records, k, u);
      }
    }
  }

  /** A hop at an earlier record reads the events of before. */
  lemma {:induction false} HopAtStays(records: seq<Record>, k: nat, i: nat, a: Key, b: Key)
    requires i < k < |records|
    ensures HopAt(records, At(records, k + 1).events, i, a, b) <==> HopAt(records, At(records, k).events, i, a, b)
  {
    AtNext(records, k);
    StartGrows(records, i + 1, k);
  }

  lemma SomeBelow(g: nat -> bool, h: nat -> bool, k: nat)
    requires forall i: nat :: i < k ==> g(i) == h(i)
    ensures (exists i: nat :: i < k + 1 && h(i)) <==> (exists i: nat :: i < k && g(i)) || h(k)
  {
    if i: nat :| i < k && g(i) {
      assert h(i);
    }
    if i: nat :| i < k + 1 && h(i) {
      assert i < k ==> g(i);
    }
  }

  lemma HopIsSome(records: seq<Record>, events: seq<Event>, k: nat, a: Key, b: Key, g: nat -> bool)
    requires k <= |records| && forall i: nat :: i < k ==> (g(i) <==> HopAt(records, events, i, a, b))
    ensures Hop(records, events, k, a, b) <==> exists i: nat :: i < k && g(i)
  {
    if Hop(records, events, k, a, b) {
      var i: nat :| i < k && i < |records| && HopAt(records, events, i, a, b);
      assert g(i);
    }
    if i: nat :| i < k && g(i) {
      assert HopAt(records, events, i, a, b);
    }
  }

  lemma {:induction false} HopStays(records: seq<Record>, k: nat, a: Key, b: Key)
    requires k < |records|
    ensures Hop(records, At(records, k + 1).events, k + 1, a, b) <==>
      Hop(records, At(records, k).events, k, a, b) || HopAt(records, At(records, k + 1).events, k, a, b)
  {
    var events, more := At(records, k).events, At(records, k + 1).events;
    var g, h := (i: nat) => i < |records| && HopAt(records, events, i, a, b), (i: nat) => i < |records| && HopAt(records, more, i, a, b);
    forall i: nat | i < k
      ensures g(i) == h(i)
    {
      HopAtStays(records, k, i, a, b);
    }
    HopIsSome(records, events, k, a, b, g);
    HopIsSome(records, more, k + 1, a, b, h);
    SomeBelow(g, h, k);
  }

  lemma {:induction false} HopsMove(records: seq<Record>, k: nat)
    requires k < |records| && HopsAre(records, k, At(records, k)) && Puts(records, k, At(records, k), At(records, k + 1))
    ensures HopsAre(records, k + 1, At(records, k + 1))
  {
    var st, after, m := At(records, k), At(records, k + 1), k + 1;
    forall c, d {
      HopStays(records, k, c, d);
    }
    forall c
      ensures HopIs(records, m, after, c)
    {
      assert HopIs(records, k, st, c);
    }
    forall c, d | Hop(records, after.events, m, c, d)
      ensures c in after.inserted
    {
      HopPut(records, k, c, d);
    }
  }

  lemma HopPut(records: seq<Record>, k: nat, c: Key, d: Key)
    requires k < |records| && Puts(records, k, At(records, k), At(records, k + 1))
    requires HopsAre(records, k, At(records, k))
    requires Hop(records, At(records, k).events, k, c, d) || HopAt(records, At(records, k + 1).events, k, c, d)
    ensures c in At(records, k + 1).inserted
  {
    var st, after := At(records, k), At(records, k + 1);
    if a, b :| PutsOne(records, k, st, after, a, b) {
      assert HopAt(records, after.events, k, c, d) ==> c == a;
    }
  }

  /** What something was put after is an event. */
  lemma {:induction false} PutAfterIsEmitted(records: seq<Record>, k: nat, a: Key)
    requires k <= |records| && HopsAre(records, k, At(records, k)) && a in At(records, k).inserted
    ensures Emitted(At(records, k).events, a)
  {
    var st := At(records, k);
    RunKnown(Parents(records), records[..k]);
    assert HopIs(records, k, st, a);
    var i :| 0 <= i < k && i < |records| && HopAt(records, st.events, i, a, st.inserted[a]);
    assert ParentEarlier(st.events, Start(records, i));
    EmittedInMore(st.events, Start(records, i), a);
  }

  lemma {:induction false} LaterMoves(records: seq<Record>, k: nat)
    requires k < |records| && Holds(records, k) && Puts(records, k, At(records, k), At(records, k + 1))
    ensures AllLater(At(records, k + 1).inserted, When(records, k + 1))
  {
    var st, after := At(records, k), At(records, k + 1);
    var before, at := When(records, k), When(records, k + 1);
    if a, b :| PutsOne(records, k, st, after, a, b) {
      if b in st.inserted {
        PutAfterIsEmitted(records, k, b);
      }
      forall c
        ensures Later(after.inserted, at, c)
      {
        assert Later(st.inserted, before, c);
        NotItself(records, k, a, b);
      }
    } else {
      forall c
        ensures Later(after.inserted, at, c)
      {
        assert Later(st.inserted, before, c);
      }
    }
  }

  lemma {:induction false} NotItself(records: seq<Record>, k: nat, a: Key, b: Key)
    requires k < |records| && PutsOne(records, k, At(records, k), At(records, k + 1), a, b)
    ensures a != b
  {
    var st, after := At(records, k), At(records, k + 1);
    RunKnown(Parents(records), records[..k + 1]);
    AtNext(records, k);
    assert ParentEarlier(after.events, Start(records, k));
    assert after.events[..Start(records, k)] == st.events;
  }

  lemma {:induction false} AllHold(records: seq<Record>, k: nat)
    requires UniqueUuids(records) && k <= |records|
    ensures Holds(records, k)
  {
    if k == 0 {
      NoneHolds(records);
    } else {
      AllHold(records, k - 1);
      NextHolds(records, k - 1);
    }
  }

  lemma NoneHolds(records: seq<Record>)
    ensures Holds(records, 0)
  {
    assert At(records, 0) == START;
  }

  lemma NextHolds(records: seq<Record>, k: nat)
    requires UniqueUuids(records) && k < |records| && Holds(records, k)
    ensures Holds(records, k + 1)
  {
    RecordAdds(records, k);
    RecordPuts(records, k);
    LateMoves(records, k);
    OldMoves(records, k);
    KeysMove(records, k);
    HopsMove(records, k);
    LaterMoves(records, k);
  }

  // ---- Events that wait for their parent

  /** A message that names a parent, of which nothing is shown yet, and changes no effort. */
  ghost predicate Waits(records: seq<Record>, i: nat)
    requires i < |records|
  {
    var r := records[i];
    r.body.Message? && !Changes(At(records, i), r) && Base(records, i) == None && r.parent != ""
  }

  ghost predicate LateSame(st: State, after: State, n: nat) {
    (n in after.late <==> n in st.late) && (n in st.late ==> after.late[n] == st.late[n])
  }

  lemma SaidLateSame(parents: map<string, string>, st: State, r: Record, begun: State, base: Option<Key>, shown: State,
      n: nat)
    requires r.body.Message? && LateOk(st) && SaidBy(parents, st, r, begun, base, shown)
    ensures n < |st.events| ==> LateSame(st, Said(parents, st, r), n)
    ensures |st.events| <= n < |Said(parents, st, r).events| ==>
      && (n in Said(parents, st, r).late <==> !Changes(st, r) && Resolve(parents, st, r.parent) == None && r.parent != "")
      && (n in Said(parents, st, r).late ==> Said(parents, st, r).late[n] == r.parent)
  {
    SaidMaps(parents, st, r, begun, base, shown);
  }

  lemma {:induction false} LateStep(records: seq<Record>, k: nat, n: nat)
    requires k < |records| && LateOk(At(records, k))
    ensures n < Start(records, k) ==> LateSame(At(records, k), At(records, k + 1), n)
    ensures Start(records, k) <= n < Start(records, k + 1) ==>
      && (n in At(records, k + 1).late <==> Waits(records, k))
      && (n in At(records, k + 1).late ==> At(records, k + 1).late[n] == records[k].parent)
  {
    var parents, st, r := Parents(records), At(records, k), records[k];
    AtNext(records, k);
    match r.body
    case Silent =>
    case Note(_) => NotedLate(parents, st, r);
    case Prompt(_) => PromptedLate(parents, st, r);
    case Message(_, _, _) =>
      var (begun, base) := Begun(parents, st, r);
      SaidLateSame(parents, st, r, begun, base, EmitBlocks(begun, r, base, r.body.blocks), n);
  }

  lemma {:induction false} LateStays(records: seq<Record>, k: nat, i: nat, n: nat)
    requires UniqueUuids(records) && i < k < |records| && n < Start(records, i + 1)
    ensures LateSame(At(records, k), At(records, k + 1), n)
  {
    StartGrows(records, i + 1, k);
    AllHold(records, k);
    LateStep(records, k, n);
  }

  lemma {:induction false} LateHere(records: seq<Record>, i: nat, n: nat)
    requires UniqueUuids(records) && i < |records| && Start(records, i) <= n < Start(records, i + 1)
    ensures LateAs(records, At(records, i + 1), i, n)
  {
    AllHold(records, i);
    LateStep(records, i, n);
  }

  /** The event waits, if it does, for the parent of record i. */
  ghost predicate LateAs(records: seq<Record>, st: State, i: nat, n: nat)
    requires i < |records|
  {
    (n in st.late <==> Waits(records, i)) && (n in st.late ==> st.late[n] == records[i].parent)
  }

  lemma LateThrough(records: seq<Record>, st: State, after: State, i: nat, n: nat)
    requires i < |records| && LateAs(records, st, i, n) && LateSame(st, after, n)
    ensures LateAs(records, after, i, n)
  {
  }

  lemma {:induction false} LateIs(records: seq<Record>, k: nat, i: nat, n: nat)
    requires UniqueUuids(records) && i < k <= |records| && Start(records, i) <= n < Start(records, i + 1)
    ensures LateAs(records, At(records, k), i, n)
    decreases k
  {
    if i == k - 1 {
      LateHere(records, i, n);
    } else {
      LateIs(records, k - 1, i, n);
      LateStays(records, k - 1, i, n);
      LateThrough(records, At(records, k - 1), At(records, k), i, n);
    }
  }

  // ---- In the result

  ghost predicate SameBut(events: seq<Event>, more: seq<Event>) {
    |events| <= |more| && forall n :: 0 <= n < |events| ==>
      more[n].key == events[n].key && (events[n].parent.Some? ==> more[n] == events[n])
  }

  lemma {:induction false} FinalIs(records: seq<Record>, k: nat)
    requires UniqueUuids(records) && k <= |records|
    ensures SameBut(At(records, k).events, Final(records)) && |Final(records)| == Start(records, |records|)
  {
    assert records[..|records|] == records;
    AllHold(records, |records|);
    StartGrows(records, k, |records|);
  }

  lemma {:induction false} HopIsFinal(records: seq<Record>, k: nat, a: Key, b: Key)
    requires UniqueUuids(records) && k <= |records|
    ensures Hop(records, Final(records), k, a, b) <==> Hop(records, At(records, k).events, k, a, b)
  {
    var events, more := At(records, k).events, Final(records);
    var g := (i: nat) => i < |records| && HopAt(records, events, i, a, b);
    FinalIs(records, k);
    forall i: nat | i < k
      ensures HopAt(records, more, i, a, b) <==> g(i)
    {
      HopAtFinal(records, k, i, a, b);
    }
    HopIsSome(records, events, k, a, b, g);
    HopIsSome(records, more, k, a, b, g);
  }

  lemma WaitingNoHop(records: seq<Record>, events: seq<Event>, i: nat, a: Key, b: Key)
    requires i < |records| && Waits(records, i)
    ensures !HopAt(records, events, i, a, b)
  {
  }

  lemma SameHopAt(records: seq<Record>, events: seq<Event>, more: seq<Event>, i: nat, a: Key, b: Key)
    requires i < |records| && Start(records, i) < |events| <= |more| && events[Start(records, i)] == more[Start(records, i)]
    ensures HopAt(records, more, i, a, b) <==> HopAt(records, events, i, a, b)
  {
  }

  lemma NoEventsNoHop(records: seq<Record>, events: seq<Event>, i: nat, a: Key, b: Key)
    requires i < |records| && Start(records, i) >= Start(records, i + 1)
    ensures !HopAt(records, events, i, a, b)
  {
  }

  lemma {:induction false} FirstInFinal(records: seq<Record>, k: nat, i: nat)
    requires UniqueUuids(records) && i < k <= |records| && !Waits(records, i) && Start(records, i) < Start(records, i + 1)
    ensures Start(records, i) < Start(records, k) <= |Final(records)|
    ensures At(records, k).events[Start(records, i)] == Final(records)[Start(records, i)]
  {
    StartGrows(records, i + 1, k);
    NotWaiting(records, i, Start(records, i));
    FinalIs(records, k);
  }

  lemma {:induction false} HopAtFinal(records: seq<Record>, k: nat, i: nat, a: Key, b: Key)
    requires UniqueUuids(records) && i < k <= |records| && SameBut(At(records, k).events, Final(records))
    ensures HopAt(records, Final(records), i, a, b) <==> HopAt(records, At(records, k).events, i, a, b)
  {
    if Start(records, i) >= Start(records, i + 1) {
      NoEventsNoHop(records, Final(records), i, a, b);
      NoEventsNoHop(records, At(records, k).events, i, a, b);
    } else if Waits(records, i) {
      WaitingNoHop(records, Final(records), i, a, b);
      WaitingNoHop(records, At(records, k).events, i, a, b);
    } else {
      FirstInFinal(records, k, i);
      SameHopAt(records, At(records, k).events, Final(records), i, a, b);
    }
  }

  lemma {:induction false} HangsInFinal(records: seq<Record>, k: nat, id: string, parent: Option<Key>)
    requires UniqueUuids(records) && k <= |records| && HangsOn(records, k, At(records, k).events, id, parent)
    ensures HangsOn(records, k, Final(records), id, parent)
  {
    if parent.Some? {
      var i, key :| HangsBy(records, k, At(records, k).events, id, parent.value, i, key);
      FinalIs(records, k);
      assert IsMain(records, Final(records), i, key);
      MovedInFinal(records, k, key, parent.value);
      assert HangsBy(records, k, Final(records), id, parent.value, i, key);
    }
  }

  lemma {:induction false} MovedInFinal(records: seq<Record>, k: nat, a: Key, b: Key)
    requires UniqueUuids(records) && k <= |records| && MovedOn(records, At(records, k).events, k, a, b)
    ensures MovedOn(records, Final(records), k, a, b)
  {
    var events := At(records, k).events;
    var chain: seq<Key> :| chain != [] && chain[0] == a && chain[|chain| - 1] == b && Hops(records, events, k, chain);
    forall j: nat | j < |chain| - 1
      ensures HopOn(records, Final(records), k, chain, j)
    {
      assert HopOn(records, events, k, chain, j);
      HopIsFinal(records, k, chain[j], chain[j + 1]);
    }
    forall c
      ensures !Hop(records, Final(records), k, b, c)
    {
      HopIsFinal(records, k, b, c);
    }
  }

  lemma {:induction false} BaseHangs(records: seq<Record>, k: nat)
    requires UniqueUuids(records) && k < |records|
    ensures HangsOn(records, k, Final(records), records[k].parent, Base(records, k))
  {
    AllHold(records, k);
    ResolveHangs(records, k, records[k].parent);
    HangsInFinal(records, k, records[k].parent, Base(records, k));
  }

  /** The parent an event waited for. */
  lemma {:induction false} WaitedHangs(records: seq<Record>, k: nat, n: nat)
    requires UniqueUuids(records) && k < |records| && Waits(records, k) && Start(records, k) <= n < Start(records, k + 1)
    ensures n < |Final(records)| && HangsOn(records, |records|, Final(records), records[k].parent, Final(records)[n].parent)
  {
    assert records[..|records|] == records;
    AllHold(records, |records|);
    StartGrows(records, k + 1, |records|);
    LateIs(records, |records|, k, n);
    ResolveHangs(records, |records|, records[k].parent);
    HangsInFinal(records, |records|, records[k].parent, Final(records)[n].parent);
  }

  /** Nothing that was shown before the record is at or above its parent. */
  ghost predicate NothingAbove(records: seq<Record>, k: nat)
    requires k < |records|
  {
    forall i :: !Nearest(records, k, records[k].parent, i)
  }

  lemma {:induction false} BaseIsNone(records: seq<Record>, k: nat)
    requires UniqueUuids(records) && k < |records|
    ensures Base(records, k) == None <==> NothingAbove(records, k)
  {
    BaseHangs(records, k);
    if Base(records, k).Some? {
      var i, key :| HangsBy(records, k, Final(records), records[k].parent, Base(records, k).value, i, key);
    }
  }

  lemma {:induction false} NotWaiting(records: seq<Record>, k: nat, n: nat)
    requires UniqueUuids(records) && k < |records| && !Waits(records, k) && Start(records, k) <= n < Start(records, k + 1)
    ensures n < |Final(records)| && Final(records)[n] == At(records, k + 1).events[n]
  {
    assert records[..|records|] == records;
    StartGrows(records, k + 1, |records|);
    LateIs(records, |records|, k, n);
  }

  // ---- Where the events of a record hang

  /** The record changes the effort, which is an event of its own before its blocks. */
  ghost predicate ChangesEffort(records: seq<Record>, k: nat)
    requires k < |records|
  {
    Start(records, k) < |Final(records)| && Final(records)[Start(records, k)].key == EffortKey(records[k].uuid)
  }

  lemma {:induction false} EffortIs(records: seq<Record>, k: nat)
    requires UniqueUuids(records) && k < |records| && records[k].body.Message? && Start(records, k) < Start(records, k + 1)
    ensures ChangesEffort(records, k) <==> Changes(At(records, k), records[k])
  {
    var parents, st, r := Parents(records), At(records, k), records[k];
    var (begun, base) := Begun(parents, st, r);
    AllHold(records, k);
    AtNext(records, k);
    SaidEvents(parents, st, r, begun, base, EmitBlocks(begun, r, base, r.body.blocks));
    FinalIs(records, k + 1);
  }

  /** The parent event n of record k has when it is emitted. */
  lemma {:induction false} EmittedParent(records: seq<Record>, k: nat, n: nat)
    requires UniqueUuids(records) && k < |records| && records[k].body.Message?
    requires Start(records, k) <= n < Start(records, k + 1)
    ensures At(records, k + 1).events[n].parent ==
      (if Changes(At(records, k), records[k]) && n > Start(records, k) then Some(EffortKey(records[k].uuid))
       else Tail(Parents(records), At(records, k), records[k]))
  {
    var parents, st, r := Parents(records), At(records, k), records[k];
    var (begun, base) := Begun(parents, st, r);
    AllHold(records, k);
    AtNext(records, k);
    SaidEvents(parents, st, r, begun, base, EmitBlocks(begun, r, base, r.body.blocks));
  }

  /** Where an event that hangs by its own record does: on the nearest record shown before; if there
      is none, and it is not an effort change, on the nearest shown at all. */
  ghost predicate HangsByParent(records: seq<Record>, k: nat, parent: Option<Key>)
    requires k < |records|
  {
    if NothingAbove(records, k) && records[k].parent != "" && !ChangesEffort(records, k)
    then HangsOn(records, |records|, Final(records), records[k].parent, parent)
    else HangsOn(records, k, Final(records), records[k].parent, parent)
  }

  /** Every event of a message that is not all tool results: the first, or all when the effort does
      not change, hangs by the message's own recorded parent. So a prompt that goes back to an
      earlier record starts a branch there. */
  lemma {:induction false} MessageHangs(records: seq<Record>, k: nat, n: nat)
    requires UniqueUuids(records) && k < |records| && records[k].body.Message? && !IsAnswer(records[k])
    requires Start(records, k) <= n < Start(records, k + 1)
    ensures n < |Final(records)|
    ensures if ChangesEffort(records, k) && n > Start(records, k) then Final(records)[n].parent == Some(EffortKey(records[k].uuid))
            else HangsByParent(records, k, Final(records)[n].parent)
  {
    EffortIs(records, k);
    EmittedParent(records, k, n);
    FollowsUnchanged(Parents(records), At(records, k), records[k]);
    BaseIsNone(records, k);
    if Waits(records, k) {
      WaitedHangs(records, k, n);
    } else {
      NotWaiting(records, k, n);
      BaseHangs(records, k);
    }
  }

  /** So does a note, at once. */
  lemma {:induction false} NoteHangs(records: seq<Record>, k: nat)
    requires UniqueUuids(records) && k < |records| && records[k].body.Note?
    ensures Start(records, k + 1) == Start(records, k) + 1 <= |Final(records)|
    ensures Final(records)[Start(records, k)].key ==
      if records[k].uuid == "" then Digest(Text, records[k].body.digest) else NoteKey(records[k].uuid)
    ensures HangsOn(records, k, Final(records), records[k].parent, Final(records)[Start(records, k)].parent)
  {
    AtNext(records, k);
    NotWaiting(records, k, Start(records, k));
    BaseHangs(records, k);
  }

  // ---- Branches

  /** The main event of the record is where the first k records leave it: nothing was put after it. */
  ghost predicate Bare(records: seq<Record>, k: nat, key: Key) {
    forall c :: !Hop(records, Final(records), k, key, c)
  }

  lemma BareStays(records: seq<Record>, events: seq<Event>, k: nat, a: Key, b: Key)
    requires MovedOn(records, events, k, a, b) && forall c :: !Hop(records, events, k, a, c)
    ensures b == a
  {
    var chain: seq<Key> :| chain != [] && chain[0] == a && chain[|chain| - 1] == b && Hops(records, events, k, chain);
    assert |chain| > 1 ==> HopOn(records, events, k, chain, 0);
  }

  lemma {:induction false} OneNearest(records: seq<Record>, k: nat, id: string, i: nat, j: nat)
    requires UniqueUuids(records) && k <= |records| && Nearest(records, k, id, i) && Nearest(records, k, id, j)
    ensures i == j
  {
    var m: nat :| FirstMet(records, k, id, records[i].uuid, m);
    var n: nat :| FirstMet(records, k, id, records[j].uuid, n);
    assert SpokenBy(records, k, records[i].uuid) && SpokenBy(records, k, records[j].uuid);
    assert m == n;
  }

  lemma OneMain(records: seq<Record>, events: seq<Event>, i: nat, a: Key, b: Key)
    requires i < |records| && IsMain(records, events, i, a) && IsMain(records, events, i, b)
    ensures a == b
  {
  }

  /** A record whose parent was shown before it, with nothing put after, hangs on that very record. */
  lemma {:induction false} HangsOnNamed(records: seq<Record>, k: nat, i: nat, key: Key, parent: Option<Key>)
    requires UniqueUuids(records) && i < k <= |records| && Speaks(records[i]) && IsMain(records, Final(records), i, key)
    requires Bare(records, k, key) && HangsOn(records, k, Final(records), records[i].uuid, parent)
    ensures parent == Some(key)
  {
    assert FirstMet(records, k, records[i].uuid, records[i].uuid, 0);
    assert Nearest(records, k, records[i].uuid, i);
    var j, main :| HangsBy(records, k, Final(records), records[i].uuid, parent.value, j, main);
    OneNearest(records, k, records[i].uuid, i, j);
    OneMain(records, Final(records), i, key, main);
    BareStays(records, Final(records), k, key, parent.value);
  }

  /** Two messages that go back to one record, after which nothing was put, fork there, however far
      apart they are and whatever was said in between. */
  lemma {:induction false} MessagesFork(records: seq<Record>, i: nat, j: nat, k: nat, key: Key)
    requires UniqueUuids(records) && i < j < k < |records| && Speaks(records[i]) && IsMain(records, Final(records), i, key)
    requires GoesTo(records, j, i) && GoesTo(records, k, i) && Bare(records, k, key)
    ensures Start(records, j) < Start(records, k) && StartsAt(records, j, key) && StartsAt(records, k, key)
  {
    StartsApart(records, j, k);
    BareBefore(records, j, k, key);
    ForksAt(records, i, j, key);
    ForksAt(records, i, k, key);
  }

  lemma {:induction false} StartsApart(records: seq<Record>, j: nat, k: nat)
    requires j < k < |records| && Start(records, j) < Start(records, j + 1)
    ensures Start(records, j) < Start(records, k)
  {
    StartGrows(records, j + 1, k);
  }

  /** The message goes back to the record, by its own recorded parent. */
  ghost predicate GoesTo(records: seq<Record>, k: nat, i: nat) {
    && i < k < |records| && records[k].body.Message? && !IsAnswer(records[k]) && records[k].parent == records[i].uuid
    && Start(records, k) < Start(records, k + 1)
  }

  ghost predicate StartsAt(records: seq<Record>, k: nat, key: Key) {
    k < |records| && Start(records, k) < |Final(records)| && Final(records)[Start(records, k)].parent == Some(key)
  }

  lemma BareBefore(records: seq<Record>, j: nat, k: nat, key: Key)
    requires j <= k && Bare(records, k, key)
    ensures Bare(records, j, key)
  {
    forall c
      ensures !Hop(records, Final(records), j, key, c)
    {
      assert Hop(records, Final(records), j, key, c) ==> Hop(records, Final(records), k, key, c);
    }
  }

  lemma {:induction false} ForksAt(records: seq<Record>, i: nat, k: nat, key: Key)
    requires UniqueUuids(records) && i < |records| && Speaks(records[i]) && IsMain(records, Final(records), i, key)
    requires GoesTo(records, k, i) && Bare(records, k, key)
    ensures StartsAt(records, k, key)
  {
    MessageHangs(records, k, Start(records, k));
    assert FirstMet(records, k, records[i].uuid, records[i].uuid, 0);
    assert Nearest(records, k, records[k].parent, i);
    HangsOnNamed(records, k, i, key, Final(records)[Start(records, k)].parent);
  }

  /** A block whose parent is shown only later ends with that record's key. */
  lemma {:induction false} LateParent(records: seq<Record>, k: nat, i: nat, n: nat, key: Key)
    requires UniqueUuids(records) && k < i < |records| && Speaks(records[i]) && IsMain(records, Final(records), i, key)
    requires records[k].body.Message? && records[k].parent == records[i].uuid && NothingAbove(records, k)
    requires !ChangesEffort(records, k) && Start(records, k) <= n < Start(records, k + 1)
    requires Bare(records, |records|, key)
    ensures n < |Final(records)| && Final(records)[n].parent == Some(key)
  {
    EffortIs(records, k);
    BaseIsNone(records, k);
    WaitedHangs(records, k, n);
    HangsOnNamed(records, |records|, i, key, Final(records)[n].parent);
  }

  // ---- Answers

  /** The parent of the last event with the key. */
  function LastParent(events: seq<Event>, key: Key): Option<Key> {
    if events == [] then None
    else if events[|events| - 1].key == key then events[|events| - 1].parent
    else LastParent(events[..|events| - 1], key)
  }

  /** n events up from the key. */
  function Climb(events: seq<Event>, key: Option<Key>, n: nat): Option<Key>
    decreases n
  {
    if n == 0 || key.None? then key else Climb(events, LastParent(events, key.value), n - 1)
  }

  ghost predicate ParentsOf(st: State) {
    forall key {:trigger LastParent(st.events, key)} ::
      LastParent(st.events, key) == if key in st.parentOf then st.parentOf[key] else None
  }

  lemma EmitParents(st: State, key: Key, parent: Option<Key>)
    requires ParentsOf(st)
    ensures ParentsOf(Emit(st, key, parent))
  {
    var after := Emit(st, key, parent);
    assert after.events[..|after.events| - 1] == st.events;
    forall other
      ensures LastParent(after.events, other) == if other in after.parentOf then after.parentOf[other] else None
    {
      assert LastParent(st.events, other) == if other in st.parentOf then st.parentOf[other] else None;
    }
  }

  lemma {:induction false} BlocksParents(st: State, r: Record, base: Option<Key>, blocks: seq<Block>)
    requires ParentsOf(st)
    ensures ParentsOf(EmitBlocks(st, r, base, blocks))
  {
    if blocks != [] {
      var front, block, m := EmitBlocks(st, r, base, blocks[..|blocks| - 1]), blocks[|blocks| - 1], |blocks| - 1;
      BlocksParents(st, r, base, blocks[..|blocks| - 1]);
      if block.kind != Unknown {
        var waiting := if base == None && r.parent != "" then front.late[|front.events| := r.parent] else front.late;
        SameParents(front, front.(late := waiting));
        EmitParents(front.(late := waiting), KeyOf(block.kind, r.uuid, m, block.digest), base);
      }
    }
  }

  lemma SameParents(st: State, other: State)
    requires ParentsOf(st) && other.events == st.events && other.parentOf == st.parentOf
    ensures ParentsOf(other)
  {
    forall key
      ensures LastParent(other.events, key) == if key in other.parentOf then other.parentOf[key] else None
    {
      assert LastParent(st.events, key) == if key in st.parentOf then st.parentOf[key] else None;
    }
  }

  lemma NotedParents(parents: map<string, string>, st: State, r: Record)
    requires r.body.Note? && ParentsOf(st)
    ensures ParentsOf(Noted(parents, st, r))
  {
    var key := if r.uuid == "" then Digest(Text, r.body.digest) else NoteKey(r.uuid);
    SameParents(st, Headed(st, r));
    EmitParents(Headed(st, r), key, Resolve(parents, st, r.parent));
    SameParents(Emit(Headed(st, r), key, Resolve(parents, st, r.parent)), Noted(parents, st, r));
  }

  lemma WithPromptParents(st: State, hash: string, parent: Option<Key>)
    requires ParentsOf(st)
    ensures ParentsOf(WithPrompt(st, hash, parent))
  {
    var marked := st.(prompts := st.prompts + {hash});
    SameParents(st, marked);
    EmitParents(marked, PromptKey(hash), parent);
    SameParents(Emit(marked, PromptKey(hash), parent), WithPrompt(st, hash, parent));
  }

  lemma StepParents(parents: map<string, string>, st: State, r: Record)
    requires ParentsOf(st)
    ensures ParentsOf(Step(parents, st, r))
  {
    match r.body
    case Silent => SameParents(st, Step(parents, st, r));
    case Note(_) => NotedParents(parents, st, r);
    case Prompt(_) =>
      SameParents(st, Headed(st, r));
      WithPromptParents(Headed(st, r), r.body.hash, Resolve(parents, Headed(st, r), Headed(st, r).head));
    case Message(_, _, _) => SaidParents(parents, st, r);
  }

  lemma SaidParents(parents: map<string, string>, st: State, r: Record)
    requires r.body.Message? && ParentsOf(st)
    ensures ParentsOf(Said(parents, st, r))
  {
    var (begun, base) := Begun(parents, st, r);
    var marked := Headed(st, r).(effort := r.body.effort);
    SameParents(st, Headed(st, r));
    SameParents(st, marked);
    EmitParents(marked, EffortKey(r.uuid), Tail(parents, st, r));
    BlocksParents(begun, r, base, r.body.blocks);
    SameParents(EmitBlocks(begun, r, base, r.body.blocks), Said(parents, st, r));
  }

  lemma {:induction false} RunParents(records: seq<Record>, k: nat)
    requires k <= |records|
    ensures ParentsOf(At(records, k))
  {
    if k > 0 {
      RunParents(records, k - 1);
      AtNext(records, k - 1);
      StepParents(Parents(records), At(records, k - 1), records[k - 1]);
    }
  }

  ghost predicate MeetsAbove(events: seq<Event>, a: Key, key: Option<Key>, steps: nat) {
    exists n: nat :: n < steps && Climb(events, key, n) == Some(a)
  }

  lemma {:induction false} NothingUp(events: seq<Event>, n: nat)
    ensures Climb(events, None, n) == None
  {
  }

  lemma {:induction false} MeetsNext(events: seq<Event>, a: Key, key: Key, steps: nat)
    requires steps > 0
    ensures MeetsAbove(events, a, Some(key), steps) <==> key == a || MeetsAbove(events, a, LastParent(events, key), steps - 1)
  {
    var up := LastParent(events, key);
    assert Climb(events, Some(key), 0) == Some(key);
    if n: nat :| n < steps && Climb(events, Some(key), n) == Some(a) {
      assert n > 0 ==> Climb(events, up, n - 1) == Some(a);
    }
    if n: nat :| n < steps - 1 && Climb(events, up, n) == Some(a) {
      assert Climb(events, Some(key), n + 1) == Climb(events, up, n);
    }
  }

  lemma {:induction false} AncestorIsAbove(st: State, a: Key, key: Option<Key>, steps: nat)
    requires ParentsOf(st)
    ensures IsAncestor(st.parentOf, a, key, steps) <==> MeetsAbove(st.events, a, key, steps)
    decreases steps
  {
    if key.None? {
      forall n: nat {
        NothingUp(st.events, n);
      }
    } else if steps > 0 {
      MeetsNext(st.events, a, key.value, steps);
      AncestorIsAbove(st, a, LastParent(st.events, key.value), steps - 1);
    }
  }

  /** The uuid of the last of the first k records that has one. */
  function LastUuid(records: seq<Record>, k: nat): string
    requires k <= |records|
  {
    if k == 0 then "" else if records[k - 1].uuid != "" then records[k - 1].uuid else LastUuid(records, k - 1)
  }

  /** What a record that is no message leaves. */
  ghost predicate Unsaid(st: State, after: State, r: Record) {
    && after.head == Headed(st, r).head && after.effort == st.effort
    && after.prompts == if r.body.Prompt? then st.prompts + {r.body.hash} else st.prompts
  }

  lemma NotedStep(parents: map<string, string>, st: State, r: Record)
    requires r.body.Note?
    ensures Unsaid(st, Noted(parents, st, r), r)
  {
  }

  lemma PromptedStep(parents: map<string, string>, st: State, r: Record)
    requires r.body.Prompt?
    ensures Unsaid(st, Prompted(parents, st, r), r)
  {
    var headed := Headed(st, r);
    WithPromptStep(headed, r.body.hash, Resolve(parents, headed, headed.head));
  }

  lemma WithPromptStep(st: State, hash: string, parent: Option<Key>)
    ensures var after := WithPrompt(st, hash, parent);
      after.head == st.head && after.effort == st.effort && after.prompts == st.prompts + {hash}
  {
  }

  lemma UnsaidStep(parents: map<string, string>, st: State, r: Record)
    requires !r.body.Message?
    ensures Unsaid(st, Step(parents, st, r), r)
  {
    match r.body
    case Silent =>
    case Note(_) => NotedStep(parents, st, r);
    case Prompt(_) => PromptedStep(parents, st, r);
    case Message(_, _, _) =>
  }

  lemma StepHead(parents: map<string, string>, st: State, r: Record)
    ensures Step(parents, st, r).head == if r.uuid == "" then st.head else r.uuid
  {
    if r.body.Message? {
      SaidHead(parents, st, r);
    } else {
      UnsaidStep(parents, st, r);
    }
  }

  lemma SaidHead(parents: map<string, string>, st: State, r: Record)
    requires r.body.Message?
    ensures Said(parents, st, r).head == if r.uuid == "" then st.head else r.uuid
  {
    var (begun, base) := Begun(parents, st, r);
    BlocksHead(begun, r, base, r.body.blocks);
  }

  lemma {:induction false} BlocksHead(st: State, r: Record, base: Option<Key>, blocks: seq<Block>)
    ensures EmitBlocks(st, r, base, blocks).head == st.head
  {
    if blocks != [] {
      BlocksHead(st, r, base, blocks[..|blocks| - 1]);
    }
  }

  lemma {:induction false} HeadIs(records: seq<Record>, k: nat)
    requires k <= |records|
    ensures At(records, k).head == LastUuid(records, k)
  {
    if k > 0 {
      HeadIs(records, k - 1);
      AtNext(records, k - 1);
      StepHead(Parents(records), At(records, k - 1), records[k - 1]);
    }
  }

  /** An answer hangs on its own call, as any message would; but when that is at or above the end of
      the conversation, on the end. */
  ghost predicate Answered(records: seq<Record>, k: nat, own: Option<Key>, end: Option<Key>, parent: Option<Key>)
    requires k < |records|
  {
    && HangsOn(records, k, Final(records), records[k].parent, own)
    && HangsOn(records, k, Final(records), LastUuid(records, k), end)
    && parent == if own.Some? && MeetsAbove(At(records, k).events, own.value, end, ANCESTOR_STEPS) then end else own
  }

  lemma {:induction false} AnswerTail(records: seq<Record>, k: nat)
    requires k < |records| && IsAnswer(records[k]) && Base(records, k).Some?
    ensures var end := Resolve(Parents(records), At(records, k), LastUuid(records, k));
      Tail(Parents(records), At(records, k), records[k]) ==
        if MeetsAbove(At(records, k).events, Base(records, k).value, end, ANCESTOR_STEPS) then end else Base(records, k)
  {
    var st := At(records, k);
    HeadIs(records, k);
    RunParents(records, k);
    AncestorIsAbove(st, Base(records, k).value, Resolve(Parents(records), st, st.head), ANCESTOR_STEPS);
  }

  lemma {:induction false} EndHangs(records: seq<Record>, k: nat) returns (end: Option<Key>)
    requires UniqueUuids(records) && k < |records|
    ensures end == Resolve(Parents(records), At(records, k), LastUuid(records, k))
    ensures HangsOn(records, k, Final(records), LastUuid(records, k), end)
  {
    end := Resolve(Parents(records), At(records, k), LastUuid(records, k));
    AllHold(records, k);
    ResolveHangs(records, k, LastUuid(records, k));
    HangsInFinal(records, k, LastUuid(records, k), end);
  }

  lemma {:induction false} AnswerWaits(records: seq<Record>, k: nat, n: nat)
    requires UniqueUuids(records) && k < |records| && IsAnswer(records[k]) && Start(records, k) <= n < Start(records, k + 1)
    requires NothingAbove(records, k)
    ensures n < |Final(records)| && HangsByParent(records, k, Final(records)[n].parent)
  {
    EffortIs(records, k);
    BaseIsNone(records, k);
    EmittedParent(records, k, n);
    FollowsUnchanged(Parents(records), At(records, k), records[k]);
    if Waits(records, k) {
      WaitedHangs(records, k, n);
    } else {
      NotWaiting(records, k, n);
      BaseHangs(records, k);
    }
  }

  /** Every event of an answer hangs there. */
  lemma {:induction false} AnswerHangs(records: seq<Record>, k: nat, n: nat) returns (own: Option<Key>, end: Option<Key>)
    requires UniqueUuids(records) && k < |records| && IsAnswer(records[k]) && Start(records, k) <= n < Start(records, k + 1)
    ensures n < |Final(records)|
    ensures if NothingAbove(records, k) then HangsByParent(records, k, Final(records)[n].parent)
            else Answered(records, k, own, end, Final(records)[n].parent)
  {
    own := Base(records, k);
    end := EndHangs(records, k);
    if NothingAbove(records, k) {
      AnswerWaits(records, k, n);
    } else {
      BaseIsNone(records, k);
      BaseHangs(records, k);
      AnswerTail(records, k);
      EmittedParent(records, k, n);
      NotWaiting(records, k, n);
    }
  }

  // ---- Which events a record shows

  /** How many of the first i blocks are known. */
  function KnownAmong(blocks: seq<Block>, i: nat): nat
    requires i <= |blocks|
  {
    if i == 0 then 0 else KnownAmong(blocks, i - 1) + (if blocks[i - 1].kind == Unknown then 0 else 1)
  }

  /** The event of block i, if known, stands behind those of the known blocks before it. */
  ghost predicate ShowsBlock(r: Record, events: seq<Event>, from: nat, i: nat)
    requires r.body.Message? && i < |r.body.blocks|
  {
    var n, block := from + KnownAmong(r.body.blocks, i), r.body.blocks[i];
    var key := if r.uuid == "" then Digest(block.kind, block.digest) else BlockKey(block.kind, r.uuid, i);
    block.kind != Unknown ==> n < |events| && events[n].key == key
  }

  ghost predicate ShowsAll(r: Record, events: seq<Event>, from: nat, m: nat)
    requires r.body.Message? && m <= |r.body.blocks|
  {
    && |events| == from + KnownAmong(r.body.blocks, m)
    && forall i {:trigger ShowsBlock(r, events, from, i)} :: 0 <= i < m ==> ShowsBlock(r, events, from, i)
  }

  lemma {:induction false} LastBlock(st: State, r: Record, base: Option<Key>, m: nat)
    requires r.body.Message? && 0 < m <= |r.body.blocks|
    ensures var before := EmitBlocks(st, r, base, r.body.blocks[..m - 1]).events;
      var block := r.body.blocks[m - 1];
      EmitBlocks(st, r, base, r.body.blocks[..m]).events ==
        if block.kind == Unknown then before else before + [Event(KeyOf(block.kind, r.uuid, m - 1, block.digest), base)]
  {
    assert r.body.blocks[..m][..m - 1] == r.body.blocks[..m - 1];
  }

  lemma ShowsStill(r: Record, before: seq<Event>, after: seq<Event>, from: nat, i: nat)
    requires r.body.Message? && i < |r.body.blocks| && ShowsBlock(r, before, from, i) && before <= after
    ensures ShowsBlock(r, after, from, i)
  {
  }

  lemma ShowsMore(r: Record, before: seq<Event>, after: seq<Event>, from: nat, m: nat)
    requires r.body.Message? && 0 < m <= |r.body.blocks| && ShowsAll(r, before, from, m - 1) && before <= after
    requires |after| == |before| + (if r.body.blocks[m - 1].kind == Unknown then 0 else 1)
    requires ShowsBlock(r, after, from, m - 1)
    ensures ShowsAll(r, after, from, m)
  {
    forall i: nat | i < m
      ensures ShowsBlock(r, after, from, i)
    {
      if i < m - 1 {
        ShowsStill(r, before, after, from, i);
      }
    }
  }

  lemma {:induction false} BlocksShown(st: State, r: Record, base: Option<Key>, m: nat)
    requires r.body.Message? && m <= |r.body.blocks|
    ensures ShowsAll(r, EmitBlocks(st, r, base, r.body.blocks[..m]).events, |st.events|, m)
  {
    if m > 0 {
      BlocksShown(st, r, base, m - 1);
      LastBlock(st, r, base, m);
      ShowsMore(r, EmitBlocks(st, r, base, r.body.blocks[..m - 1]).events, EmitBlocks(st, r, base, r.body.blocks[..m]).events,
        |st.events|, m);
    }
  }

  lemma {:induction false} SaidShows(parents: map<string, string>, st: State, r: Record)
    requires r.body.Message?
    ensures ShowsAll(r, Said(parents, st, r).events, Blocks(st, r), |r.body.blocks|)
  {
    var (begun, base) := Begun(parents, st, r);
    var shown := EmitBlocks(begun, r, base, r.body.blocks);
    BegunAll(parents, st, r);
    assert r.body.blocks[..|r.body.blocks|] == r.body.blocks;
    BlocksShown(begun, r, base, |r.body.blocks|);
    EndedAll(begun, shown, r, Following(parents, st, r, Resolve(parents, st, r.parent)));
  }

  /** A message shows its known blocks, each once and in order, behind its effort change if it has
      one. */
  lemma {:induction false} MessageShows(records: seq<Record>, k: nat)
    requires UniqueUuids(records) && k < |records| && records[k].body.Message?
    ensures Start(records, k + 1) <= |Final(records)|
    ensures ShowsAll(records[k], Final(records)[..Start(records, k + 1)], Blocks(At(records, k), records[k]), |records[k].body.blocks|)
    ensures Changes(At(records, k), records[k]) ==> ChangesEffort(records, k)
  {
    AtNext(records, k);
    FinalIs(records, k + 1);
    SaidShows(Parents(records), At(records, k), records[k]);
    SameShown(records[k], At(records, k + 1).events, Final(records)[..Start(records, k + 1)], Blocks(At(records, k), records[k]));
    if Changes(At(records, k), records[k]) {
      EffortFirst(records, k);
    }
  }

  lemma {:induction false} EffortFirst(records: seq<Record>, k: nat)
    requires UniqueUuids(records) && k < |records| && records[k].body.Message? && Changes(At(records, k), records[k])
    ensures ChangesEffort(records, k)
  {
    var parents, st, r := Parents(records), At(records, k), records[k];
    var (begun, base) := Begun(parents, st, r);
    AllHold(records, k);
    AtNext(records, k);
    FinalIs(records, k + 1);
    SaidEvents(parents, st, r, begun, base, EmitBlocks(begun, r, base, r.body.blocks));
  }

  lemma SameShown(r: Record, events: seq<Event>, more: seq<Event>, from: nat)
    requires r.body.Message? && ShowsAll(r, events, from, |r.body.blocks|) && |more| == |events|
    requires forall n :: 0 <= n < |events| ==> more[n].key == events[n].key
    ensures ShowsAll(r, more, from, |r.body.blocks|)
  {
    forall i: nat | i < |r.body.blocks|
      ensures ShowsBlock(r, more, from, i)
    {
      assert ShowsBlock(r, events, from, i);
    }
  }

  // ---- System prompts and effort

  /** An earlier record sent the same prompt. */
  ghost predicate SentBefore(records: seq<Record>, k: nat, hash: string)
    requires k <= |records|
  {
    exists j :: 0 <= j < k && records[j].body.Prompt? && records[j].body.hash == hash
  }

  lemma StepPrompts(parents: map<string, string>, st: State, r: Record)
    requires LateOk(st)
    ensures Step(parents, st, r).prompts == if r.body.Prompt? then st.prompts + {r.body.hash} else st.prompts
  {
    if r.body.Message? {
      SaidPrompts(parents, st, r);
    } else {
      UnsaidStep(parents, st, r);
    }
  }

  lemma SaidPrompts(parents: map<string, string>, st: State, r: Record)
    requires LateOk(st) && r.body.Message?
    ensures Said(parents, st, r).prompts == st.prompts
  {
    var (begun, base) := Begun(parents, st, r);
    SaidEvents(parents, st, r, begun, base, EmitBlocks(begun, r, base, r.body.blocks));
  }

  lemma {:induction false} PromptsAre(records: seq<Record>, k: nat, hash: string)
    requires UniqueUuids(records) && k <= |records|
    ensures hash in At(records, k).prompts <==> SentBefore(records, k, hash)
  {
    if k > 0 {
      PromptsAre(records, k - 1, hash);
      PromptsNext(records, k - 1);
    }
  }

  lemma PromptsNext(records: seq<Record>, k: nat)
    requires UniqueUuids(records) && k < |records|
    ensures At(records, k + 1).prompts == At(records, k).prompts + if records[k].body.Prompt? then {records[k].body.hash} else {}
  {
    AllHold(records, k);
    AtNext(records, k);
    StepPrompts(Parents(records), At(records, k), records[k]);
  }

  lemma PromptedIs(parents: map<string, string>, st: State, r: Record)
    requires r.body.Prompt?
    ensures var after, head := Prompted(parents, st, r), (if r.uuid == "" then st.head else r.uuid);
      after.events == if r.body.hash in st.prompts then st.events
        else st.events + [Event(PromptKey(r.body.hash), Resolve(parents, st, head))]
  {
  }

  /** A system prompt is shown the first time it is sent, behind the end of the conversation then. */
  lemma {:induction false} PromptHangs(records: seq<Record>, k: nat)
    requires UniqueUuids(records) && k < |records| && records[k].body.Prompt?
    ensures Start(records, k + 1) <= |Final(records)|
    ensures if SentBefore(records, k, records[k].body.hash) then Start(records, k + 1) == Start(records, k)
            else
              && Start(records, k + 1) == Start(records, k) + 1
              && Final(records)[Start(records, k)].key == PromptKey(records[k].body.hash)
              && HangsOn(records, k, Final(records), LastUuid(records, k + 1), Final(records)[Start(records, k)].parent)
  {
    var st, head := At(records, k), LastUuid(records, k + 1);
    AtNext(records, k);
    HeadIs(records, k);
    PromptsAre(records, k, records[k].body.hash);
    PromptedIs(Parents(records), st, records[k]);
    FinalIs(records, k + 1);
    if !SentBefore(records, k, records[k].body.hash) {
      NotWaiting(records, k, Start(records, k));
      AllHold(records, k);
      ResolveHangs(records, k, head);
      HangsInFinal(records, k, head, Resolve(Parents(records), st, head));
    }
  }

  /** The effort the last of the first k assistant messages that say one says. */
  function LastEffort(records: seq<Record>, k: nat): string
    requires k <= |records|
  {
    if k == 0 then ""
    else
      var body := records[k - 1].body;
      if body.Message? && body.role == Assistant && body.effort != "" then body.effort else LastEffort(records, k - 1)
  }

  lemma {:induction false} BlocksEffort(st: State, r: Record, base: Option<Key>, blocks: seq<Block>)
    ensures EmitBlocks(st, r, base, blocks).effort == st.effort
  {
    if blocks != [] {
      BlocksEffort(st, r, base, blocks[..|blocks| - 1]);
    }
  }

  lemma StepEffort(parents: map<string, string>, st: State, r: Record)
    ensures Step(parents, st, r).effort ==
      if r.body.Message? && r.body.role == Assistant && r.body.effort != "" then r.body.effort else st.effort
  {
    if r.body.Message? {
      SaidEffort(parents, st, r);
    } else {
      UnsaidStep(parents, st, r);
    }
  }

  lemma SaidEffort(parents: map<string, string>, st: State, r: Record)
    requires r.body.Message?
    ensures Said(parents, st, r).effort == if r.body.role == Assistant && r.body.effort != "" then r.body.effort else st.effort
  {
    var (begun, base) := Begun(parents, st, r);
    BlocksEffort(begun, r, base, r.body.blocks);
  }

  lemma {:induction false} EffortAt(records: seq<Record>, k: nat)
    requires k <= |records|
    ensures At(records, k).effort == LastEffort(records, k)
  {
    if k > 0 {
      EffortAt(records, k - 1);
      AtNext(records, k - 1);
      StepEffort(Parents(records), At(records, k - 1), records[k - 1]);
    }
  }

  /** An effort change is shown before an assistant message that says another effort than the last. */
  lemma {:induction false} EffortShown(records: seq<Record>, k: nat)
    requires UniqueUuids(records) && k < |records| && records[k].body.Message?
    ensures Changes(At(records, k), records[k]) <==>
      records[k].body.role == Assistant && records[k].body.effort != "" && records[k].body.effort != LastEffort(records, k)
    ensures Changes(At(records, k), records[k]) ==> ChangesEffort(records, k)
  {
    EffortAt(records, k);
    MessageShows(records, k);
  }
}
