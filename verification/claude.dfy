/** Claude Code transcripts: records point at their parents by uuid, often through records that
    show nothing; events point at events. */
module Claude {
  import opened Utf8

  datatype BlockKind = Text | Thinking | ToolUse | ToolResult | Media | Unknown

  datatype Block = Block(kind: BlockKind, digest: nat)

  datatype Role = User | Assistant | OtherRole

  /** What a record shows: nothing, one message of its own, a system prompt sent to the model (by
      its hash), or a message's blocks. */
  datatype Body =
    | Silent
    | Note(digest: nat)
    | Prompt(hash: string)
    | Message(role: Role, effort: string, blocks: seq<Block>)

  /** parent is parentUuid, or else logicalParentUuid. */
  datatype Record = Record(uuid: string, parent: string, body: Body)

  /** nativeKey: a kind with a uuid and a block index, or with a digest where there is no uuid.
      Keys of different shapes are different strings. */
  datatype Key =
    | BlockKey(kind: BlockKind, uuid: string, index: nat)
    | NoteKey(uuid: string)
    | EffortKey(uuid: string)
    | PromptKey(hash: string)
    | Digest(kind: BlockKind, digest: nat)

  datatype Event = Event(key: Key, parent: Option<Key>)

  datatype State = State(
    events: seq<Event>, keys: map<string, Key>, inserted: map<Key, Key>, parentOf: map<Key, Option<Key>>,
    head: string, effort: string, prompts: set<string>, late: map<nat, string>)

  const START := State([], map[], map[], map[], "", "", {}, map[])

  const ANCESTOR_STEPS := 1000

  // ---- resolve

  function Parents(records: seq<Record>): map<string, string> {
    if records == [] then map[]
    else
      var last := records[|records| - 1];
      if last.uuid == "" then Parents(records[..|records| - 1]) else Parents(records[..|records| - 1])[last.uuid := last.parent]
  }

  function Above(parents: map<string, string>, id: string): string {
    if id in parents then parents[id] else ""
  }

  /** The key of the nearest record at or above the id that has one. */
  function Find(parents: map<string, string>, keys: map<string, Key>, id: string, steps: nat): Option<Key>
    decreases steps
  {
    if id == "" || steps == 0 then None else if id in keys then Some(keys[id]) else Find(parents, keys, Above(parents, id), steps - 1)
  }

  /** The event that was last put after this one. */
  function Follow(inserted: map<Key, Key>, key: Key, hops: nat): Key
    decreases hops
  {
    if hops == 0 || key !in inserted then key else Follow(inserted, inserted[key], hops - 1)
  }

  function Resolve(parents: map<string, string>, st: State, id: string): Option<Key> {
    match Find(parents, st.keys, id, |parents| + 1)
    case None => None
    case Some(key) => Some(Follow(st.inserted, key, |st.inserted| + 1))
  }

  function IsAncestor(parentOf: map<Key, Option<Key>>, ancestor: Key, key: Option<Key>, steps: nat): bool
    decreases steps
  {
    key.Some? && steps > 0 && (key.value == ancestor ||
      IsAncestor(parentOf, ancestor, if key.value in parentOf then parentOf[key.value] else None, steps - 1))
  }

  // ---- One record

  function Emit(st: State, key: Key, parent: Option<Key>): State {
    st.(events := st.events + [Event(key, parent)], parentOf := st.parentOf[key := parent])
  }

  function KeyOf(kind: BlockKind, uuid: string, index: nat, digest: nat): Key {
    if uuid == "" then Digest(kind, digest) else BlockKey(kind, uuid, index)
  }

  /** A block without a parent key whose record names a parent is looked at again at the end. */
  function EmitBlock(st: State, r: Record, base: Option<Key>, block: Block, index: nat): State {
    if block.kind == Unknown then st
    else
      var waiting := if base == None && r.parent != "" then st.late[|st.events| := r.parent] else st.late;
      Emit(st.(late := waiting), KeyOf(block.kind, r.uuid, index, block.digest), base)
  }

  function EmitBlocks(st: State, r: Record, base: Option<Key>, blocks: seq<Block>): State {
    if blocks == [] then st else EmitBlock(EmitBlocks(st, r, base, blocks[..|blocks| - 1]), r, base, blocks[|blocks| - 1], |blocks| - 1)
  }

  predicate ToolResults(blocks: seq<Block>) {
    blocks != [] && forall i :: 0 <= i < |blocks| ==> blocks[i].kind == ToolResult
  }

  /** The tail a tool result follows instead of its own call. */
  function Following(parents: map<string, string>, st: State, r: Record, base: Option<Key>): Option<Key>
    requires r.body.Message?
  {
    if r.body.role == User && ToolResults(r.body.blocks) && base.Some? then
      var tail := Resolve(parents, st, st.head);
      if tail != base && IsAncestor(st.parentOf, base.value, tail, ANCESTOR_STEPS) then tail else None
    else None
  }

  function Headed(st: State, r: Record): State {
    if r.uuid == "" then st else st.(head := r.uuid)
  }

  /** What a message starts from: its head, its effort change if there is one, and the parent of
      its blocks. */
  function Begun(parents: map<string, string>, st: State, r: Record): (State, Option<Key>)
    requires r.body.Message?
  {
    var base := Resolve(parents, st, r.parent);
    var following := Following(parents, st, r, base);
    var parent := if following.Some? then following else base;
    if r.body.role == Assistant && r.body.effort != "" && r.body.effort != st.effort then
      (Emit(Headed(st, r).(effort := r.body.effort), EffortKey(r.uuid), parent), Some(EffortKey(r.uuid)))
    else (Headed(st, r), parent)
  }

  /** The record's key is that of its first block. */
  function Ended(begun: State, shown: State, r: Record, following: Option<Key>): State {
    if r.uuid != "" && |shown.events| > |begun.events| then
      var first := shown.events[|begun.events|].key;
      shown.(keys := shown.keys[r.uuid := first],
             inserted := if following.Some? then shown.inserted[following.value := first] else shown.inserted)
    else shown
  }

  function Said(parents: map<string, string>, st: State, r: Record): State
    requires r.body.Message?
  {
    var (begun, base) := Begun(parents, st, r);
    Ended(begun, EmitBlocks(begun, r, base, r.body.blocks), r, Following(parents, st, r, Resolve(parents, st, r.parent)))
  }

  function Noted(parents: map<string, string>, st: State, r: Record): State
    requires r.body.Note?
  {
    var key := if r.uuid == "" then Digest(Text, r.body.digest) else NoteKey(r.uuid);
    var emitted := Emit(Headed(st, r), key, Resolve(parents, st, r.parent));
    emitted.(keys := emitted.keys[r.uuid := key])
  }

  /** A system prompt, put after the event at the head of the conversation. */
  function WithPrompt(st: State, hash: string, parent: Option<Key>): State {
    var emitted := Emit(st.(prompts := st.prompts + {hash}), PromptKey(hash), parent);
    if parent.Some? then emitted.(inserted := emitted.inserted[parent.value := PromptKey(hash)]) else emitted
  }

  /** It is shown once per version. */
  function Prompted(parents: map<string, string>, st: State, r: Record): State
    requires r.body.Prompt?
  {
    var headed := Headed(st, r);
    if r.body.hash in st.prompts then headed else WithPrompt(headed, r.body.hash, Resolve(parents, headed, headed.head))
  }

  function Step(parents: map<string, string>, st: State, r: Record): State {
    match r.body
    case Silent => Headed(st, r)
    case Note(_) => Noted(parents, st, r)
    case Prompt(_) => Prompted(parents, st, r)
    case Message(_, _, _) => Said(parents, st, r)
  }

  function Run(parents: map<string, string>, records: seq<Record>): State {
    if records == [] then START else Step(parents, Run(parents, records[..|records| - 1]), records[|records| - 1])
  }

  /** The events with late parents filled in. */
  function Completed(parents: map<string, string>, st: State): (events: seq<Event>)
    ensures |events| == |st.events|
    ensures forall n :: 0 <= n < |events| ==>
      events[n] == if n in st.late then Event(st.events[n].key, Resolve(parents, st, st.late[n])) else st.events[n]
  {
    seq(|st.events|, n requires 0 <= n < |st.events| =>
      if n in st.late then Event(st.events[n].key, Resolve(parents, st, st.late[n])) else st.events[n])
  }

  method ReadParents(records: seq<Record>) returns (parents: map<string, string>)
    ensures parents == Parents(records)
  {
    parents := map[];
    var k := 0;
    while k < |records|
      invariant 0 <= k <= |records| && parents == Parents(records[..k])
    {
      assert records[..k + 1][..k] == records[..k];
      if records[k].uuid != "" {
        parents := parents[records[k].uuid := records[k].parent];
      }
      k := k + 1;
    }
    assert records[..k] == records;
  }

  /** The second pass: an event whose parent had no key yet gets the one it has now. */
  method FillLate(parents: map<string, string>, st: State) returns (events: seq<Event>)
    ensures events == Completed(parents, st)
  {
    events := st.events;
    var n := 0;
    while n < |events|
      invariant 0 <= n <= |events| == |st.events|
      invariant forall k :: 0 <= k < n ==> events[k] == Completed(parents, st)[k]
      invariant forall k :: n <= k < |events| ==> events[k] == st.events[k]
    {
      if n in st.late {
        events := events[n := Event(events[n].key, Resolve(parents, st, st.late[n]))];
      }
      n := n + 1;
    }
  }

  /** normalizeClaude: one loop over the records, then the parents that were written late. */
  method NormalizeClaude(records: seq<Record>) returns (events: seq<Event>)
    ensures events == Completed(Parents(records), Run(Parents(records), records))
  {
    var parents := ReadParents(records);
    var st := START;
    var k := 0;
    while k < |records|
      invariant 0 <= k <= |records| && st == Run(parents, records[..k])
    {
      assert records[..k + 1][..k] == records[..k];
      st := Step(parents, st, records[k]);
      k := k + 1;
    }
    assert records[..k] == records;
    events := FillLate(parents, st);
  }

  // ---- Every parent is emitted

  ghost predicate Emitted(events: seq<Event>, key: Key) {
    exists m :: 0 <= m < |events| && events[m].key == key
  }

  /** The event's parent, if any, is an earlier event. */
  ghost predicate ParentEarlier(events: seq<Event>, n: nat)
    requires n < |events|
  {
    events[n].parent.Some? ==> Emitted(events[..n], events[n].parent.value)
  }

  ghost predicate Known(st: State) {
    && (forall u {:trigger st.keys[u]} :: u in st.keys ==> Emitted(st.events, st.keys[u]))
    && (forall k {:trigger st.inserted[k]} :: k in st.inserted ==> Emitted(st.events, st.inserted[k]))
    && (forall n {:trigger ParentEarlier(st.events, n)} :: 0 <= n < |st.events| ==> ParentEarlier(st.events, n))
    && (forall n :: n in st.late ==> n < |st.events|)
  }

  lemma EmittedMore(events: seq<Event>, e: Event, key: Key)
    requires Emitted(events, key) || e.key == key
    ensures Emitted(events + [e], key)
  {
    var more := events + [e];
    assert more[|events|] == e;
    if Emitted(events, key) {
      var m :| 0 <= m < |events| && events[m].key == key;
      assert more[m] == events[m];
    }
  }

  lemma {:induction false} FindKnown(parents: map<string, string>, st: State, id: string, steps: nat)
    requires Known(st)
    decreases steps
    ensures Find(parents, st.keys, id, steps).Some? ==> Emitted(st.events, Find(parents, st.keys, id, steps).value)
  {
    if id != "" && steps > 0 && id !in st.keys {
      FindKnown(parents, st, Above(parents, id), steps - 1);
    }
  }

  lemma {:induction false} FollowKnown(st: State, key: Key, hops: nat)
    requires Known(st) && Emitted(st.events, key)
    ensures Emitted(st.events, Follow(st.inserted, key, hops))
    decreases hops
  {
    if hops > 0 && key in st.inserted {
      FollowKnown(st, st.inserted[key], hops - 1);
    }
  }

  lemma ResolveKnown(parents: map<string, string>, st: State, id: string)
    requires Known(st)
    ensures Resolve(parents, st, id).Some? ==> Emitted(st.events, Resolve(parents, st, id).value)
  {
    FindKnown(parents, st, id, |parents| + 1);
    if Find(parents, st.keys, id, |parents| + 1).Some? {
      FollowKnown(st, Find(parents, st.keys, id, |parents| + 1).value, |st.inserted| + 1);
    }
  }

  lemma EmitKnown(st: State, key: Key, parent: Option<Key>)
    requires Known(st) && (parent.Some? ==> Emitted(st.events, parent.value))
    ensures Known(Emit(st, key, parent)) && Emitted(Emit(st, key, parent).events, key)
  {
    var after, e := Emit(st, key, parent), Event(key, parent);
    forall k | Emitted(st.events, k) || k == key {
      EmittedMore(st.events, e, k);
    }
    forall n: nat | n < |after.events|
      ensures ParentEarlier(after.events, n)
    {
      if n < |st.events| {
        assert ParentEarlier(st.events, n);
        assert after.events[..n] == st.events[..n];
      } else {
        assert after.events[..n] == st.events;
      }
    }
  }

  lemma {:induction false} BlocksKnown(st: State, r: Record, base: Option<Key>, blocks: seq<Block>)
    requires Known(st) && (base.Some? ==> Emitted(st.events, base.value))
    ensures var after := EmitBlocks(st, r, base, blocks);
      && Known(after) && (base.Some? ==> Emitted(after.events, base.value))
      && after.keys == st.keys && after.inserted == st.inserted && st.events <= after.events
  {
    if blocks != [] {
      var front, block := blocks[..|blocks| - 1], blocks[|blocks| - 1];
      BlocksKnown(st, r, base, front);
      var before := EmitBlocks(st, r, base, front);
      if block.kind != Unknown {
        var waiting := before.(late := if base == None && r.parent != "" then before.late[|before.events| := r.parent] else before.late);
        WaitingKnown(before, waiting.late, KeyOf(block.kind, r.uuid, |blocks| - 1, block.digest), base);
      }
    }
  }

  lemma WaitingKnown(st: State, late: map<nat, string>, key: Key, parent: Option<Key>)
    requires Known(st) && (parent.Some? ==> Emitted(st.events, parent.value))
    requires forall n :: n in late ==> n <= |st.events|
    ensures var after := Emit(st.(late := late), key, parent);
      && Known(after) && forall k :: Emitted(st.events, k) ==> Emitted(after.events, k)
  {
    EmitKnown(st, key, parent);
    var after := Emit(st.(late := late), key, parent);
    assert after.events == Emit(st, key, parent).events;
    forall k | Emitted(st.events, k) {
      EmittedMore(st.events, Event(key, parent), k);
    }
    forall n: nat | n < |after.events|
      ensures ParentEarlier(after.events, n)
    {
      assert ParentEarlier(Emit(st, key, parent).events, n);
    }
  }

  lemma HeadedKnown(st: State, r: Record)
    requires Known(st)
    ensures Known(Headed(st, r)) && Headed(st, r).events == st.events
  {
    forall n: nat | n < |st.events|
      ensures ParentEarlier(Headed(st, r).events, n)
    {
      assert ParentEarlier(st.events, n);
    }
  }

  /** Fields that no event depends on. */
  lemma SameKnown(st: State, other: State)
    requires Known(st) && other.events == st.events && other.late == st.late
    requires forall u :: u in other.keys ==> Emitted(st.events, other.keys[u])
    requires forall k :: k in other.inserted ==> Emitted(st.events, other.inserted[k])
    ensures Known(other)
  {
    forall n: nat | n < |other.events|
      ensures ParentEarlier(other.events, n)
    {
      assert ParentEarlier(st.events, n);
    }
  }

  lemma NotedKnown(parents: map<string, string>, st: State, r: Record)
    requires r.body.Note? && Known(st)
    ensures Known(Noted(parents, st, r))
  {
    var key := if r.uuid == "" then Digest(Text, r.body.digest) else NoteKey(r.uuid);
    HeadedKnown(st, r);
    ResolveKnown(parents, st, r.parent);
    EmitKnown(Headed(st, r), key, Resolve(parents, st, r.parent));
    SameKnown(Emit(Headed(st, r), key, Resolve(parents, st, r.parent)), Noted(parents, st, r));
  }

  lemma WithPromptKnown(st: State, hash: string, parent: Option<Key>)
    requires Known(st) && (parent.Some? ==> Emitted(st.events, parent.value))
    ensures Known(WithPrompt(st, hash, parent))
  {
    var marked := st.(prompts := st.prompts + {hash});
    SameKnown(st, marked);
    EmitKnown(marked, PromptKey(hash), parent);
    SameKnown(Emit(marked, PromptKey(hash), parent), WithPrompt(st, hash, parent));
  }

  lemma PromptedKnown(parents: map<string, string>, st: State, r: Record)
    requires r.body.Prompt? && Known(st)
    ensures Known(Prompted(parents, st, r))
  {
    HeadedKnown(st, r);
    ResolveKnown(parents, Headed(st, r), Headed(st, r).head);
    if r.body.hash !in st.prompts {
      WithPromptKnown(Headed(st, r), r.body.hash, Resolve(parents, Headed(st, r), Headed(st, r).head));
    }
  }

  lemma BegunKnown(parents: map<string, string>, st: State, r: Record)
    requires r.body.Message? && Known(st)
    ensures var (begun, base) := Begun(parents, st, r); Known(begun) && (base.Some? ==>
      Emitted(begun.events, base.value))
  {
    HeadedKnown(st, r);
    ResolveKnown(parents, st, r.parent);
    ResolveKnown(parents, st, st.head);
    var base := Resolve(parents, st, r.parent);
    var following := Following(parents, st, r, base);
    var marked := Headed(st, r).(effort := r.body.effort);
    SameKnown(Headed(st, r), marked);
    EmitKnown(marked, EffortKey(r.uuid), if following.Some? then following else base);
  }

  lemma EndedKnown(begun: State, shown: State, r: Record, following: Option<Key>)
    requires Known(shown)
    ensures Known(Ended(begun, shown, r, following))
  {
    if |shown.events| > |begun.events| {
      assert Emitted(shown.events, shown.events[|begun.events|].key);
    }
    SameKnown(shown, Ended(begun, shown, r, following));
  }

  lemma SaidKnown(parents: map<string, string>, st: State, r: Record)
    requires r.body.Message? && Known(st)
    ensures Known(Said(parents, st, r))
  {
    var (begun, base) := Begun(parents, st, r);
    BegunKnown(parents, st, r);
    BlocksKnown(begun, r, base, r.body.blocks);
    EndedKnown(begun, EmitBlocks(begun, r, base, r.body.blocks), r, Following(parents, st, r, Resolve(parents, st, r.parent)));
  }

  lemma StepKnown(parents: map<string, string>, st: State, r: Record)
    requires Known(st)
    ensures Known(Step(parents, st, r))
  {
    match r.body
    case Silent => HeadedKnown(st, r);
    case Note(_) => NotedKnown(parents, st, r);
    case Prompt(_) => PromptedKnown(parents, st, r);
    case Message(_, _, _) => SaidKnown(parents, st, r);
  }

  lemma {:induction false} RunKnown(parents: map<string, string>, records: seq<Record>)
    ensures Known(Run(parents, records))
  {
    if records != [] {
      RunKnown(parents, records[..|records| - 1]);
      StepKnown(parents, Run(parents, records[..|records| - 1]), records[|records| - 1]);
    }
  }

  /** Every parent key in the result names an emitted event; one that was not looked up late, an
      earlier one. */
  lemma LateEmitted(parents: map<string, string>, st: State, n: nat)
    requires Known(st) && n < |st.events| && n in st.late
    ensures var events := Completed(parents, st); events[n].parent.Some? ==> Emitted(events, events[n].parent.value)
  {
    var events := Completed(parents, st);
    ResolveKnown(parents, st, st.late[n]);
    if events[n].parent.Some? {
      assert st.events[..|events|] == st.events;
      SameKeys(events, st.events, |events|, events[n].parent.value);
    }
  }

  lemma OnTimeEarlier(parents: map<string, string>, st: State, n: nat)
    requires Known(st) && n < |st.events| && n !in st.late
    ensures ParentEarlier(Completed(parents, st), n)
  {
    assert ParentEarlier(st.events, n);
    var events := Completed(parents, st);
    if events[n].parent.Some? {
      SameKeys(events, st.events, n, events[n].parent.value);
    }
  }

  lemma {:induction false} ParentsAreEmitted(records: seq<Record>, n: nat)
    requires n < |Completed(Parents(records), Run(Parents(records), records))|
    ensures var events := Completed(Parents(records), Run(Parents(records), records));
      && (events[n].parent.Some? ==> Emitted(events, events[n].parent.value))
      && (n !in Run(Parents(records), records).late ==> ParentEarlier(events, n))
  {
    var st := Run(Parents(records), records);
    var events := Completed(Parents(records), st);
    RunKnown(Parents(records), records);
    if n in st.late {
      LateEmitted(Parents(records), st, n);
    } else {
      OnTimeEarlier(Parents(records), st, n);
      if events[n].parent.Some? {
        EmittedInMore(events, n, events[n].parent.value);
      }
    }
  }

  lemma SameKeys(a: seq<Event>, b: seq<Event>, n: nat, key: Key)
    requires |a| == |b| && n <= |a| && (forall k :: 0 <= k < |a| ==> a[k].key == b[k].key) && Emitted(b[..n], key)
    ensures Emitted(a[..n], key) && (n == |a| ==> Emitted(a, key))
  {
    var m :| 0 <= m < n && b[..n][m].key == key;
    assert a[..n][m].key == key;
    assert n == |a| ==> a[..n] == a;
  }

  lemma EmittedInMore(events: seq<Event>, n: nat, key: Key)
    requires n <= |events| && Emitted(events[..n], key)
    ensures Emitted(events, key)
  {
    var m :| 0 <= m < n && events[..n][m].key == key;
    assert events[m].key == key;
  }

  // ---- A forest

  ghost predicate UniqueUuids(records: seq<Record>) {
    forall i, j :: 0 <= i < j < |records| && records[i].uuid != "" ==> records[i].uuid != records[j].uuid
  }

  /** The record's parent matters: another can point at it, or it shows blocks. */
  predicate Linked(r: Record) {
    r.uuid != "" || r.body.Message?
  }

  /** No record is written before the record it names as its parent. */
  ghost predicate ParentsBefore(records: seq<Record>) {
    forall i, j ::
      (0 <= i < |records| && 0 <= j < |records| && Linked(records[i]) && records[i].parent != "" &&
       records[j].uuid == records[i].parent) ==> j < i
  }

  /** No record from k on has the uuid. */
  ghost predicate Old(records: seq<Record>, k: nat, u: string) {
    forall i :: k <= i < |records| ==> records[i].uuid != u
  }

  lemma {:induction false} ParentsFrom(records: seq<Record>, k: nat, u: string)
    requires k <= |records| && u in Parents(records[..k])
    ensures exists i :: 0 <= i < k && records[i].uuid == u && u != "" && Parents(records[..k])[u] == records[i].parent
  {
    assert records[..k][..k - 1] == records[..k - 1];
    if records[k - 1].uuid != u || u == "" {
      ParentsFrom(records, k - 1, u);
    }
  }

  lemma {:induction false} AboveIsOld(records: seq<Record>, k: nat, u: string)
    requires UniqueUuids(records) && ParentsBefore(records) && k <= |records| && Old(records, k, u)
    ensures Above(Parents(records), u) == "" || Old(records, k, Above(Parents(records), u))
  {
    if u in Parents(records) {
      assert records[..|records|] == records;
      ParentsFrom(records, |records|, u);
      var i :| 0 <= i < |records| && records[i].uuid == u && u != "" && Parents(records)[u] == records[i].parent;
    }
  }

  /** Keys given from record k on do not help an old uuid. */
  lemma {:induction false} FindStays(records: seq<Record>, k: nat, keys: map<string, Key>, more: map<string, Key>,
      u: string, steps: nat)
    requires UniqueUuids(records) && ParentsBefore(records) && k <= |records| && (u == "" || Old(records, k, u))
    requires forall v :: v != "" && Old(records, k, v) ==> (v in more <==> v in keys)
    requires Find(Parents(records), keys, u, steps) == None
    ensures Find(Parents(records), more, u, steps) == None
    decreases steps
  {
    if u != "" && steps > 0 {
      AboveIsOld(records, k, u);
      FindStays(records, k, keys, more, Above(Parents(records), u), steps - 1);
    }
  }

  lemma {:induction false} BlocksLate(st: State, r: Record, base: Option<Key>, blocks: seq<Block>)
    requires forall n :: n in st.late ==> n < |st.events|
    ensures var after := EmitBlocks(st, r, base, blocks);
      && after.keys == st.keys && st.events <= after.events
      && (forall n :: n in after.late ==> n < |after.events|)
      && (forall n :: n in st.late ==> n in after.late && after.late[n] == st.late[n])
      && (forall n :: n in after.late && n !in st.late ==>
        base == None && after.late[n] == r.parent && n >= |st.events| && after.events[n].parent == None)
  {
    if blocks != [] {
      BlocksLate(st, r, base, blocks[..|blocks| - 1]);
    }
  }

  /** What is still to be looked up late will not be found, for events without a parent. */
  ghost predicate LateIsNone(records: seq<Record>, k: nat, st: State) {
    forall n :: n in st.late ==>
      && n < |st.events| && st.events[n].parent == None && Old(records, k, st.late[n])
      && Find(Parents(records), st.keys, st.late[n], |Parents(records)| + 1) == None
  }

  lemma BegunIs(parents: map<string, string>, st: State, r: Record)
    requires r.body.Message?
    ensures var (begun, base) := Begun(parents, st, r);
      && st.events <= begun.events && begun.keys == st.keys && begun.late == st.late
      && (base == None ==> Resolve(parents, st, r.parent) == None && begun.events == st.events)
  {
  }

  lemma {:induction false} SaidIs(parents: map<string, string>, st: State, r: Record)
    requires r.body.Message?
    ensures var (begun, base) := Begun(parents, st, r);
      var shown, after := EmitBlocks(begun, r, base, r.body.blocks), Said(parents, st, r);
      && after.events == shown.events && after.late == shown.late
      && (forall u :: u != r.uuid ==>
        (u in after.keys <==> u in shown.keys) && (u in shown.keys ==> after.keys[u] == shown.keys[u]))
  {
  }

  lemma StepKeys(parents: map<string, string>, st: State, r: Record, u: string)
    requires u != r.uuid && forall n :: n in st.late ==> n < |st.events|
    ensures u in Step(parents, st, r).keys <==> u in st.keys
  {
    if r.body.Message? {
      var (begun, base) := Begun(parents, st, r);
      BegunIs(parents, st, r);
      BlocksLate(begun, r, base, r.body.blocks);
      SaidIs(parents, st, r);
    }
  }

  lemma SaidLate(parents: map<string, string>, st: State, r: Record, n: nat)
    requires r.body.Message? && (forall m :: m in st.late ==> m < |st.events|) && n in Said(parents, st, r).late
    ensures st.events <= Said(parents, st, r).events && n < |Said(parents, st, r).events|
    ensures n in st.late ==> Said(parents, st, r).late[n] == st.late[n]
    ensures n !in st.late ==>
      && Said(parents, st, r).late[n] == r.parent && Resolve(parents, st, r.parent) == None && r.parent != ""
      && Said(parents, st, r).events[n].parent == None
  {
    var (begun, base) := Begun(parents, st, r);
    BegunIs(parents, st, r);
    BlocksLate(begun, r, base, r.body.blocks);
    SaidIs(parents, st, r);
    if n !in st.late {
      BlocksNamed(begun, r, base, r.body.blocks, n);
    }
  }

  lemma NotedLate(parents: map<string, string>, st: State, r: Record)
    requires r.body.Note?
    ensures st.events <= Noted(parents, st, r).events && Noted(parents, st, r).late == st.late
  {
  }

  lemma WithPromptLate(st: State, hash: string, parent: Option<Key>)
    ensures st.events <= WithPrompt(st, hash, parent).events && WithPrompt(st, hash, parent).late == st.late
  {
  }

  lemma PromptedLate(parents: map<string, string>, st: State, r: Record)
    requires r.body.Prompt?
    ensures st.events <= Prompted(parents, st, r).events && Prompted(parents, st, r).late == st.late
  {
    WithPromptLate(Headed(st, r), r.body.hash, Resolve(parents, Headed(st, r), Headed(st, r).head));
  }

  lemma {:induction false} StepLate(parents: map<string, string>, st: State, r: Record, n: nat)
    requires forall m :: m in st.late ==> m < |st.events|
    requires n in Step(parents, st, r).late
    ensures st.events <= Step(parents, st, r).events && n < |Step(parents, st, r).events|
    ensures n in st.late ==> Step(parents, st, r).late[n] == st.late[n]
    ensures n !in st.late ==>
      && Step(parents, st, r).late[n] == r.parent && Find(parents, st.keys, r.parent, |parents| + 1) == None && r.parent != ""
      && Step(parents, st, r).events[n].parent == None && r.body.Message?
  {
    match r.body
    case Silent =>
    case Note(_) => NotedLate(parents, st, r);
    case Prompt(_) => PromptedLate(parents, st, r);
    case Message(_, _, _) => SaidLate(parents, st, r, n);
  }

  lemma {:induction false} BlocksNamed(st: State, r: Record, base: Option<Key>, blocks: seq<Block>, n: nat)
    requires n in EmitBlocks(st, r, base, blocks).late && n !in st.late
    ensures r.parent != ""
  {
    if blocks != [] && n in EmitBlocks(st, r, base, blocks[..|blocks| - 1]).late {
      BlocksNamed(st, r, base, blocks[..|blocks| - 1], n);
    }
  }

  lemma {:induction false} OldKeysStay(records: seq<Record>, k: nat, st: State, v: string)
    requires k < |records| && LateIsNone(records, k, st) && Old(records, k, v)
    ensures v in Step(Parents(records), st, records[k]).keys <==> v in st.keys
  {
    StepKeys(Parents(records), st, records[k], v);
  }

  lemma {:induction false} LateAfter(records: seq<Record>, k: nat, st: State, after: State, n: nat)
    requires UniqueUuids(records) && ParentsBefore(records) && k < |records| && LateIsNone(records, k, st)
    requires st.events <= after.events && n < |after.events| && n in after.late
    requires n in st.late ==> after.late[n] == st.late[n]
    requires n !in st.late ==>
      && after.late[n] == records[k].parent && records[k].parent != "" && records[k].body.Message?
      && Find(Parents(records), st.keys, records[k].parent, |Parents(records)| + 1) == None && after.events[n].parent == None
    requires forall v :: v != "" && Old(records, k, v) ==> (v in after.keys <==> v in st.keys)
    ensures after.events[n].parent == None && Old(records, k + 1, after.late[n])
    ensures Find(Parents(records), after.keys, after.late[n], |Parents(records)| + 1) == None
  {
    assert n !in st.late ==> Old(records, k, records[k].parent);
    FindStays(records, k, st.keys, after.keys, after.late[n], |Parents(records)| + 1);
  }

  lemma {:induction false} OneLateStays(records: seq<Record>, k: nat, st: State, n: nat)
    requires UniqueUuids(records) && ParentsBefore(records) && k < |records| && LateIsNone(records, k, st)
    requires n in Step(Parents(records), st, records[k]).late
    ensures var after := Step(Parents(records), st, records[k]);
      && n < |after.events| && after.events[n].parent == None && Old(records, k + 1, after.late[n])
      && Find(Parents(records), after.keys, after.late[n], |Parents(records)| + 1) == None
  {
    var after := Step(Parents(records), st, records[k]);
    StepLate(Parents(records), st, records[k], n);
    forall v | v != "" && Old(records, k, v)
      ensures v in after.keys <==> v in st.keys
    {
      OldKeysStay(records, k, st, v);
    }
    LateAfter(records, k, st, after, n);
  }

  lemma {:induction false} LateStaysNone(records: seq<Record>, k: nat)
    requires UniqueUuids(records) && ParentsBefore(records) && k <= |records|
    ensures LateIsNone(records, k, Run(Parents(records), records[..k]))
  {
    if k > 0 {
      assert records[..k][..k - 1] == records[..k - 1];
      LateStaysNone(records, k - 1);
      var st := Run(Parents(records), records[..k - 1]);
      var after := Step(Parents(records), st, records[k - 1]);
      forall n | n in after.late
        ensures n < |after.events| && after.events[n].parent == None && Old(records, k, after.late[n])
        ensures Find(Parents(records), after.keys, after.late[n], |Parents(records)| + 1) == None
      {
        OneLateStays(records, k - 1, st, n);
      }
    }
  }

  /** With unique uuids and parents written before children, every event's parent is an earlier
      event: the result is a forest. */
  lemma {:induction false} ParentsAreEarlier(records: seq<Record>, n: nat)
    requires UniqueUuids(records) && ParentsBefore(records)
    requires n < |Completed(Parents(records), Run(Parents(records), records))|
    ensures ParentEarlier(Completed(Parents(records), Run(Parents(records), records)), n)
  {
    var st := Run(Parents(records), records);
    ParentsAreEmitted(records, n);
    assert records[..|records|] == records;
    LateStaysNone(records, |records|);
  }
}
