/** When a Claude Code conversation comes out as one chain. */
module ClaudeChain {
  import opened Utf8
  import opened Claude

  // ---- First events

  /** The first event a record added, and after an effort change the first block as well. */
  function NewFirsts(before: State, after: State, r: Record): seq<Event> {
    var s := |before.events|;
    if |after.events| <= s then []
    else if after.events[s].key == EffortKey(r.uuid) && |after.events| > s + 1 then [after.events[s], after.events[s + 1]]
    else [after.events[s]]
  }

  function Firsts(parents: map<string, string>, records: seq<Record>): seq<Event> {
    if records == [] then []
    else
      var front, r := records[..|records| - 1], records[|records| - 1];
      Firsts(parents, front) + NewFirsts(Run(parents, front), Run(parents, records), r)
  }

  function LastKey(firsts: seq<Event>): Option<Key> {
    if firsts == [] then None else Some(firsts[|firsts| - 1].key)
  }

  ghost predicate FollowsAt(firsts: seq<Event>, j: nat)
    requires j < |firsts|
  {
    firsts[j].parent == if j == 0 then None else Some(firsts[j - 1].key)
  }

  /** Each event's parent is the one before it. */
  ghost predicate Chain(firsts: seq<Event>) {
    && (forall j {:trigger FollowsAt(firsts, j)} :: 0 <= j < |firsts| ==> FollowsAt(firsts, j))
    && (forall i, j :: 0 <= i < j < |firsts| ==> firsts[i].key != firsts[j].key)
  }

  // ---- The condition

  ghost predicate Seen(records: seq<Record>, k: nat, u: string)
    requires k <= |records|
  {
    u != "" && exists i :: 0 <= i < k && records[i].uuid == u
  }

  /** A tool result that points at a call less than a thousand events up the chain. */
  ghost predicate Answers(parents: map<string, string>, st: State, firsts: seq<Event>, r: Record) {
    && r.body.Message? && r.body.role == User && ToolResults(r.body.blocks)
    && r.parent != "" && r.parent in st.keys
    && exists j ::
      0 <= j < |firsts| && |firsts| <= j + ANCESTOR_STEPS && Resolve(parents, st, r.parent) == Some(firsts[j].key)
  }

  predicate Spoken(r: Record) {
    r.body.Note? || r.body.Message?
  }

  /** The record follows the one before it, or answers a call; and what it shows has a uuid and is
      known. */
  ghost predicate Follows(parents: map<string, string>, st: State, firsts: seq<Event>, r: Record) {
    && (Spoken(r) ==> r.uuid != "")
    && (r.body.Message? ==> r.body.blocks != [] && forall i :: 0 <= i < |r.body.blocks| ==>
      r.body.blocks[i].kind != Unknown)
    && (r.uuid != "" ==> r.parent == st.head || Answers(parents, st, firsts, r))
  }

  /** And no system prompt comes before the first event with a uuid. */
  ghost predicate InLine(parents: map<string, string>, st: State, firsts: seq<Event>, r: Record) {
    Follows(parents, st, firsts, r) && (r.body.Prompt? && r.body.hash !in st.prompts ==> firsts != [])
  }

  ghost predicate FollowsAtRecord(records: seq<Record>, k: nat)
    requires k < |records|
  {
    Follows(Parents(records), Run(Parents(records), records[..k]), Firsts(Parents(records), records[..k]), records[k])
  }

  ghost predicate AllFollow(records: seq<Record>) {
    forall k {:trigger FollowsAtRecord(records, k)} :: 0 <= k < |records| ==> FollowsAtRecord(records, k)
  }

  /** Some system prompt comes before everything that has a uuid and is shown. */
  ghost predicate PromptFirst(records: seq<Record>) {
    exists k :: 0 <= k < |records| && records[k].body.Prompt? && forall i :: 0 <= i < k ==> !Spoken(records[i])
  }

  ghost predicate AllInLine(records: seq<Record>) {
    forall k {:trigger InLineAt(records, k)} :: 0 <= k < |records| ==> InLineAt(records, k)
  }

  ghost predicate InLineAt(records: seq<Record>, k: nat)
    requires k < |records|
  {
    InLine(Parents(records), Run(Parents(records), records[..k]), Firsts(Parents(records), records[..k]), records[k])
  }

  // ---- What holds after some records

  ghost predicate KeySeen(records: seq<Record>, k: nat, st: State, key: Key)
    requires k <= |records|
  {
    match key
    case BlockKey(_, u, _) => Seen(records, k, u)
    case NoteKey(u) => Seen(records, k, u)
    case EffortKey(u) => Seen(records, k, u)
    case PromptKey(h) => h in st.prompts
    case Digest(_, _) => false
  }

  ghost predicate OnChain(firsts: seq<Event>, key: Key) {
    exists j :: 0 <= j < |firsts| && firsts[j].key == key
  }

  /** The event put after one on the chain is the next on it. */
  ghost predicate PutNext(firsts: seq<Event>, key: Key, next: Key) {
    exists j :: 0 <= j < |firsts| - 1 && firsts[j].key == key && firsts[j + 1].key == next
  }

  function Count(records: seq<Record>, k: nat): nat
    requires k <= |records|
  {
    if k == 0 then 0 else Count(records, k - 1) + (if records[k - 1].uuid != "" then 1 else 0)
  }

  /** From place i on, every event of the chain but the last had the next put after it. */
  ghost predicate Links(inserted: map<Key, Key>, firsts: seq<Event>, i: nat) {
    forall j :: i <= j < |firsts| - 1 ==> firsts[j].key in inserted
  }

  /** The head of the conversation leads to the end of the chain. */
  ghost predicate HeadLeads(records: seq<Record>, k: nat, st: State, firsts: seq<Event>)
    requires k <= |records|
  {
    exists s: nat, i: nat :: s <= Count(records, k) && i < |firsts|
      && Find(Parents(records), st.keys, st.head, s) == Some(firsts[i].key) && Links(st.inserted, firsts, i)
  }

  ghost predicate KeysOk(records: seq<Record>, k: nat, st: State, firsts: seq<Event>)
    requires k <= |records|
  {
    forall u {:trigger st.keys[u]} :: u in st.keys && u != "" ==> Seen(records, k, u) && OnChain(firsts, st.keys[u])
  }

  ghost predicate InsertedOk(st: State, firsts: seq<Event>) {
    forall key {:trigger st.inserted[key]} :: key in st.inserted ==> PutNext(firsts, key, st.inserted[key])
  }

  ghost predicate FirstOk(records: seq<Record>, k: nat, st: State, e: Event)
    requires k <= |records|
  {
    KeySeen(records, k, st, e.key) && e.key in st.parentOf && st.parentOf[e.key] == e.parent
  }

  ghost predicate FirstsOk(records: seq<Record>, k: nat, st: State, firsts: seq<Event>)
    requires k <= |records|
  {
    forall j {:trigger firsts[j]} :: 0 <= j < |firsts| ==> FirstOk(records, k, st, firsts[j])
  }

  ghost predicate Inv(records: seq<Record>, k: nat, st: State, firsts: seq<Event>)
    requires k <= |records|
  {
    && Chain(firsts) && FirstsOk(records, k, st, firsts)
    && KeysOk(records, k, st, firsts) && InsertedOk(st, firsts)
    && (firsts != [] ==> HeadLeads(records, k, st, firsts))
    && (st.head == "" || Seen(records, k, st.head))
  }

  // ---- Resolving

  lemma {:induction false} FindMore(parents: map<string, string>, keys: map<string, Key>, id: string, s: nat, t: nat)
    requires s <= t && Find(parents, keys, id, s).Some?
    ensures Find(parents, keys, id, t) == Find(parents, keys, id, s)
    decreases s
  {
    if id != "" && s > 0 && id !in keys {
      FindMore(parents, keys, Above(parents, id), s - 1, t - 1);
    }
  }

  lemma {:induction false} FindNone(parents: map<string, string>, keys: map<string, Key>, id: string, s: nat)
    requires forall u :: u in keys ==> u == ""
    ensures Find(parents, keys, id, s) == None
    decreases s
  {
    if id != "" && s > 0 {
      FindNone(parents, keys, Above(parents, id), s - 1);
    }
  }

  lemma NextPut(st: State, firsts: seq<Event>, i: nat)
    requires Chain(firsts) && InsertedOk(st, firsts) && i < |firsts| && firsts[i].key in st.inserted
    ensures i + 1 < |firsts| && st.inserted[firsts[i].key] == firsts[i + 1].key
  {
    var next := st.inserted[firsts[i].key];
    var j :| 0 <= j < |firsts| - 1 && firsts[j].key == firsts[i].key && firsts[j + 1].key == next;
    assert j == i;
  }

  /** Following what was put after goes up the chain. */
  lemma {:induction false} FollowUp(st: State, firsts: seq<Event>, i: nat, hops: nat)
    requires Chain(firsts) && InsertedOk(st, firsts) && i < |firsts| && Links(st.inserted, firsts, i)
    requires |firsts| - 1 - i <= hops
    ensures Follow(st.inserted, firsts[i].key, hops) == firsts[|firsts| - 1].key
    decreases hops
  {
    if firsts[i].key in st.inserted {
      NextPut(st, firsts, i);
      FollowUp(st, firsts, i + 1, hops - 1);
    }
  }

  lemma {:induction false} LinksCount(inserted: map<Key, Key>, firsts: seq<Event>, i: nat) returns (some: set<Key>)
    requires Chain(firsts) && i < |firsts| && Links(inserted, firsts, i)
    ensures some <= inserted.Keys && |some| == |firsts| - 1 - i
    ensures forall key :: key in some ==> exists j :: i <= j < |firsts| && firsts[j].key == key
    decreases |firsts| - i
  {
    if i == |firsts| - 1 {
      some := {};
    } else {
      var rest := LinksCount(inserted, firsts, i + 1);
      assert firsts[i].key !in rest;
      some := rest + {firsts[i].key};
    }
  }

  lemma SubsetCount<T>(a: set<T>, b: set<T>)
    requires a <= b
    ensures |a| <= |b|
  {
    assert b == a + (b - a);
  }

  lemma EnoughHops(inserted: map<Key, Key>, firsts: seq<Event>, i: nat)
    requires Chain(firsts) && i < |firsts| && Links(inserted, firsts, i)
    ensures |firsts| - 1 - i <= |inserted|
  {
    var some := LinksCount(inserted, firsts, i);
    SubsetCount(some, inserted.Keys);
    assert |inserted.Keys| == |inserted|;
  }

  lemma {:induction false} NothingResolves(records: seq<Record>, k: nat, st: State, id: string)
    requires k <= |records| && KeysOk(records, k, st, [])
    ensures Resolve(Parents(records), st, id) == None
  {
    forall u | u in st.keys
      ensures u == ""
    {
      assert u != "" ==> OnChain([], st.keys[u]);
    }
    FindNone(Parents(records), st.keys, id, |Parents(records)| + 1);
  }

  lemma FollowsToEnd(st: State, firsts: seq<Event>, i: nat)
    requires Chain(firsts) && InsertedOk(st, firsts) && i < |firsts| && Links(st.inserted, firsts, i)
    ensures Follow(st.inserted, firsts[i].key, |st.inserted| + 1) == firsts[|firsts| - 1].key
  {
    EnoughHops(st.inserted, firsts, i);
    FollowUp(st, firsts, i, |st.inserted| + 1);
  }

  lemma {:induction false} ResolvesFrom(parents: map<string, string>, st: State, firsts: seq<Event>, s: nat, i: nat)
    requires Chain(firsts) && InsertedOk(st, firsts) && i < |firsts| && Links(st.inserted, firsts, i)
    requires s <= |parents| && Find(parents, st.keys, st.head, s) == Some(firsts[i].key)
    ensures Resolve(parents, st, st.head) == LastKey(firsts)
  {
    FindMore(parents, st.keys, st.head, s, |parents| + 1);
    FollowsToEnd(st, firsts, i);
  }

  /** What points at the head of the conversation is put at the end of the chain. */
  lemma {:induction false} HeadResolves(records: seq<Record>, k: nat, st: State, firsts: seq<Event>)
    requires k <= |records| && Inv(records, k, st, firsts) && Count(records, k) <= |Parents(records)|
    ensures Resolve(Parents(records), st, st.head) == LastKey(firsts)
  {
    if firsts == [] {
      NothingResolves(records, k, st, st.head);
    } else {
      var s: nat, i: nat :| s <= Count(records, k) && i < |firsts| &&
        Find(Parents(records), st.keys, st.head, s) == Some(firsts[i].key) && Links(st.inserted, firsts, i);
      ResolvesFrom(Parents(records), st, firsts, s, i);
    }
  }

  ghost predicate Placed(st: State, e: Event) {
    e.key in st.parentOf && st.parentOf[e.key] == e.parent
  }

  lemma {:induction false} AncestorUp(st: State, firsts: seq<Event>, j: nat, m: nat, steps: nat)
    requires Chain(firsts) && j <= m < |firsts| && m - j < steps
    requires forall i {:trigger firsts[i]} :: 0 <= i < |firsts| ==> Placed(st, firsts[i])
    ensures IsAncestor(st.parentOf, firsts[j].key, Some(firsts[m].key), steps)
    decreases steps
  {
    if j < m {
      assert FollowsAt(firsts, m) && Placed(st, firsts[m]);
      AncestorUp(st, firsts, j, m - 1, steps - 1);
    }
  }

  lemma {:induction false} AnswerFollows(records: seq<Record>, k: nat, st: State, firsts: seq<Event>, r: Record)
    requires k <= |records| && FirstsOk(records, k, st, firsts) && Chain(firsts)
    requires Resolve(Parents(records), st, st.head) == LastKey(firsts) && Answers(Parents(records), st, firsts, r)
    ensures var base := Resolve(Parents(records), st, r.parent);
      var following := Following(Parents(records), st, r, base);
      (if following.Some? then following else base) == LastKey(firsts)
  {
    var j :| 0 <= j < |firsts| && |firsts| <= j + ANCESTOR_STEPS && Resolve(Parents(records), st, r.parent) == Some(firsts[j].key);
    forall i | 0 <= i < |firsts|
      ensures Placed(st, firsts[i])
    {
      assert FirstOk(records, k, st, firsts[i]);
    }
    AncestorUp(st, firsts, j, |firsts| - 1, ANCESTOR_STEPS);
  }

  /** Whatever the record points at in line, what it shows follows the end of the chain. */
  lemma {:induction false} ParentIsLast(records: seq<Record>, k: nat, st: State, firsts: seq<Event>, r: Record)
    requires k <= |records| && Inv(records, k, st, firsts) && Count(records, k) <= |Parents(records)|
    requires r.uuid != "" && InLine(Parents(records), st, firsts, r) && r.body.Message?
    ensures var base := Resolve(Parents(records), st, r.parent);
      var following := Following(Parents(records), st, r, base);
      && (if following.Some? then following else base) == LastKey(firsts)
      && (following.Some? ==> r.body.role == User)
  {
    HeadResolves(records, k, st, firsts);
    if r.parent != st.head {
      AnswerFollows(records, k, st, firsts, r);
    }
  }

  // ---- What one record adds

  lemma SeenMore(records: seq<Record>, k: nat, u: string)
    requires k < |records| && Seen(records, k, u)
    ensures Seen(records, k + 1, u)
  {
  }

  lemma SeenHere(records: seq<Record>, k: nat)
    requires k < |records| && records[k].uuid != ""
    ensures Seen(records, k + 1, records[k].uuid)
  {
  }

  lemma NotSeen(records: seq<Record>, k: nat)
    requires k < |records| && UniqueUuids(records)
    ensures !Seen(records, k, records[k].uuid)
  {
  }

  ghost predicate SamePlace(st: State, after: State, key: Key) {
    key in st.parentOf ==> key in after.parentOf && after.parentOf[key] == st.parentOf[key]
  }

  /** The record put these events at the end of the chain. */
  ghost predicate Grew(records: seq<Record>, k: nat, st: State, after: State, firsts: seq<Event>, more: seq<Event>)
    requires k < |records|
  {
    && st.prompts <= after.prompts
    && (forall key {:trigger SamePlace(st, after, key)} :: KeySeen(records, k, st, key) ==> SamePlace(st, after, key))
    && (forall j {:trigger more[j]} :: 0 <= j < |more| ==>
      KeySeen(records, k + 1, after, more[j].key) && !KeySeen(records, k, st, more[j].key) && Placed(after, more[j]))
    && (forall i, j :: 0 <= i < j < |more| ==> more[i].key != more[j].key)
    && (more != [] ==> more[0].parent == LastKey(firsts))
    && (|more| > 1 ==> |more| == 2 && more[1].parent == Some(more[0].key))
  }

  lemma KeySeenMore(records: seq<Record>, k: nat, st: State, after: State, key: Key)
    requires k < |records| && st.prompts <= after.prompts && KeySeen(records, k, st, key)
    ensures KeySeen(records, k + 1, after, key)
  {
  }

  lemma GrewFirst(records: seq<Record>, k: nat, st: State, after: State, firsts: seq<Event>, more: seq<Event>, e: Event)
    requires k < |records| && Grew(records, k, st, after, firsts, more) && FirstOk(records, k, st, e)
    ensures FirstOk(records, k + 1, after, e)
  {
    KeySeenMore(records, k, st, after, e.key);
    assert SamePlace(st, after, e.key);
  }

  lemma GrewFirstsOk(records: seq<Record>, k: nat, st: State, after: State, firsts: seq<Event>, more: seq<Event>)
    requires k < |records| && Grew(records, k, st, after, firsts, more) && FirstsOk(records, k, st, firsts)
    ensures FirstsOk(records, k + 1, after, firsts + more)
  {
    var all := firsts + more;
    forall j | 0 <= j < |all|
      ensures FirstOk(records, k + 1, after, all[j])
    {
      if j < |firsts| {
        GrewFirst(records, k, st, after, firsts, more, firsts[j]);
      } else {
        assert all[j] == more[j - |firsts|];
      }
    }
  }

  lemma GrewApart(records: seq<Record>, k: nat, st: State, after: State, firsts: seq<Event>, more: seq<Event>, i: nat,
      j: nat)
    requires k < |records| && Grew(records, k, st, after, firsts, more) && FirstsOk(records, k, st, firsts)
    requires Chain(firsts)
    requires i < j < |firsts + more|
    ensures (firsts + more)[i].key != (firsts + more)[j].key
  {
    if j >= |firsts| {
      assert (firsts + more)[j] == more[j - |firsts|];
      if i < |firsts| {
        assert FirstOk(records, k, st, firsts[i]);
      }
    }
  }

  lemma GrewChain(records: seq<Record>, k: nat, st: State, after: State, firsts: seq<Event>, more: seq<Event>)
    requires k < |records| && Grew(records, k, st, after, firsts, more) && FirstsOk(records, k, st, firsts)
    requires Chain(firsts)
    ensures Chain(firsts + more)
  {
    var all := firsts + more;
    forall i: nat, j: nat | i < j < |all|
      ensures all[i].key != all[j].key
    {
      GrewApart(records, k, st, after, firsts, more, i, j);
    }
    forall j: nat | j < |all|
      ensures FollowsAt(all, j)
    {
      if j < |firsts| {
        assert FollowsAt(firsts, j);
      } else {
        assert all[j] == more[j - |firsts|];
      }
    }
  }

  lemma OnChainMore(firsts: seq<Event>, more: seq<Event>, key: Key)
    requires OnChain(firsts, key)
    ensures OnChain(firsts + more, key)
  {
    var j :| 0 <= j < |firsts| && firsts[j].key == key;
    assert (firsts + more)[j].key == key;
  }

  lemma PutNextMore(firsts: seq<Event>, more: seq<Event>, key: Key, next: Key)
    requires PutNext(firsts, key, next)
    ensures PutNext(firsts + more, key, next)
  {
    var j :| 0 <= j < |firsts| - 1 && firsts[j].key == key && firsts[j + 1].key == next;
    assert (firsts + more)[j].key == key && (firsts + more)[j + 1].key == next;
  }

  lemma KeysMore(records: seq<Record>, k: nat, st: State, after: State, firsts: seq<Event>, more: seq<Event>)
    requires k < |records| && KeysOk(records, k, st, firsts) && records[k].uuid != "" && more != []
    requires after.keys == st.keys[records[k].uuid := more[|more| - 1].key]
    ensures KeysOk(records, k + 1, after, firsts + more)
  {
    var all := firsts + more;
    forall u | u in after.keys && u != ""
      ensures Seen(records, k + 1, u) && OnChain(all, after.keys[u])
    {
      if u == records[k].uuid {
        SeenHere(records, k);
        assert all[|all| - 1].key == after.keys[u];
      } else {
        assert Seen(records, k, u) && OnChain(firsts, st.keys[u]);
        SeenMore(records, k, u);
        OnChainMore(firsts, more, st.keys[u]);
      }
    }
  }

  lemma InsertedMore(st: State, after: State, firsts: seq<Event>, more: seq<Event>)
    requires InsertedOk(st, firsts)
    requires after.inserted == st.inserted ||
      (firsts != [] && |more| == 1 && after.inserted == st.inserted[firsts[|firsts| - 1].key := more[0].key])
    ensures InsertedOk(after, firsts + more)
  {
    var all := firsts + more;
    forall key | key in after.inserted
      ensures PutNext(all, key, after.inserted[key])
    {
      if key in st.inserted && after.inserted[key] == st.inserted[key] {
        assert PutNext(firsts, key, st.inserted[key]);
        PutNextMore(firsts, more, key, st.inserted[key]);
      } else {
        var j := |firsts| - 1;
        assert all[j].key == key && all[j + 1].key == after.inserted[key];
      }
    }
  }

  /** A record that shows something at the end of the chain and becomes its head. */
  lemma ShownInv(records: seq<Record>, k: nat, st: State, after: State, firsts: seq<Event>, more: seq<Event>)
    requires k < |records| && Inv(records, k, st, firsts) && Grew(records, k, st, after, firsts, more) && more != []
    requires records[k].uuid != "" && after.head == records[k].uuid
    requires after.keys == st.keys[records[k].uuid := more[|more| - 1].key]
    requires after.inserted == st.inserted ||
      (firsts != [] && |more| == 1 && after.inserted == st.inserted[firsts[|firsts| - 1].key := more[0].key])
    ensures Inv(records, k + 1, after, firsts + more)
  {
    GrewChain(records, k, st, after, firsts, more);
    GrewFirstsOk(records, k, st, after, firsts, more);
    KeysMore(records, k, st, after, firsts, more);
    InsertedMore(st, after, firsts, more);
    SeenHere(records, k);
    ShownLeads(records, k, after, firsts + more);
  }

  lemma ShownLeads(records: seq<Record>, k: nat, after: State, firsts: seq<Event>)
    requires k < |records| && firsts != [] && records[k].uuid != "" && after.head == records[k].uuid
    requires after.head in after.keys && after.keys[after.head] == firsts[|firsts| - 1].key
    ensures HeadLeads(records, k + 1, after, firsts)
  {
    assert Count(records, k + 1) >= 1;
    assert Find(Parents(records), after.keys, after.head, 1) == Some(firsts[|firsts| - 1].key);
    assert Links(after.inserted, firsts, |firsts| - 1);
  }

  // ---- Messages

  lemma {:induction false} BlocksShape(st: State, r: Record, base: Option<Key>, blocks: seq<Block>)
    requires r.uuid != "" && forall i :: 0 <= i < |blocks| ==> blocks[i].kind != Unknown
    ensures var after := EmitBlocks(st, r, base, blocks);
      && |after.events| == |st.events| + |blocks| && st.events <= after.events
      && (blocks != [] ==> after.events[|st.events|] == Event(BlockKey(blocks[0].kind, r.uuid, 0), base))
      && after.keys == st.keys && after.inserted == st.inserted && after.prompts == st.prompts && after.head == st.head
  {
    if blocks != [] {
      BlocksShape(st, r, base, blocks[..|blocks| - 1]);
    }
  }

  lemma {:induction false} BlocksPlace(st: State, r: Record, base: Option<Key>, blocks: seq<Block>, key: Key)
    requires r.uuid != ""
    ensures var after := EmitBlocks(st, r, base, blocks);
      && ((key.BlockKey? && key.uuid == r.uuid && key.index == 0 && blocks != [] && key.kind == blocks[0].kind
            && key.kind != Unknown) ==>
            key in after.parentOf && after.parentOf[key] == base)
      && (!(key.BlockKey? && key.uuid == r.uuid) ==> SamePlace(st, after, key))
  {
    if blocks != [] {
      BlocksPlace(st, r, base, blocks[..|blocks| - 1], key);
    }
  }

  /** The events a message puts on the chain. */
  function SaidFirsts(st: State, r: Record, tail: Option<Key>): seq<Event>
    requires r.body.Message? && r.body.blocks != []
  {
    var first := BlockKey(r.body.blocks[0].kind, r.uuid, 0);
    if r.body.role == Assistant && r.body.effort != "" && r.body.effort != st.effort then
      [Event(EffortKey(r.uuid), tail), Event(first, Some(EffortKey(r.uuid)))]
    else [Event(first, tail)]
  }

  ghost predicate Plain(r: Record) {
    r.body.Message? && r.uuid != "" && r.body.blocks != [] && forall i :: 0 <= i < |r.body.blocks| ==>
      r.body.blocks[i].kind != Unknown
  }

  lemma BegunShape(parents: map<string, string>, st: State, r: Record, tail: Option<Key>)
    requires Plain(r)
    requires var base := Resolve(parents, st, r.parent);
      var following := Following(parents, st, r, base);
      (if following.Some? then following else base) == tail
    ensures var (begun, base) := Begun(parents, st, r);
      var more := SaidFirsts(st, r, tail);
      && begun.events == st.events + more[..|more| - 1] && base == more[|more| - 1].parent
      && begun.keys == st.keys && begun.inserted == st.inserted && begun.prompts == st.prompts && begun.head == r.uuid
      && (|more| > 1 ==> EffortKey(r.uuid) in begun.parentOf && begun.parentOf[EffortKey(r.uuid)] == tail)
      && (forall key {:trigger SamePlace(st, begun, key)} :: key != EffortKey(r.uuid) ==> SamePlace(st, begun, key))
  {
  }

  lemma EndedShape(begun: State, shown: State, r: Record, following: Option<Key>)
    requires r.uuid != "" && |shown.events| > |begun.events|
    ensures var after, first := Ended(begun, shown, r, following), shown.events[|begun.events|].key;
      && after.events == shown.events && after.keys == shown.keys[r.uuid := first]
      && after.prompts == shown.prompts && after.head == shown.head && after.parentOf == shown.parentOf
  {
  }

  lemma OneMore(before: seq<Event>, begun: seq<Event>, shown: seq<Event>, more: seq<Event>)
    requires more != [] && begun == before + more[..|more| - 1] && begun <= shown && |shown| > |begun|
    requires shown[|begun|] == more[|more| - 1]
    ensures |before| + |more| <= |shown| && shown[..|before| + |more|] == before + more
  {
  }

  lemma SaidState(parents: map<string, string>, st: State, r: Record, tail: Option<Key>)
    requires Plain(r)
    requires var base := Resolve(parents, st, r.parent);
      var following := Following(parents, st, r, base);
      (if following.Some? then following else base) == tail
    ensures var after := Said(parents, st, r);
      var more := SaidFirsts(st, r, tail);
      && |st.events| + |more| <= |after.events| && after.events[..|st.events| + |more|] == st.events + more
      && after.keys == st.keys[r.uuid := more[|more| - 1].key] && after.prompts == st.prompts && after.head == r.uuid
  {
    var (begun, base) := Begun(parents, st, r);
    var more, shown := SaidFirsts(st, r, tail), EmitBlocks(begun, r, base, r.body.blocks);
    BegunShape(parents, st, r, tail);
    BlocksShape(begun, r, base, r.body.blocks);
    EndedShape(begun, shown, r, Following(parents, st, r, Resolve(parents, st, r.parent)));
    OneMore(st.events, begun.events, shown.events, more);
    assert Said(parents, st, r) == Ended(begun, shown, r, Following(parents, st, r, Resolve(parents, st, r.parent)));
  }

  lemma FirstsFound(st: State, after: State, r: Record, tail: Option<Key>)
    requires Plain(r)
    requires var more := SaidFirsts(st, r, tail);
      |st.events| + |more| <= |after.events| && after.events[..|st.events| + |more|] == st.events + more
    ensures NewFirsts(st, after, r) == SaidFirsts(st, r, tail)
  {
    var more, s := SaidFirsts(st, r, tail), |st.events|;
    assert after.events[s] == after.events[..s + |more|][s];
    assert |more| > 1 ==> after.events[s + 1] == after.events[..s + |more|][s + 1];
  }

  lemma SaidShape(parents: map<string, string>, st: State, r: Record, tail: Option<Key>)
    requires Plain(r)
    requires var base := Resolve(parents, st, r.parent);
      var following := Following(parents, st, r, base);
      (if following.Some? then following else base) == tail
    ensures var after := Said(parents, st, r);
      var more := SaidFirsts(st, r, tail);
      && NewFirsts(st, after, r) == more
      && after.keys == st.keys[r.uuid := more[|more| - 1].key] && after.prompts == st.prompts && after.head == r.uuid
  {
    SaidState(parents, st, r, tail);
    FirstsFound(st, Said(parents, st, r), r, tail);
  }

  lemma SaidInserted(parents: map<string, string>, st: State, r: Record, tail: Option<Key>)
    requires Plain(r)
    requires var base := Resolve(parents, st, r.parent);
      var following := Following(parents, st, r, base);
      && (if following.Some? then following else base) == tail
      && (following.Some? ==> r.body.role == User)
    ensures var after := Said(parents, st, r);
      var more := SaidFirsts(st, r, tail);
      after.inserted == st.inserted || (tail.Some? && |more| == 1 && after.inserted == st.inserted[tail.value := more[0].key])
  {
    var (begun, base) := Begun(parents, st, r);
    BegunShape(parents, st, r, tail);
    BlocksShape(begun, r, base, r.body.blocks);
  }

  lemma SaidPlace(parents: map<string, string>, st: State, r: Record, tail: Option<Key>, key: Key)
    requires Plain(r)
    requires var base := Resolve(parents, st, r.parent);
      var following := Following(parents, st, r, base);
      (if following.Some? then following else base) == tail
    ensures var after := Said(parents, st, r);
      var more := SaidFirsts(st, r, tail);
      && (forall j :: 0 <= j < |more| && more[j].key == key ==> Placed(after, more[j]))
      && (!(key.BlockKey? && key.uuid == r.uuid) && key != EffortKey(r.uuid) ==> SamePlace(st, after, key))
  {
    var (begun, base) := Begun(parents, st, r);
    BegunShape(parents, st, r, tail);
    BlocksPlace(begun, r, base, r.body.blocks, key);
    if key != EffortKey(r.uuid) {
      assert SamePlace(st, begun, key);
    }
  }

  lemma SaidAreNew(records: seq<Record>, k: nat, st: State, after: State, tail: Option<Key>)
    requires k < |records| && UniqueUuids(records) && Plain(records[k])
    ensures var more := SaidFirsts(st, records[k], tail);
      && (forall j {:trigger more[j]} :: 0 <= j < |more| ==>
        KeySeen(records, k + 1, after, more[j].key) && !KeySeen(records, k, st, more[j].key))
      && (forall i, j :: 0 <= i < j < |more| ==> more[i].key != more[j].key)
      && more[0].parent == tail && (|more| > 1 ==> |more| == 2 && more[1].parent == Some(more[0].key))
  {
    NotSeen(records, k);
    SeenHere(records, k);
  }

  lemma OldIsElsewhere(records: seq<Record>, k: nat, st: State, key: Key)
    requires k < |records| && UniqueUuids(records) && KeySeen(records, k, st, key)
    ensures !(key.BlockKey? && key.uuid == records[k].uuid) && key != EffortKey(records[k].uuid)
    ensures key != NoteKey(records[k].uuid)
  {
    NotSeen(records, k);
  }

  lemma {:induction false} SaidGrew(records: seq<Record>, k: nat, st: State, firsts: seq<Event>)
    requires k < |records| && UniqueUuids(records) && Plain(records[k])
    requires var r, parents := records[k], Parents(records);
      var base := Resolve(parents, st, r.parent);
      var following := Following(parents, st, r, base);
      (if following.Some? then following else base) == LastKey(firsts)
    ensures Grew(records, k, st, Said(Parents(records), st, records[k]), firsts, SaidFirsts(st, records[k], LastKey(firsts)))
  {
    var after, more := Said(Parents(records), st, records[k]), SaidFirsts(st, records[k], LastKey(firsts));
    SaidState(Parents(records), st, records[k], LastKey(firsts));
    SaidAreNew(records, k, st, after, LastKey(firsts));
    forall key | KeySeen(records, k, st, key)
      ensures SamePlace(st, after, key)
    {
      OldIsElsewhere(records, k, st, key);
      SaidPlace(Parents(records), st, records[k], LastKey(firsts), key);
    }
    forall j | 0 <= j < |more|
      ensures Placed(after, more[j])
    {
      SaidPlace(Parents(records), st, records[k], LastKey(firsts), more[j].key);
    }
    SomeGrew(records, k, st, after, firsts, more);
  }

  lemma SomeGrew(records: seq<Record>, k: nat, st: State, after: State, firsts: seq<Event>, more: seq<Event>)
    requires k < |records| && st.prompts <= after.prompts
    requires forall key {:trigger SamePlace(st, after, key)} :: KeySeen(records, k, st, key) ==>
      SamePlace(st, after, key)
    requires forall j {:trigger more[j]} :: 0 <= j < |more| ==>
      KeySeen(records, k + 1, after, more[j].key) && !KeySeen(records, k, st, more[j].key) && Placed(after, more[j])
    requires forall i, j :: 0 <= i < j < |more| ==> more[i].key != more[j].key
    requires more != [] ==> more[0].parent == LastKey(firsts)
    requires |more| > 1 ==> |more| == 2 && more[1].parent == Some(more[0].key)
    ensures Grew(records, k, st, after, firsts, more)
  {
  }

  /** The chain grows by what the message shows first. */
  lemma {:induction false} SaidInv(records: seq<Record>, k: nat, st: State, firsts: seq<Event>)
    requires k < |records| && UniqueUuids(records) && Inv(records, k, st, firsts)
    requires Count(records, k) <= |Parents(records)|
    requires records[k].body.Message? && InLine(Parents(records), st, firsts, records[k])
    ensures var after := Said(Parents(records), st, records[k]);
      Inv(records, k + 1, after, firsts + NewFirsts(st, after, records[k]))
  {
    var r, parents := records[k], Parents(records);
    ParentIsLast(records, k, st, firsts, r);
    SaidShape(parents, st, r, LastKey(firsts));
    SaidInserted(parents, st, r, LastKey(firsts));
    SaidGrew(records, k, st, firsts);
    ShownInv(records, k, st, Said(parents, st, r), firsts, SaidFirsts(st, r, LastKey(firsts)));
  }

  // ---- Notes, prompts and silent records

  lemma NotedShape(parents: map<string, string>, st: State, r: Record)
    requires r.body.Note? && r.uuid != ""
    ensures var after := Noted(parents, st, r);
      var more := [Event(NoteKey(r.uuid), Resolve(parents, st, r.parent))];
      && after.events == st.events + more && NewFirsts(st, after, r) == more
      && after.keys == st.keys[r.uuid := NoteKey(r.uuid)] && after.inserted == st.inserted &&
        after.prompts == st.prompts && after.head == r.uuid
      && after.parentOf == st.parentOf[NoteKey(r.uuid) := Resolve(parents, st, r.parent)]
  {
  }

  lemma NotedGrew(records: seq<Record>, k: nat, st: State, after: State, firsts: seq<Event>)
    requires k < |records| && UniqueUuids(records) && records[k].uuid != ""
    requires after.prompts == st.prompts && after.parentOf == st.parentOf[NoteKey(records[k].uuid) := LastKey(firsts)]
    ensures Grew(records, k, st, after, firsts, [Event(NoteKey(records[k].uuid), LastKey(firsts))])
  {
    NotSeen(records, k);
    SeenHere(records, k);
    forall key | KeySeen(records, k, st, key)
      ensures SamePlace(st, after, key)
    {
      OldIsElsewhere(records, k, st, key);
    }
  }

  lemma {:induction false} NotedInv(records: seq<Record>, k: nat, st: State, firsts: seq<Event>)
    requires k < |records| && UniqueUuids(records) && Inv(records, k, st, firsts)
    requires Count(records, k) <= |Parents(records)|
    requires records[k].body.Note? && InLine(Parents(records), st, firsts, records[k])
    ensures var after := Noted(Parents(records), st, records[k]);
      Inv(records, k + 1, after, firsts + NewFirsts(st, after, records[k]))
  {
    var after := Noted(Parents(records), st, records[k]);
    HeadResolves(records, k, st, firsts);
    NotedShape(Parents(records), st, records[k]);
    NotedGrew(records, k, st, after, firsts);
    ShownInv(records, k, st, after, firsts, [Event(NoteKey(records[k].uuid), LastKey(firsts))]);
  }

  lemma {:induction false} ParentsHave(records: seq<Record>, k: nat, m: nat)
    requires UniqueUuids(records) && k < m <= |records| && records[k].uuid != ""
    ensures records[k].uuid in Parents(records[..m]) && Parents(records[..m])[records[k].uuid] == records[k].parent
  {
    assert records[..m][..m - 1] == records[..m - 1];
    if k < m - 1 {
      ParentsHave(records, k, m - 1);
    }
  }

  lemma {:induction false} CountIs(records: seq<Record>, k: nat)
    requires UniqueUuids(records) && k <= |records|
    ensures Count(records, k) == |Parents(records[..k])|
  {
    if k > 0 {
      var u := records[k - 1].uuid;
      assert records[..k][..k - 1] == records[..k - 1];
      CountIs(records, k - 1);
      if u != "" && u in Parents(records[..k - 1]) {
        ParentsFrom(records, k - 1, u);
      }
      assert u != "" ==> Parents(records[..k]).Keys == Parents(records[..k - 1]).Keys + {u};
      assert forall m: map<string, string> :: |m.Keys| == |m|;
    }
  }

  lemma {:induction false} CountGrows(records: seq<Record>, k: nat, m: nat)
    requires k <= m <= |records|
    ensures Count(records, k) <= Count(records, m)
    decreases m
  {
    if k < m {
      CountGrows(records, k, m - 1);
    }
  }

  lemma {:induction false} CountFits(records: seq<Record>, k: nat)
    requires UniqueUuids(records) && k <= |records|
    ensures Count(records, k) <= |Parents(records)|
  {
    CountGrows(records, k, |records|);
    CountIs(records, |records|);
    assert records[..|records|] == records;
  }

  lemma HeadedLeads(records: seq<Record>, k: nat, st: State, firsts: seq<Event>)
    requires k < |records| && UniqueUuids(records) && KeysOk(records, k, st, firsts)
    requires HeadLeads(records, k, st, firsts)
    requires records[k].uuid != "" ==> records[k].parent == st.head
    ensures HeadLeads(records, k + 1, Headed(st, records[k]), firsts)
  {
    var r, parents := records[k], Parents(records);
    var s: nat, i: nat :| s <= Count(records, k) && i < |firsts| &&
      Find(parents, st.keys, st.head, s) == Some(firsts[i].key) && Links(st.inserted, firsts, i);
    if r.uuid != "" {
      NotSeen(records, k);
      assert r.uuid !in st.keys;
      assert records[..|records|] == records;
      ParentsHave(records, k, |records|);
      assert Find(parents, st.keys, r.uuid, s + 1) == Find(parents, st.keys, st.head, s);
    } else {
      assert Find(parents, st.keys, Headed(st, r).head, s) == Some(firsts[i].key);
    }
  }

  lemma KeysLater(records: seq<Record>, k: nat, st: State, after: State, firsts: seq<Event>, more: seq<Event>)
    requires k < |records| && KeysOk(records, k, st, firsts) && after.keys == st.keys
    ensures KeysOk(records, k + 1, after, firsts + more)
  {
    forall u | u in after.keys && u != ""
      ensures Seen(records, k + 1, u) && OnChain(firsts + more, after.keys[u])
    {
      assert Seen(records, k, u) && OnChain(firsts, st.keys[u]);
      SeenMore(records, k, u);
      OnChainMore(firsts, more, st.keys[u]);
    }
  }

  /** A record that shows nothing only becomes the head. */
  lemma HeadedInv(records: seq<Record>, k: nat, st: State, firsts: seq<Event>)
    requires k < |records| && UniqueUuids(records) && Inv(records, k, st, firsts)
    requires records[k].uuid != "" ==> records[k].parent == st.head
    ensures Inv(records, k + 1, Headed(st, records[k]), firsts)
  {
    var after := Headed(st, records[k]);
    assert firsts + [] == firsts;
    assert Grew(records, k, st, after, firsts, []);
    GrewFirstsOk(records, k, st, after, firsts, []);
    KeysLater(records, k, st, after, firsts, []);
    if firsts != [] {
      HeadedLeads(records, k, st, firsts);
    }
    if records[k].uuid != "" {
      SeenHere(records, k);
    } else if st.head != "" {
      SeenMore(records, k, st.head);
    }
  }

  lemma PromptGrew(records: seq<Record>, k: nat, st: State, after: State, firsts: seq<Event>, hash: string)
    requires k < |records| && hash !in st.prompts
    requires after.prompts == st.prompts + {hash} && after.parentOf == st.parentOf[PromptKey(hash) := LastKey(firsts)]
    ensures Grew(records, k, st, after, firsts, [Event(PromptKey(hash), LastKey(firsts))])
  {
  }

  lemma PromptShape(st: State, hash: string, parent: Option<Key>)
    ensures var after := WithPrompt(st, hash, parent);
      && after.events == st.events + [Event(PromptKey(hash), parent)]
      && after.keys == st.keys && after.prompts == st.prompts + {hash} && after.head == st.head
      && after.parentOf == st.parentOf[PromptKey(hash) := parent]
      && after.inserted == (if parent.Some? then st.inserted[parent.value := PromptKey(hash)] else st.inserted)
  {
  }

  lemma PromptLeads(records: seq<Record>, k: nat, st: State, after: State, firsts: seq<Event>, e: Event)
    requires k <= |records| && HeadLeads(records, k, st, firsts)
    requires after.keys == st.keys && after.head == st.head
    requires after.inserted == st.inserted[firsts[|firsts| - 1].key := e.key]
    ensures HeadLeads(records, k, after, firsts + [e])
  {
    var s: nat, i: nat :| s <= Count(records, k) && i < |firsts| &&
      Find(Parents(records), st.keys, st.head, s) == Some(firsts[i].key) && Links(st.inserted, firsts, i);
    var all := firsts + [e];
    assert Find(Parents(records), after.keys, after.head, s) == Some(all[i].key);
    forall j | i <= j < |all| - 1
      ensures all[j].key in after.inserted
    {
      if j < |firsts| - 1 {
        assert firsts[j].key in st.inserted;
      }
    }
    assert Links(after.inserted, all, i);
  }

  lemma PromptedShape(parents: map<string, string>, st: State, r: Record)
    requires r.body.Prompt?
    ensures var headed, after := Headed(st, r), Prompted(parents, st, r);
      var parent := Resolve(parents, headed, headed.head);
      if r.body.hash in st.prompts then after == headed && NewFirsts(st, after, r) == []
      else after == WithPrompt(headed, r.body.hash, parent) && NewFirsts(st, after, r) == [Event(PromptKey(r.body.hash), parent)]
  {
    PromptShape(Headed(st, r), r.body.hash, Resolve(parents, Headed(st, r), Headed(st, r).head));
  }

  lemma {:induction false} PromptParent(records: seq<Record>, k: nat, st: State, firsts: seq<Event>)
    requires k < |records| && UniqueUuids(records) && Inv(records, k, st, firsts)
    requires records[k].uuid != "" ==> records[k].parent == st.head
    ensures var headed := Headed(st, records[k]);
      Inv(records, k + 1, headed, firsts) && Resolve(Parents(records), headed, headed.head) == LastKey(firsts)
  {
    HeadedInv(records, k, st, firsts);
    CountFits(records, k + 1);
    HeadResolves(records, k + 1, Headed(st, records[k]), firsts);
  }

  lemma {:induction false} PromptedInv(records: seq<Record>, k: nat, st: State, firsts: seq<Event>)
    requires k < |records| && UniqueUuids(records) && Inv(records, k, st, firsts)
    requires records[k].body.Prompt? && (records[k].uuid != "" ==> records[k].parent == st.head)
    requires records[k].body.hash !in st.prompts ==> firsts != []
    ensures var after := Prompted(Parents(records), st, records[k]);
      Inv(records, k + 1, after, firsts + NewFirsts(st, after, records[k]))
  {
    var hash, headed := records[k].body.hash, Headed(st, records[k]);
    PromptParent(records, k, st, firsts);
    PromptedShape(Parents(records), st, records[k]);
    if hash in st.prompts {
      assert firsts + [] == firsts;
    } else {
      PromptInv(records, k, st, headed, WithPrompt(headed, hash, LastKey(firsts)), firsts, hash);
    }
  }

  lemma PromptInv(records: seq<Record>, k: nat, st: State, headed: State, after: State, firsts: seq<Event>,
      hash: string)
    requires k < |records| && Inv(records, k, st, firsts) && Inv(records, k + 1, headed, firsts) && firsts != []
    requires hash !in st.prompts
    requires headed == Headed(st, records[k]) && after == WithPrompt(headed, hash, LastKey(firsts))
    ensures Inv(records, k + 1, after, firsts + [Event(PromptKey(hash), LastKey(firsts))])
  {
    var e := Event(PromptKey(hash), LastKey(firsts));
    PromptShape(headed, hash, LastKey(firsts));
    PromptGrew(records, k, st, after, firsts, hash);
    GrewChain(records, k, st, after, firsts, [e]);
    GrewFirstsOk(records, k, st, after, firsts, [e]);
    KeysLater(records, k, st, after, firsts, [e]);
    InsertedMore(st, after, firsts, [e]);
    PromptLeads(records, k + 1, headed, after, firsts, e);
  }

  lemma {:induction false} StepInv(records: seq<Record>, k: nat, st: State, firsts: seq<Event>)
    requires k < |records| && UniqueUuids(records) && Inv(records, k, st, firsts)
    requires InLine(Parents(records), st, firsts, records[k])
    ensures var after := Step(Parents(records), st, records[k]);
      Inv(records, k + 1, after, firsts + NewFirsts(st, after, records[k]))
  {
    CountFits(records, k);
    match records[k].body
    case Silent =>
      HeadedInv(records, k, st, firsts);
      assert firsts + [] == firsts;
    case Note(_) => NotedInv(records, k, st, firsts);
    case Prompt(_) => PromptedInv(records, k, st, firsts);
    case Message(_, _, _) => SaidInv(records, k, st, firsts);
  }

  lemma {:induction false} RunInv(records: seq<Record>, k: nat)
    requires UniqueUuids(records) && AllInLine(records) && k <= |records|
    ensures Inv(records, k, Run(Parents(records), records[..k]), Firsts(Parents(records), records[..k]))
  {
    if k > 0 {
      RunInv(records, k - 1);
      assert InLineAt(records, k - 1);
      InvMore(records, k - 1);
    }
  }

  // ---- The chain

  lemma InLineParents(records: seq<Record>)
    requires UniqueUuids(records) && AllInLine(records)
    ensures ParentsBefore(records)
  {
    forall i, j | 0 <= i < |records| && 0 <= j < |records| && Linked(records[i]) && records[i].parent != "" &&
      records[j].uuid == records[i].parent
      ensures j < i
    {
      RunInv(records, i);
      assert InLineAt(records, i);
      var st := Run(Parents(records), records[..i]);
      assert records[i].parent in st.keys ==> Seen(records, i, records[i].parent);
      assert Seen(records, i, records[i].parent);
    }
  }

  lemma {:induction false} CompletedSame(records: seq<Record>)
    requires UniqueUuids(records) && ParentsBefore(records)
    ensures Completed(Parents(records), Run(Parents(records), records)) == Run(Parents(records), records).events
  {
    assert records[..|records|] == records;
    LateStaysNone(records, |records|);
  }

  lemma {:induction false} FirstsAreEvents(parents: map<string, string>, records: seq<Record>, e: Event)
    requires e in Firsts(parents, records)
    ensures e in Run(parents, records).events
  {
    var front, r := records[..|records| - 1], records[|records| - 1];
    if e in Firsts(parents, front) {
      FirstsAreEvents(parents, front, e);
      StepGrows(parents, Run(parents, front), r);
    }
  }

  lemma {:induction false} BlocksGrow(st: State, r: Record, base: Option<Key>, blocks: seq<Block>)
    ensures st.events <= EmitBlocks(st, r, base, blocks).events
  {
    if blocks != [] {
      BlocksGrow(st, r, base, blocks[..|blocks| - 1]);
    }
  }

  lemma StepGrows(parents: map<string, string>, st: State, r: Record)
    ensures st.events <= Step(parents, st, r).events
  {
    match r.body
    case Silent =>
    case Note(_) => NotedLate(parents, st, r);
    case Prompt(_) => PromptedLate(parents, st, r);
    case Message(_, _, _) =>
      var (begun, base) := Begun(parents, st, r);
      BegunIs(parents, st, r);
      BlocksGrow(begun, r, base, r.body.blocks);
      SaidIs(parents, st, r);
  }

  /** When every record is in line, the first events of the records that show something form one
      chain in the result, however many tools ran in parallel. */
  lemma {:induction false} OneChain(records: seq<Record>)
    requires UniqueUuids(records) && AllInLine(records)
    ensures Chain(Firsts(Parents(records), records))
    ensures forall e :: e in Firsts(Parents(records), records) ==>
      e in Completed(Parents(records), Run(Parents(records), records))
  {
    assert records[..|records|] == records;
    RunInv(records, |records|);
    InLineParents(records);
    CompletedSame(records);
    forall e | e in Firsts(Parents(records), records) {
      FirstsAreEvents(Parents(records), records, e);
    }
  }

  // ---- A prompt that comes first

  lemma {:induction false} SpokenShows(records: seq<Record>, k: nat)
    requires UniqueUuids(records) && k < |records| && Spoken(records[k])
    requires Inv(records, k, Run(Parents(records), records[..k]), Firsts(Parents(records), records[..k]))
    requires FollowsAtRecord(records, k)
    ensures Firsts(Parents(records), records[..k + 1]) != []
  {
    var parents, st, r := Parents(records), Run(Parents(records), records[..k]), records[k];
    assert records[..k + 1][..k] == records[..k];
    CountFits(records, k);
    if r.body.Note? {
      NotedShape(parents, st, r);
    } else {
      ParentIsLast(records, k, st, Firsts(parents, records[..k]), r);
      SaidShape(parents, st, r, LastKey(Firsts(parents, records[..k])));
    }
  }

  lemma {:induction false} FirstsPrefix(parents: map<string, string>, records: seq<Record>, k: nat, m: nat)
    requires k <= m <= |records|
    ensures Firsts(parents, records[..k]) <= Firsts(parents, records[..m])
    decreases m
  {
    if k < m {
      assert records[..m][..m - 1] == records[..m - 1];
      FirstsPrefix(parents, records, k, m - 1);
    }
  }

  /** Something spoken among the first k records is on the chain. */
  ghost predicate Opened(records: seq<Record>, k: nat)
    requires k <= |records|
  {
    (exists i :: 0 <= i < k && Spoken(records[i])) ==> Firsts(Parents(records), records[..k]) != []
  }

  lemma InLineHere(records: seq<Record>, k: nat)
    requires k < |records| && FollowsAtRecord(records, k) && !PromptFirst(records) && Opened(records, k)
    ensures InLineAt(records, k)
  {
  }

  lemma {:induction false} OpenedMore(records: seq<Record>, k: nat)
    requires UniqueUuids(records) && k < |records| && Opened(records, k) && FollowsAtRecord(records, k)
    requires Inv(records, k, Run(Parents(records), records[..k]), Firsts(Parents(records), records[..k]))
    ensures Opened(records, k + 1)
  {
    FirstsPrefix(Parents(records), records, k, k + 1);
    if Spoken(records[k]) {
      SpokenShows(records, k);
    }
  }

  lemma {:induction false} InvMore(records: seq<Record>, k: nat)
    requires UniqueUuids(records) && k < |records| && InLineAt(records, k)
    requires Inv(records, k, Run(Parents(records), records[..k]), Firsts(Parents(records), records[..k]))
    ensures Inv(records, k + 1, Run(Parents(records), records[..k + 1]), Firsts(Parents(records), records[..k + 1]))
  {
    assert records[..k + 1][..k] == records[..k];
    StepInv(records, k, Run(Parents(records), records[..k]), Firsts(Parents(records), records[..k]));
  }

  lemma {:induction false} LineMore(records: seq<Record>, k: nat)
    requires UniqueUuids(records) && k < |records| && FollowsAtRecord(records, k) && !PromptFirst(records)
    requires Opened(records, k)
    requires Inv(records, k, Run(Parents(records), records[..k]), Firsts(Parents(records), records[..k]))
    ensures Inv(records, k + 1, Run(Parents(records), records[..k + 1]), Firsts(Parents(records), records[..k + 1]))
  {
    InLineHere(records, k);
    InvMore(records, k);
  }

  /** Without a prompt first, following is being in line. */
  lemma {:induction false} FollowingInLine(records: seq<Record>, k: nat)
    requires UniqueUuids(records) && AllFollow(records) && !PromptFirst(records) && k <= |records|
    ensures Inv(records, k, Run(Parents(records), records[..k]), Firsts(Parents(records), records[..k]))
    ensures Opened(records, k)
  {
    if k == 0 {
      NothingYet(records);
    } else {
      var i := k - 1;
      FollowingInLine(records, i);
      assert FollowsAtRecord(records, i);
      LineMore(records, i);
      OpenedMore(records, i);
    }
  }

  lemma {:induction false} NothingYet(records: seq<Record>)
    ensures Inv(records, 0, Run(Parents(records), records[..0]), Firsts(Parents(records), records[..0]))
    ensures Opened(records, 0)
  {
  }

  lemma QuietStep(parents: map<string, string>, st: State, r: Record)
    requires !Spoken(r) && st.keys == map[]
    ensures Step(parents, st, r).keys == map[]
    ensures r.body.Prompt? && r.body.hash !in st.prompts ==>
      NewFirsts(st, Step(parents, st, r), r) == [Event(PromptKey(r.body.hash), None)]
    ensures r.body.Prompt? ==> Step(parents, st, r).prompts == st.prompts + {r.body.hash}
    ensures r.body.Silent? ==> Step(parents, st, r).prompts == st.prompts
  {
    if r.body.Prompt? {
      var headed := Headed(st, r);
      FindNone(parents, headed.keys, headed.head, |parents| + 1);
      PromptedShape(parents, st, r);
      PromptShape(headed, r.body.hash, None);
    }
  }

  /** Before anything is spoken nothing can be pointed at, and any prompt has been shown. */
  lemma {:induction false} QuietRun(records: seq<Record>, m: nat)
    requires m <= |records| && forall i :: 0 <= i < m ==> !Spoken(records[i])
    ensures Run(Parents(records), records[..m]).keys == map[]
    ensures Firsts(Parents(records), records[..m]) == [] ==> Run(Parents(records), records[..m]).prompts == {}
    ensures (exists i :: 0 <= i < m && records[i].body.Prompt?) ==> Firsts(Parents(records), records[..m]) != []
  {
    if m > 0 {
      QuietRun(records, m - 1);
      assert records[..m][..m - 1] == records[..m - 1];
      QuietStep(Parents(records), Run(Parents(records), records[..m - 1]), records[m - 1]);
    }
  }

  lemma FirstSpoken(records: seq<Record>) returns (m: nat)
    requires exists i :: 0 <= i < |records| && Spoken(records[i])
    ensures m < |records| && Spoken(records[m]) && forall i :: 0 <= i < m ==> !Spoken(records[i])
  {
    m := 0;
    while !Spoken(records[m])
      invariant m < |records| && forall i :: 0 <= i < m ==> !Spoken(records[i])
      decreases |records| - m
    {
      m := m + 1;
    }
  }

  lemma {:induction false} SpokenAlone(records: seq<Record>, m: nat)
    requires m < |records| && Spoken(records[m]) && FollowsAtRecord(records, m)
    requires Run(Parents(records), records[..m]).keys == map[]
    ensures var st := Run(Parents(records), records[..m]);
      var new_ := NewFirsts(st, Step(Parents(records), st, records[m]), records[m]);
      new_ != [] && new_[0].parent == None
  {
    var parents, st, r := Parents(records), Run(Parents(records), records[..m]), records[m];
    FindNone(parents, st.keys, r.parent, |parents| + 1);
    if r.body.Note? {
      NotedShape(parents, st, r);
    } else {
      SaidShape(parents, st, r, None);
    }
  }

  /** A prompt that comes first leaves two events without a parent. */
  lemma {:induction false} PromptFirstForks(records: seq<Record>)
    requires AllFollow(records) && PromptFirst(records) && exists i :: 0 <= i < |records| && Spoken(records[i])
    ensures !Chain(Firsts(Parents(records), records))
  {
    var parents := Parents(records);
    var m := FirstSpoken(records);
    var k :| 0 <= k < |records| && records[k].body.Prompt? && forall i :: 0 <= i < k ==> !Spoken(records[i]);
    assert k < m;
    QuietRun(records, m);
    assert FollowsAtRecord(records, m);
    SpokenAlone(records, m);
    assert records[..m + 1][..m] == records[..m] && records[..|records|] == records;
    FirstsPrefix(parents, records, m + 1, |records|);
    var j := |Firsts(parents, records[..m])|;
    assert Firsts(parents, records)[j] == Firsts(parents, records[..m + 1])[j];
    assert Firsts(parents, records)[j].parent == None;
    assert !FollowsAt(Firsts(parents, records), j);
  }

  /** Where records follow one another, tool results answer near calls and all content is known, the
      first events form one chain exactly when no system prompt comes before the first message. */
  lemma {:induction false} ChainExactly(records: seq<Record>)
    requires UniqueUuids(records) && AllFollow(records) && exists i :: 0 <= i < |records| && Spoken(records[i])
    ensures Chain(Firsts(Parents(records), records)) <==> !PromptFirst(records)
  {
    if PromptFirst(records) {
      PromptFirstForks(records);
    } else {
      FollowingInLine(records, |records|);
      assert records[..|records|] == records;
    }
  }
}
