/** Keys of Amp blocks, and why they survive into later exports of the thread. */
module Amp {
  import SG = SessionGroups

  datatype BlockKind = Said | Reasoning | Compaction | Call | Answer | Media | Other

  /** id is the block's own id, or for a result without one the id of its call. */
  datatype Block = Block(kind: BlockKind, id: string, digest: nat)

  /** id is protocolMessageID, or else the message's position. */
  datatype Message = Message(id: string, blocks: seq<Block>)

  datatype Key = Native(kind: BlockKind, id: string) | Hashed(kind: BlockKind, digest: nat)

  // ---- Keys

  function IndexedId(id: string, index: nat): string {
    if id == "" then "" else id + ":" + SG.Decimal(index)
  }

  function NativeKey(kind: BlockKind, id: string, digest: nat): Key {
    if id != "" then Native(kind, id) else Hashed(kind, digest)
  }

  /** Earlier blocks of the same kind in the message. */
  function Ordinal(blocks: seq<Block>, kind: BlockKind): nat {
    if blocks == [] then 0 else Ordinal(blocks[..|blocks| - 1], kind) + (if blocks[|blocks| - 1].kind == kind then 1 else 0)
  }

  /** A block without an id, or with one whose key is taken, is numbered per kind. */
  function KeyFor(m: Message, j: nat, seen: set<Key>): Key
    requires j < |m.blocks|
  {
    var b := m.blocks[j];
    var id := if b.id == "" || Native(b.kind, b.id) in seen then IndexedId(m.id, Ordinal(m.blocks[..j], b.kind)) else b.id;
    NativeKey(b.kind, id, b.digest)
  }

  /** The keys of the first j blocks of a message. */
  function MessageKeys(m: Message, j: nat, seen: set<Key>): seq<Key>
    requires j <= |m.blocks|
  {
    if j == 0 then []
    else
      var before := MessageKeys(m, j - 1, seen);
      before + [KeyFor(m, j - 1, seen + Set(before))]
  }

  function Set(keys: seq<Key>): set<Key> {
    set k | k in keys
  }

  function AllKeys(messages: seq<Message>): seq<seq<Key>> {
    if messages == [] then []
    else
      var before := AllKeys(messages[..|messages| - 1]);
      var last := messages[|messages| - 1];
      before + [MessageKeys(last, |last.blocks|, Seen(before))]
  }

  function Seen(keys: seq<seq<Key>>): set<Key> {
    if keys == [] then {} else Seen(keys[..|keys| - 1]) + Set(keys[|keys| - 1])
  }

  lemma SetSnoc(keys: seq<Key>, key: Key)
    ensures Set(keys + [key]) == Set(keys) + {key}
  {
  }

  function Of(ordinals: map<BlockKind, nat>, kind: BlockKind): nat {
    if kind in ordinals then ordinals[kind] else 0
  }

  ghost predicate Counts(blocks: seq<Block>, ordinals: map<BlockKind, nat>) {
    forall kind :: Of(ordinals, kind) == Ordinal(blocks, kind)
  }

  lemma CountsMore(blocks: seq<Block>, ordinals: map<BlockKind, nat>, b: Block)
    requires Counts(blocks, ordinals)
    ensures Counts(blocks + [b], ordinals[b.kind := Of(ordinals, b.kind) + 1])
  {
    forall kind
      ensures Of(ordinals[b.kind := Of(ordinals, b.kind) + 1], kind) == Ordinal(blocks + [b], kind)
    {
      OrdinalSnoc(blocks, b, kind);
      assert Of(ordinals, kind) == Ordinal(blocks, kind);
    }
  }

  lemma {:induction false} OrdinalSnoc(blocks: seq<Block>, b: Block, kind: BlockKind)
    ensures Ordinal(blocks + [b], kind) == Ordinal(blocks, kind) + (if b.kind == kind then 1 else 0)
  {
    assert (blocks + [b])[..|blocks|] == blocks;
  }

  lemma AlsoSeen(seen: set<Key>, before: seq<Key>, key: Key)
    ensures seen + Set(before) + {key} == seen + Set(before + [key])
  {
    SetSnoc(before, key);
  }

  ghost predicate Turn(m: Message, j: nat, seen: set<Key>, keys: seq<Key>, seenKeys: set<Key>,
      ordinals: map<BlockKind, nat>)
  {
    j <= |m.blocks| && keys == MessageKeys(m, j, seen) && seenKeys == seen + Set(keys) && Counts(m.blocks[..j], ordinals)
  }

  lemma TurnMore(m: Message, j: nat, seen: set<Key>, keys: seq<Key>, seenKeys: set<Key>, ordinals: map<BlockKind, nat>)
    requires j < |m.blocks| && Turn(m, j, seen, keys, seenKeys, ordinals)
    ensures var key := KeyFor(m, j, seenKeys);
      Turn(m, j + 1, seen, keys + [key], seenKeys + {key}, ordinals[m.blocks[j].kind := Of(ordinals, m.blocks[j].kind) + 1])
  {
    CountsMore(m.blocks[..j], ordinals, m.blocks[j]);
    assert m.blocks[..j + 1] == m.blocks[..j] + [m.blocks[j]];
    AlsoSeen(seen, keys, KeyFor(m, j, seenKeys));
  }

  /** The loop over a message's blocks, with its ordinals and the keys seen so far. */
  method NormalizeMessage(m: Message, seen: set<Key>) returns (keys: seq<Key>, seenKeys: set<Key>)
    ensures keys == MessageKeys(m, |m.blocks|, seen) && seenKeys == seen + Set(keys)
  {
    keys, seenKeys := [], seen;
    var ordinals: map<BlockKind, nat> := map[];
    var j := 0;
    while j < |m.blocks|
      invariant Turn(m, j, seen, keys, seenKeys, ordinals)
    {
      TurnMore(m, j, seen, keys, seenKeys, ordinals);
      var b := m.blocks[j];
      var ordinal := Of(ordinals, b.kind);
      assert ordinal == Ordinal(m.blocks[..j], b.kind);
      var id := b.id;
      if id == "" || Native(b.kind, id) in seenKeys {
        id := IndexedId(m.id, ordinal);
      }
      ordinals := ordinals[b.kind := ordinal + 1];
      var key := NativeKey(b.kind, id, b.digest);
      keys, seenKeys := keys + [key], seenKeys + {key};
      j := j + 1;
    }
  }

  method NormalizeAmp(messages: seq<Message>) returns (keys: seq<seq<Key>>)
    ensures keys == AllKeys(messages)
  {
    keys := [];
    var seenKeys: set<Key> := {};
    var i := 0;
    while i < |messages|
      invariant 0 <= i <= |messages| && keys == AllKeys(messages[..i]) && seenKeys == Seen(keys)
    {
      assert messages[..i + 1][..i] == messages[..i];
      var more;
      more, seenKeys := NormalizeMessage(messages[i], seenKeys);
      assert (keys + [more])[..|keys|] == keys;
      keys := keys + [more];
      i := i + 1;
    }
    assert messages[..i] == messages;
  }

  // ---- Numbered ids are told apart

  lemma {:induction false} DecimalIsDigits(n: nat)
    ensures SG.Decimal(n) != "" && forall k :: 0 <= k < |SG.Decimal(n)| ==> SG.Digit(SG.Decimal(n)[k])
  {
    if n >= 10 {
      DecimalIsDigits(n / 10);
    }
  }

  lemma {:induction false} DecimalOnce(m: nat, n: nat)
    requires SG.Decimal(m) == SG.Decimal(n)
    ensures m == n
    decreases m
  {
    if m >= 10 {
      DecimalIsDigits(m / 10);
    }
    if n >= 10 {
      DecimalIsDigits(n / 10);
    }
    assert SG.Decimal(m)[|SG.Decimal(m)| - 1] == SG.Decimal(n)[|SG.Decimal(n)| - 1];
    assert m % 10 == n % 10;
    if m >= 10 && n >= 10 {
      assert SG.Decimal(m)[..|SG.Decimal(m)| - 1] == SG.Decimal(m / 10);
      assert SG.Decimal(n)[..|SG.Decimal(n)| - 1] == SG.Decimal(n / 10);
      DecimalOnce(m / 10, n / 10);
    }
  }

  lemma ColonSplits(a: string, x: string, b: string, y: string)
    requires a + ":" + x == b + ":" + y
    requires (forall k :: 0 <= k < |x| ==> SG.Digit(x[k])) && forall k :: 0 <= k < |y| ==> SG.Digit(y[k])
    ensures a == b && x == y
  {
    var s := a + ":" + x;
    assert s[|a|] == ':' && s[|b|] == ':';
    assert forall k :: |a| < k < |s| ==> s[k] == x[k - |a| - 1];
    assert forall k :: |b| < k < |s| ==> s[k] == y[k - |b| - 1];
    assert |a| == |b|;
    assert a == s[..|a|] && b == s[..|b|];
    assert x == s[|a| + 1..] && y == s[|b| + 1..];
  }

  lemma IndexedOnce(a: string, m: nat, b: string, n: nat)
    requires a != "" && b != "" && IndexedId(a, m) == IndexedId(b, n)
    ensures a == b && m == n
  {
    DecimalIsDigits(m);
    DecimalIsDigits(n);
    ColonSplits(a, SG.Decimal(m), b, SG.Decimal(n));
    DecimalOnce(m, n);
  }

  // ---- Exports with unique ids

  predicate At(messages: seq<Message>, i: nat, j: nat) {
    i < |messages| && j < |messages[i].blocks|
  }

  predicate Before(k: nat, l: nat, i: nat, j: nat) {
    k < i || (k == i && l < j)
  }

  /** A block's number of its kind, under its message's id. */
  function Number(messages: seq<Message>, i: nat, j: nat): string
    requires At(messages, i, j)
  {
    IndexedId(messages[i].id, Ordinal(messages[i].blocks[..j], messages[i].blocks[j].kind))
  }

  predicate BlocksApart(a: Block, b: Block) {
    a.id != "" && a.kind == b.kind ==> a.id != b.id
  }

  /** Protocol message ids are unique, and so are the ids of blocks of one kind. */
  ghost predicate Unique(messages: seq<Message>) {
    && (forall i :: 0 <= i < |messages| ==> messages[i].id != "")
    && (forall i, k :: 0 <= i < k < |messages| ==> messages[i].id != messages[k].id)
    && (forall i: nat, j: nat, k: nat, l: nat {:trigger At(messages, i, j), At(messages, k, l)} ::
      At(messages, i, j) && At(messages, k, l) && (i, j) != (k, l) ==>
        BlocksApart(messages[i].blocks[j], messages[k].blocks[l]))
  }

  /** Block (k, l) is numbered with the id of block (i, j). */
  predicate Takes(messages: seq<Message>, k: nat, l: nat, i: nat, j: nat) {
    && At(messages, k, l) && At(messages, i, j) && Before(k, l, i, j)
    && messages[k].blocks[l].kind == messages[i].blocks[j].kind && Number(messages, k, l) == messages[i].blocks[j].id
  }

  /** A block is numbered when it has no id, or when an earlier numbered block takes its id. */
  ghost predicate Numbered(messages: seq<Message>, i: nat, j: nat)
    requires At(messages, i, j)
    decreases i, j
  {
    messages[i].blocks[j].id == "" || exists k: nat, l: nat :: Takes(messages, k, l, i, j) && Numbered(messages, k, l)
  }

  ghost function KeyAt(messages: seq<Message>, i: nat, j: nat): Key
    requires At(messages, i, j)
  {
    var b := messages[i].blocks[j];
    Native(b.kind, if Numbered(messages, i, j) then Number(messages, i, j) else b.id)
  }

  lemma {:induction false} OrdinalGrows(blocks: seq<Block>, j: nat, l: nat, kind: BlockKind)
    requires j < l <= |blocks| && blocks[j].kind == kind
    ensures Ordinal(blocks[..j], kind) < Ordinal(blocks[..l], kind)
    decreases l
  {
    assert blocks[..l][..l - 1] == blocks[..l - 1];
    if j < l - 1 {
      OrdinalGrows(blocks, j, l - 1, kind);
    }
  }

  /** Two blocks of one kind have different numbers. */
  lemma NumbersApart(messages: seq<Message>, i: nat, j: nat, k: nat, l: nat)
    requires Unique(messages) && At(messages, i, j) && At(messages, k, l) && Before(i, j, k, l)
    requires messages[i].blocks[j].kind == messages[k].blocks[l].kind
    ensures Number(messages, i, j) != Number(messages, k, l)
  {
    var kind := messages[i].blocks[j].kind;
    if i == k {
      OrdinalGrows(messages[i].blocks, j, l, kind);
    }
    if Number(messages, i, j) == Number(messages, k, l) {
      IndexedOnce(messages[i].id, Ordinal(messages[i].blocks[..j], kind), messages[k].id, Ordinal(messages[k].blocks[..l], kind));
    }
  }

  /** The later block is numbered with the id the earlier one is keyed by. */
  ghost predicate Clash(messages: seq<Message>, i: nat, j: nat, k: nat, l: nat)
    requires At(messages, i, j) && At(messages, k, l)
  {
    && messages[i].blocks[j].kind == messages[k].blocks[l].kind && messages[i].blocks[j].id == Number(messages, k, l)
    && !Numbered(messages, i, j) && Numbered(messages, k, l)
  }

  /** Two blocks have one key exactly when they clash. */
  lemma OneKeyIsClash(messages: seq<Message>, i: nat, j: nat, k: nat, l: nat)
    requires Unique(messages) && At(messages, i, j) && At(messages, k, l) && Before(i, j, k, l)
    ensures KeyAt(messages, i, j) == KeyAt(messages, k, l) <==> Clash(messages, i, j, k, l)
  {
    var a, b := messages[i].blocks[j], messages[k].blocks[l];
    if a.kind == b.kind {
      NumbersApart(messages, i, j, k, l);
      assert BlocksApart(a, b);
      if Numbered(messages, i, j) && Number(messages, i, j) == b.id {
        assert Takes(messages, i, j, k, l);
      }
    }
  }

  // ---- The loops give every block its key

  ghost predicate Earlier(messages: seq<Message>, i: nat, j: nat, key: Key) {
    exists k: nat, l: nat :: At(messages, k, l) && Before(k, l, i, j) && key == KeyAt(messages, k, l)
  }

  /** The keys given so far are those of the earlier blocks. */
  ghost predicate Given(messages: seq<Message>, i: nat, j: nat, keys: set<Key>) {
    forall key :: key in keys <==> Earlier(messages, i, j, key)
  }

  /** An id is taken exactly when an earlier block is numbered with it. */
  lemma {:induction false} TakenIsNumbered(messages: seq<Message>, i: nat, j: nat)
    requires Unique(messages) && At(messages, i, j) && messages[i].blocks[j].id != ""
    ensures Earlier(messages, i, j, Native(messages[i].blocks[j].kind, messages[i].blocks[j].id)) <==>
      Numbered(messages, i, j)
  {
    var b := messages[i].blocks[j];
    var key := Native(b.kind, b.id);
    if Earlier(messages, i, j, key) {
      var k: nat, l: nat :| At(messages, k, l) && Before(k, l, i, j) && key == KeyAt(messages, k, l);
      assert BlocksApart(messages[k].blocks[l], b) && BlocksApart(b, messages[k].blocks[l]);
      assert Takes(messages, k, l, i, j);
    }
    if Numbered(messages, i, j) {
      var k: nat, l: nat :| Takes(messages, k, l, i, j) && Numbered(messages, k, l);
      assert key == KeyAt(messages, k, l);
    }
  }

  lemma KeyIsGiven(messages: seq<Message>, i: nat, j: nat, keys: set<Key>)
    requires Unique(messages) && At(messages, i, j) && Given(messages, i, j, keys)
    ensures KeyFor(messages[i], j, keys) == KeyAt(messages, i, j)
  {
    var b := messages[i].blocks[j];
    if b.id != "" {
      TakenIsNumbered(messages, i, j);
      assert Native(b.kind, b.id) in keys <==> Earlier(messages, i, j, Native(b.kind, b.id));
    }
    assert Number(messages, i, j) != "";
  }

  lemma EarlierMore(messages: seq<Message>, i: nat, j: nat, key: Key)
    requires At(messages, i, j)
    ensures Earlier(messages, i, j + 1, key) <==> Earlier(messages, i, j, key) || key == KeyAt(messages, i, j)
  {
    if Earlier(messages, i, j + 1, key) && key != KeyAt(messages, i, j) {
      var k: nat, l: nat :| At(messages, k, l) && Before(k, l, i, j + 1) && key == KeyAt(messages, k, l);
      assert Before(k, l, i, j);
    }
    if Earlier(messages, i, j, key) {
      var k: nat, l: nat :| At(messages, k, l) && Before(k, l, i, j) && key == KeyAt(messages, k, l);
      assert Before(k, l, i, j + 1);
    }
    assert Before(i, j, i, j + 1);
  }

  lemma GivenMore(messages: seq<Message>, i: nat, j: nat, keys: set<Key>)
    requires At(messages, i, j) && Given(messages, i, j, keys)
    ensures Given(messages, i, j + 1, keys + {KeyAt(messages, i, j)})
  {
    forall key
      ensures key in keys + {KeyAt(messages, i, j)} <==> Earlier(messages, i, j + 1, key)
    {
      EarlierMore(messages, i, j, key);
    }
  }

  ghost predicate KeysAre(messages: seq<Message>, i: nat, j: nat, keys: seq<Key>)
    requires i < |messages| && j <= |messages[i].blocks|
  {
    |keys| == j && forall l :: 0 <= l < j ==> keys[l] == KeyAt(messages, i, l)
  }

  ghost predicate SoFar(messages: seq<Message>, i: nat, j: nat, seen: set<Key>, keys: seq<Key>)
    requires i < |messages| && j <= |messages[i].blocks|
  {
    KeysAre(messages, i, j, keys) && Given(messages, i, j, seen + Set(keys))
  }

  lemma KeysMore(messages: seq<Message>, i: nat, j: nat, before: seq<Key>)
    requires At(messages, i, j) && KeysAre(messages, i, j, before)
    ensures KeysAre(messages, i, j + 1, before + [KeyAt(messages, i, j)])
  {
  }

  lemma SeenMore(messages: seq<Message>, i: nat, j: nat, seen: set<Key>, before: seq<Key>)
    requires At(messages, i, j) && Given(messages, i, j, seen + Set(before))
    ensures Given(messages, i, j + 1, seen + Set(before + [KeyAt(messages, i, j)]))
  {
    GivenMore(messages, i, j, seen + Set(before));
    AlsoSeen(seen, before, KeyAt(messages, i, j));
  }

  lemma SoFarMore(messages: seq<Message>, i: nat, j: nat, seen: set<Key>, before: seq<Key>)
    requires Unique(messages) && At(messages, i, j) && SoFar(messages, i, j, seen, before)
    ensures SoFar(messages, i, j + 1, seen, before + [KeyFor(messages[i], j, seen + Set(before))])
  {
    KeyIsGiven(messages, i, j, seen + Set(before));
    KeysMore(messages, i, j, before);
    SeenMore(messages, i, j, seen, before);
  }

  lemma {:induction false} MessageKeysAre(messages: seq<Message>, i: nat, j: nat, seen: set<Key>)
    requires Unique(messages) && i < |messages| && j <= |messages[i].blocks| && Given(messages, i, 0, seen)
    ensures SoFar(messages, i, j, seen, MessageKeys(messages[i], j, seen))
    decreases j
  {
    if j == 0 {
      assert seen + Set([]) == seen;
    } else {
      MessageKeysAre(messages, i, j - 1, seen);
      SoFarMore(messages, i, j - 1, seen, MessageKeys(messages[i], j - 1, seen));
    }
  }

  lemma NextMessage(messages: seq<Message>, i: nat, keys: set<Key>)
    requires i < |messages| && Given(messages, i, |messages[i].blocks|, keys)
    ensures Given(messages, i + 1, 0, keys)
  {
    forall key
      ensures Earlier(messages, i + 1, 0, key) <==> Earlier(messages, i, |messages[i].blocks|, key)
    {
      EarlierNext(messages, i, key);
    }
  }

  lemma EarlierNext(messages: seq<Message>, i: nat, key: Key)
    requires i < |messages|
    ensures Earlier(messages, i + 1, 0, key) <==> Earlier(messages, i, |messages[i].blocks|, key)
  {
    if Earlier(messages, i + 1, 0, key) {
      var k: nat, l: nat :| At(messages, k, l) && Before(k, l, i + 1, 0) && key == KeyAt(messages, k, l);
      assert Before(k, l, i, |messages[i].blocks|);
    }
    if Earlier(messages, i, |messages[i].blocks|, key) {
      var k: nat, l: nat :| At(messages, k, l) && Before(k, l, i, |messages[i].blocks|) && key == KeyAt(messages, k, l);
      assert Before(k, l, i + 1, 0);
    }
  }

  ghost predicate ExportKeysAre(messages: seq<Message>, i: nat, keys: seq<seq<Key>>)
    requires i <= |messages|
  {
    |keys| == i && forall k :: 0 <= k < i ==> KeysAre(messages, k, |messages[k].blocks|, keys[k])
  }

  lemma {:induction false} ExportMore(messages: seq<Message>, i: nat, before: seq<seq<Key>>, more: seq<Key>)
    requires i < |messages| && ExportKeysAre(messages, i, before)
    requires SoFar(messages, i, |messages[i].blocks|, Seen(before), more)
    ensures ExportKeysAre(messages, i + 1, before + [more])
    ensures Given(messages, i + 1, 0, Seen(before + [more]))
  {
    assert (before + [more])[..i] == before;
    NextMessage(messages, i, Seen(before) + Set(more));
  }

  lemma {:induction false} ExportKeys(messages: seq<Message>, i: nat)
    requires Unique(messages) && i <= |messages|
    ensures ExportKeysAre(messages, i, AllKeys(messages[..i])) && Given(messages, i, 0, Seen(AllKeys(messages[..i])))
    decreases i
  {
    if i > 0 {
      ExportKeys(messages, i - 1);
      assert messages[..i][..i - 1] == messages[..i - 1];
      var before := AllKeys(messages[..i - 1]);
      MessageKeysAre(messages, i - 1, |messages[i - 1].blocks|, Seen(before));
      ExportMore(messages, i - 1, before, MessageKeys(messages[i - 1], |messages[i - 1].blocks|, Seen(before)));
    }
  }

  /** The key of each block of an export with unique ids. */
  lemma {:induction false} KeyIs(messages: seq<Message>, i: nat, j: nat)
    requires Unique(messages) && At(messages, i, j)
    ensures |AllKeys(messages)| == |messages| && |AllKeys(messages)[i]| == |messages[i].blocks|
    ensures AllKeys(messages)[i][j] == KeyAt(messages, i, j)
  {
    assert messages[..|messages|] == messages;
    ExportKeys(messages, |messages|);
    assert KeysAre(messages, i, |messages[i].blocks|, AllKeys(messages)[i]);
  }

  /** Two blocks of an export with unique ids get one key exactly when the later is numbered with the
      id the earlier is keyed by. */
  lemma {:induction false} KeysAreDistinct(messages: seq<Message>, i: nat, j: nat, k: nat, l: nat)
    requires Unique(messages) && At(messages, i, j) && At(messages, k, l) && Before(i, j, k, l)
    ensures |AllKeys(messages)| == |messages| && |AllKeys(messages)[i]| == |messages[i].blocks|
    ensures |AllKeys(messages)[k]| == |messages[k].blocks|
    ensures AllKeys(messages)[i][j] != AllKeys(messages)[k][l] <==> !Clash(messages, i, j, k, l)
  {
    KeyIs(messages, i, j);
    KeyIs(messages, k, l);
    OneKeyIsClash(messages, i, j, k, l);
  }

  // ---- Later exports

  function Shown(blocks: seq<Block>): seq<Block> {
    if blocks == [] then []
    else Shown(blocks[..|blocks| - 1]) + (if blocks[|blocks| - 1].kind == Reasoning then [] else [blocks[|blocks| - 1]])
  }

  lemma {:induction false} OrdinalOfShown(blocks: seq<Block>, kind: BlockKind)
    requires kind != Reasoning
    ensures Ordinal(Shown(blocks), kind) == Ordinal(blocks, kind)
  {
    if blocks != [] {
      var front, last := blocks[..|blocks| - 1], blocks[|blocks| - 1];
      OrdinalOfShown(front, kind);
      OrdinalSnoc(Shown(front), last, kind);
      assert Shown(front) + [] == Shown(front);
    }
  }

  lemma {:induction false} ShownPrefix(blocks: seq<Block>, j: nat)
    requires j < |blocks| && blocks[j].kind != Reasoning
    ensures var n := |Shown(blocks[..j])|;
      n < |Shown(blocks)| && Shown(blocks)[..n] == Shown(blocks[..j]) && Shown(blocks)[n] == blocks[j]
    decreases |blocks|
  {
    var front := blocks[..|blocks| - 1];
    if j < |front| {
      ShownPrefix(front, j);
      assert front[..j] == blocks[..j];
    } else {
      assert blocks[..j] == front;
    }
  }

  /** One message in two exports: nothing but thinking blocks may come or go. */
  predicate SameButThinking(a: Message, b: Message) {
    a.id == b.id && Shown(a.blocks) == Shown(b.blocks)
  }

  /** One block in two exports: the n-th of its message that is not thinking. */
  predicate SameBlock(earlier: seq<Message>, i: nat, j: nat, later: seq<Message>, k: nat, l: nat) {
    && At(earlier, i, j) && At(later, k, l) && SameButThinking(earlier[i], later[k])
    && earlier[i].blocks[j].kind != Reasoning && later[k].blocks[l].kind != Reasoning
    && |Shown(earlier[i].blocks[..j])| == |Shown(later[k].blocks[..l])|
  }

  lemma SameNumber(earlier: seq<Message>, i: nat, j: nat, later: seq<Message>, k: nat, l: nat)
    requires SameBlock(earlier, i, j, later, k, l)
    ensures earlier[i].blocks[j] == later[k].blocks[l] && Number(earlier, i, j) == Number(later, k, l)
  {
    var a, b := earlier[i].blocks, later[k].blocks;
    ShownPrefix(a, j);
    ShownPrefix(b, l);
    OrdinalOfShown(a[..j], a[j].kind);
    OrdinalOfShown(b[..l], b[l].kind);
  }

  /** Inserting messages and deleting thinking blocks keeps a block's key, unless one export alone
      numbers a block with this one's id before it comes. Blocks without ids always keep theirs. */
  lemma {:induction false} KeysSurvive(earlier: seq<Message>, i: nat, j: nat, later: seq<Message>, k: nat, l: nat)
    requires Unique(earlier) && Unique(later) && SameBlock(earlier, i, j, later, k, l)
    ensures |AllKeys(earlier)| == |earlier| && |AllKeys(earlier)[i]| == |earlier[i].blocks|
    ensures |AllKeys(later)| == |later| && |AllKeys(later)[k]| == |later[k].blocks|
    ensures AllKeys(earlier)[i][j] == AllKeys(later)[k][l] <==>
      (Numbered(earlier, i, j) <==> Numbered(later, k, l)) || earlier[i].blocks[j].id == Number(earlier, i, j)
    ensures earlier[i].blocks[j].id == "" ==> AllKeys(earlier)[i][j] == AllKeys(later)[k][l]
  {
    KeyIs(earlier, i, j);
    KeyIs(later, k, l);
    SameNumber(earlier, i, j, later, k, l);
  }

  /** No block id is the number of another block of its kind. */
  ghost predicate Plain(messages: seq<Message>) {
    forall i: nat, j: nat, k: nat, l: nat {:trigger At(messages, i, j), At(messages, k, l)} ::
      At(messages, i, j) && At(messages, k, l) && (i, j) != (k, l) && messages[i].blocks[j].kind == messages[k].blocks[l].kind ==>
      messages[i].blocks[j].id != Number(messages, k, l)
  }

  /** With ids that are never numbers, keys are distinct and survive. */
  lemma {:induction false} PlainKeysSurvive(earlier: seq<Message>, i: nat, j: nat, later: seq<Message>, k: nat, l: nat)
    requires Unique(earlier) && Unique(later) && Plain(earlier) && Plain(later) && SameBlock(earlier, i, j, later, k, l)
    ensures |AllKeys(earlier)| == |earlier| && |AllKeys(earlier)[i]| == |earlier[i].blocks|
    ensures |AllKeys(later)| == |later| && |AllKeys(later)[k]| == |later[k].blocks|
    ensures AllKeys(earlier)[i][j] == AllKeys(later)[k][l]
    ensures forall m: nat, n: nat :: At(later, m, n) && (m, n) != (k, l) ==> KeyAt(later, m, n) != KeyAt(later, k, l)
  {
    KeysSurvive(earlier, i, j, later, k, l);
    SameNumber(earlier, i, j, later, k, l);
    assert Numbered(earlier, i, j) <==> earlier[i].blocks[j].id == "";
    assert Numbered(later, k, l) <==> later[k].blocks[l].id == "";
    forall m: nat, n: nat | At(later, m, n) && (m, n) != (k, l)
      ensures KeyAt(later, m, n) != KeyAt(later, k, l)
    {
      if Before(m, n, k, l) {
        OneKeyIsClash(later, m, n, k, l);
      } else {
        OneKeyIsClash(later, k, l, m, n);
      }
    }
  }

  /** A block id that reads like a number is given twice. */
  lemma NumberedIdCollides(kind: BlockKind, digest: nat)
    ensures var m := Message("m", [Block(kind, "m:1", digest), Block(kind, "", digest)]);
      Unique([m]) && AllKeys([m]) == [[Native(kind, "m:1"), Native(kind, "m:1")]]
  {
    var m := Message("m", [Block(kind, "m:1", digest), Block(kind, "", digest)]);
    assert IndexedId("m", 1) == "m:1";
    assert m.blocks[..1] == [m.blocks[0]] && m.blocks[..1][..0] == [];
    assert Ordinal(m.blocks[..1], kind) == 1;
    assert KeyFor(m, 0, {} + Set([])) == Native(kind, "m:1");
    assert MessageKeys(m, 0, {}) == [];
    assert MessageKeys(m, 1, {}) == [Native(kind, "m:1")];
    assert MessageKeys(m, 2, {}) == [Native(kind, "m:1"), Native(kind, "m:1")];
    assert AllKeys([m][..0]) == [];
  }

  lemma {:induction false} OneBlock(m: Message, seen: set<Key>)
    requires |m.blocks| == 1
    ensures MessageKeys(m, 1, seen) == [KeyFor(m, 0, seen)]
  {
    assert MessageKeys(m, 0, seen) == [];
    assert seen + Set([]) == seen;
  }

  lemma OneMessage(m: Message)
    requires |m.blocks| == 1
    ensures AllKeys([m]) == [[KeyFor(m, 0, {})]]
  {
    assert AllKeys([m][..0]) == [];
    OneBlock(m, {});
  }

  lemma SecondMessage(n: Message, m: Message, key: Key)
    requires |m.blocks| == 1 && AllKeys([n]) == [[key]]
    ensures AllKeys([n, m]) == [[key], [KeyFor(m, 0, {key})]]
  {
    var first := [[key]];
    assert [n, m][..1] == [n];
    assert Seen(first[..0]) == {} && Seen(first) == {key};
    OneBlock(m, {key});
  }

  lemma TwoUnique(m: Message, n: Message)
    requires m.id != "" && n.id != "" && m.id != n.id && |m.blocks| == 1 && |n.blocks| == 1 && n.blocks[0].id == ""
    ensures Unique([m]) && Unique([n, m])
  {
    assert [n, m][0] == n && [n, m][1] == m;
  }

  lemma TakenByNumber(kind: BlockKind, digest: nat, a: string, b: string)
    requires a != "" && b != ""
    ensures var m, n := Message(a, [Block(kind, IndexedId(b, 0), digest)]), Message(b, [Block(kind, "", digest)]);
      && KeyFor(m, 0, {}) == KeyFor(n, 0, {}) == Native(kind, IndexedId(b, 0))
      && KeyFor(m, 0, {Native(kind, IndexedId(b, 0))}) == Native(kind, IndexedId(a, 0))
  {
    var m, n := Message(a, [Block(kind, IndexedId(b, 0), digest)]), Message(b, [Block(kind, "", digest)]);
    assert m.blocks[..0] == [] && n.blocks[..0] == [];
  }

  /** A message b inserted before a block may take its id, and with it its key. */
  lemma InsertedTakesKey(kind: BlockKind, digest: nat, a: string, b: string)
    requires a != "" && b != "" && a != b
    ensures var m, n := Message(a, [Block(kind, IndexedId(b, 0), digest)]), Message(b, [Block(kind, "", digest)]);
      && Unique([m]) && Unique([n, m]) && AllKeys([m]) == [[Native(kind, IndexedId(b, 0))]]
      && AllKeys([n, m]) == [[Native(kind, IndexedId(b, 0))], [Native(kind, IndexedId(a, 0))]]
  {
    var m, n := Message(a, [Block(kind, IndexedId(b, 0), digest)]), Message(b, [Block(kind, "", digest)]);
    TwoUnique(m, n);
    TakenByNumber(kind, digest, a, b);
    OneMessage(m);
    OneMessage(n);
    SecondMessage(n, m, Native(kind, IndexedId(b, 0)));
  }
}
