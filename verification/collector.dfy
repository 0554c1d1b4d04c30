/** What Collect leaves out, and what it passes on to the archives. */
module Collector {
  import opened Utf8

  datatype Key = Key(harness: string, nativeId: string)

  /** Collection State: the digest the server last accepted for a trace, and for which machine. */
  datatype Ack = Ack(digest: string, machine: string)

  datatype Stamp = Stamp(stamp: string, digest: string, key: Key)

  type Acks = map<Key, Ack>
  type Stamps = map<string, Stamp>

  /** A trace an adapter finds. CLI exports have no source and stamp; digest is what describing the
      copied files gives now, or none when that fails. */
  datatype Item = Item(source: string, stamp: string, key: Key, digest: Option<string>)

  datatype Warning = SnapshotFailed(key: Key) | DuplicateTrace(key: Key)

  /** stamped is whether there is a directory to keep stamps in. */
  datatype Options = Options(all: bool, stamped: bool)

  datatype Client = Client(machine: string, acks: Acks)

  datatype Collection = Collection(stamps: Stamps, collected: set<Key>, inputs: seq<Item>, warnings: seq<Warning>)

  predicate Acked(c: Client, key: Key, digest: string) {
    (if key in c.acks then c.acks[key] else Ack("", "")) == Ack(digest, c.machine)
  }

  /** skip: the source has the stamp it had when it was last described, and that was accepted. */
  predicate Skips(c: Client, o: Options, stamps: Stamps, item: Item) {
    && item.source != "" && item.stamp != "" && !o.all && o.stamped
    && item.source in stamps && stamps[item.source].stamp == item.stamp && stamps[item.source].digest != ""
    && Acked(c, stamps[item.source].key, stamps[item.source].digest)
  }

  // ---- What stamps stand for

  /** What describing a source at a stamp gives, whenever it does not fail: a stamp determines the
      copied bytes. */
  type Facts = (string, string) -> (Key, string)

  ghost predicate ItemTrue(facts: Facts, item: Item) {
    item.digest.Some? ==>
      && (item.source != "" && item.stamp != "" ==> facts(item.source, item.stamp) == (item.key, item.digest.value))
      && item.digest.value != ""
  }

  ghost predicate StampTrue(facts: Facts, source: string, stamp: Stamp) {
    facts(source, stamp.stamp) == (stamp.key, stamp.digest)
  }

  ghost predicate StampsTrue(facts: Facts, stamps: Stamps) {
    forall source :: source in stamps ==> StampTrue(facts, source, stamps[source])
  }

  /** The source was accepted as it is at its stamp, whether or not it can be copied now. */
  ghost predicate AckedAtStamp(facts: Facts, c: Client, item: Item) {
    && item.source != "" && item.stamp != ""
    && var (key, digest) := facts(item.source, item.stamp);
    digest != "" && Acked(c, key, digest)
  }

  /** A skipped source is accepted as it is now. */
  lemma SkippedIsAcked(facts: Facts, c: Client, o: Options, stamps: Stamps, item: Item)
    requires StampsTrue(facts, stamps) && ItemTrue(facts, item) && Skips(c, o, stamps, item)
    ensures AckedAtStamp(facts, c, item)
    ensures item.digest.Some? ==> Acked(c, item.key, item.digest.value)
  {
    assert StampTrue(facts, item.source, stamps[item.source]);
  }

  // ---- One adapter

  /** Why an item is not passed on, unless it is. */
  ghost predicate Accounted(facts: Facts, c: Client, o: Options, r: Collection, item: Item) {
    || (item.digest.Some? && item in r.inputs)
    || (!o.all && item.digest.None? && AckedAtStamp(facts, c, item))
    || (!o.all && item.digest.Some? && Acked(c, item.key, item.digest.value))
    || (item.digest.None? && SnapshotFailed(item.key) in r.warnings)
    || DuplicateTrace(item.key) in r.warnings
  }

  /** An item of this key was passed on, or accepted. */
  ghost predicate First(c: Client, o: Options, r: Collection, key: Key, item: Item) {
    item.key == key && item.digest.Some? && (item in r.inputs || (!o.all && Acked(c, key, item.digest.value)))
  }

  ghost predicate HasFirst(c: Client, o: Options, r: Collection, key: Key, found: set<Item>) {
    exists item :: item in found && First(c, o, r, key, item)
  }

  ghost predicate Fails(key: Key, found: set<Item>) {
    exists item :: item in found && item.key == key && item.digest.None?
  }

  ghost predicate DistinctKeys(items: seq<Item>) {
    forall i, j :: 0 <= i < j < |items| ==> items[i].key != items[j].key
  }

  ghost predicate WarningTrue(r: Collection, w: Warning, found: set<Item>) {
    match w
    case SnapshotFailed(key) => Fails(key, found)
    case DuplicateTrace(key) => key in r.collected
  }

  ghost predicate InputTrue(c: Client, o: Options, r: Collection, item: Item, found: set<Item>) {
    item in found && item.key in r.collected && item.digest.Some? && (o.all || !Acked(c, item.key, item.digest.value))
  }

  /** A collection of some of what was found: inputs are new or changed, once for each trace, and
      warnings say why anything else was left out. */
  ghost predicate Collects(facts: Facts, c: Client, o: Options, r: Collection, found: set<Item>) {
    && StampsTrue(facts, r.stamps) && DistinctKeys(r.inputs)
    && (forall item :: item in r.inputs ==> InputTrue(c, o, r, item, found))
    && (forall w :: w in r.warnings ==> WarningTrue(r, w, found))
    && (forall key :: key in r.collected ==> HasFirst(c, o, r, key, found))
    && (forall item :: item in found ==> Accounted(facts, c, o, r, item))
  }

  /** The loop body of Collect, for one described input. */
  function Describe(c: Client, o: Options, r: Collection, item: Item): Collection {
    if item.digest.None? then r.(warnings := r.warnings + [SnapshotFailed(item.key)])
    else
      var stamps := if item.source != "" && item.stamp != "" && o.stamped then
        r.stamps[item.source := Stamp(item.stamp, item.digest.value, item.key)] else r.stamps;
      if item.key in r.collected then r.(stamps := stamps, warnings := r.warnings + [DuplicateTrace(item.key)])
      else if !o.all && Acked(c, item.key, item.digest.value) then r.(stamps := stamps, collected := r.collected + {item.key})
      else r.(stamps := stamps, collected := r.collected + {item.key}, inputs := r.inputs + [item])
  }

  lemma DescribeStamps(facts: Facts, c: Client, o: Options, r: Collection, item: Item)
    requires StampsTrue(facts, r.stamps) && ItemTrue(facts, item)
    ensures StampsTrue(facts, Describe(c, o, r, item).stamps)
  {
  }

  /** Nothing said before is taken back. */
  ghost predicate Extends(r: Collection, after: Collection) {
    && r.collected <= after.collected
    && (forall item :: item in r.inputs ==> item in after.inputs)
    && (forall w :: w in r.warnings ==> w in after.warnings)
  }

  lemma DescribeExtends(facts: Facts, c: Client, o: Options, r: Collection, item: Item)
    ensures Extends(r, Describe(c, o, r, item))
    ensures Accounted(facts, c, o, Describe(c, o, r, item), item)
  {
    var after := Describe(c, o, r, item);
    if item.digest.None? {
      assert after.warnings[|r.warnings|] == SnapshotFailed(item.key);
    } else if item.key in r.collected {
      assert after.warnings[|r.warnings|] == DuplicateTrace(item.key);
    } else if o.all || !Acked(c, item.key, item.digest.value) {
      assert after.inputs[|r.inputs|] == item;
    }
  }

  lemma DescribeInputs(facts: Facts, c: Client, o: Options, r: Collection, item: Item, found: set<Item>)
    requires Collects(facts, c, o, r, found)
    ensures var after := Describe(c, o, r, item);
      DistinctKeys(after.inputs) && forall i :: i in after.inputs ==> InputTrue(c, o, after, i, found + {item})
  {
    var after := Describe(c, o, r, item);
    forall i | i in after.inputs
      ensures InputTrue(c, o, after, i, found + {item})
    {
      if i in r.inputs {
        assert InputTrue(c, o, r, i, found);
      }
    }
    forall i | 0 <= i < |r.inputs|
      ensures r.inputs[i].key in r.collected
    {
      assert InputTrue(c, o, r, r.inputs[i], found);
    }
  }

  lemma DescribeWarnings(facts: Facts, c: Client, o: Options, r: Collection, item: Item, found: set<Item>)
    requires Collects(facts, c, o, r, found)
    ensures var after := Describe(c, o, r, item); forall w :: w in after.warnings ==>
      WarningTrue(after, w, found + {item})
  {
    var after := Describe(c, o, r, item);
    forall w | w in after.warnings
      ensures WarningTrue(after, w, found + {item})
    {
      if w in r.warnings {
        assert WarningTrue(r, w, found);
        if w.SnapshotFailed? {
          var i :| i in found && i.key == w.key && i.digest.None?;
          assert i in found + {item};
        }
      } else if w.SnapshotFailed? {
        assert item in found + {item};
      }
    }
  }

  lemma DescribeFirsts(facts: Facts, c: Client, o: Options, r: Collection, item: Item, found: set<Item>, key: Key)
    requires Collects(facts, c, o, r, found) && key in Describe(c, o, r, item).collected
    ensures HasFirst(c, o, Describe(c, o, r, item), key, found + {item})
  {
    var after := Describe(c, o, r, item);
    DescribeExtends(facts, c, o, r, item);
    if key in r.collected {
      assert HasFirst(c, o, r, key, found);
      var i :| i in found && First(c, o, r, key, i);
      assert i in found + {item} && First(c, o, after, key, i);
    } else {
      assert First(c, o, after, key, item) && item in found + {item};
    }
  }

  lemma StillAccounted(facts: Facts, c: Client, o: Options, r: Collection, after: Collection, item: Item)
    requires Extends(r, after) && Accounted(facts, c, o, r, item)
    ensures Accounted(facts, c, o, after, item)
  {
  }

  lemma DescribeCollects(facts: Facts, c: Client, o: Options, r: Collection, item: Item, found: set<Item>)
    requires Collects(facts, c, o, r, found) && ItemTrue(facts, item)
    ensures Collects(facts, c, o, Describe(c, o, r, item), found + {item})
  {
    var after := Describe(c, o, r, item);
    DescribeStamps(facts, c, o, r, item);
    DescribeInputs(facts, c, o, r, item, found);
    DescribeWarnings(facts, c, o, r, item, found);
    DescribeExtends(facts, c, o, r, item);
    forall key | key in after.collected
      ensures HasFirst(c, o, after, key, found + {item})
    {
      DescribeFirsts(facts, c, o, r, item, found, key);
    }
    forall i | i in found + {item}
      ensures Accounted(facts, c, o, after, i)
    {
      if i in found {
        StillAccounted(facts, c, o, r, after, i);
      }
    }
  }

  /** Leaving out an accepted item changes nothing. */
  lemma SkipCollects(facts: Facts, c: Client, o: Options, r: Collection, stamps: Stamps, item: Item, found: set<Item>)
    requires Collects(facts, c, o, r, found) && ItemTrue(facts, item) && StampsTrue(facts, stamps)
    requires Skips(c, o, stamps, item)
    ensures Collects(facts, c, o, r, found + {item})
  {
    SkippedIsAcked(facts, c, o, stamps, item);
    forall key | key in r.collected
      ensures HasFirst(c, o, r, key, found + {item})
    {
      assert HasFirst(c, o, r, key, found);
      var i :| i in found && First(c, o, r, key, i);
      assert i in found + {item};
    }
    forall w | w in r.warnings
      ensures WarningTrue(r, w, found + {item})
    {
      assert WarningTrue(r, w, found);
      if w.SnapshotFailed? {
        var i :| i in found && i.key == w.key && i.digest.None?;
        assert i in found + {item};
      }
    }
    forall i | i in r.inputs
      ensures InputTrue(c, o, r, i, found + {item})
    {
      assert InputTrue(c, o, r, i, found);
    }
  }

  // ---- What is said of what was described

  /** How many of the items of the trace were described. */
  function Times(described: seq<Item>, key: Key): nat {
    if described == [] then 0
    else
      var last := described[|described| - 1];
      Times(described[..|described| - 1], key) + (if last.key == key && last.digest.Some? then 1 else 0)
  }

  function Failures(described: seq<Item>, key: Key): nat {
    if described == [] then 0
    else
      var last := described[|described| - 1];
      Failures(described[..|described| - 1], key) + (if last.key == key && last.digest.None? then 1 else 0)
  }

  /** The first of its trace to be described. */
  predicate IsFirst(described: seq<Item>, m: nat) {
    && m < |described| && described[m].digest.Some?
    && forall l :: 0 <= l < m && described[l].digest.Some? ==> described[l].key != described[m].key
  }

  /** The first of each trace, in order, but for those the server has as they are. */
  function Passed(c: Client, o: Options, described: seq<Item>): seq<Item> {
    if described == [] then []
    else
      var m := |described| - 1;
      Passed(c, o, described[..m]) +
      (if IsFirst(described, m) && (o.all || !Acked(c, described[m].key, described[m].digest.value)) then [described[m]] else [])
  }

  predicate Stamped(o: Options, item: Item, source: string) {
    item.source == source && source != "" && item.stamp != "" && item.digest.Some? && o.stamped
  }

  /** The last item of the source that was described. */
  function LastOf(o: Options, described: seq<Item>, source: string): Option<Item> {
    if described == [] then None
    else if Stamped(o, described[|described| - 1], source) then Some(described[|described| - 1])
    else LastOf(o, described[..|described| - 1], source)
  }

  /** The stamp of a source is that of the last item of it described, or the one from before. */
  ghost predicate StampIs(o: Options, before: Stamps, stamps: Stamps, described: seq<Item>, source: string) {
    match LastOf(o, described, source)
    case Some(item) =>
      item.digest.Some? && source in stamps && stamps[source] == Stamp(item.stamp, item.digest.value, item.key)
    case None => (source in stamps <==> source in before) && (source in before ==> stamps[source] == before[source])
  }

  /** A trace is reported as repeated once less than it was described, a failed copy each time; what
      is passed on is the first of its trace; and stamps are of what was described last. */
  ghost predicate Reported(c: Client, o: Options, before: Stamps, r: Collection, described: seq<Item>) {
    && (forall key: Key :: ReportedOf(r, described, key))
    && (forall key: Key :: key in r.collected <==> Times(described, key) > 0)
    && r.inputs == Passed(c, o, described)
    && (forall source: string {:trigger StampIs(o, before, r.stamps, described, source)} ::
      StampIs(o, before, r.stamps, described, source))
  }

  ghost predicate ReportedOf(r: Collection, described: seq<Item>, key: Key) {
    && multiset(r.warnings)[DuplicateTrace(key)] == (if Times(described, key) == 0 then 0 else Times(described, key) - 1)
    && multiset(r.warnings)[SnapshotFailed(key)] == Failures(described, key)
  }

  lemma NothingReported(c: Client, o: Options, stamps: Stamps)
    ensures Reported(c, o, stamps, Collection(stamps, {}, [], []), [])
  {
  }

  lemma {:induction false} TimesNone(described: seq<Item>, key: Key)
    ensures Times(described, key) == 0 <==> forall l :: 0 <= l < |described| && described[l].digest.Some? ==>
      described[l].key != key
  {
    if described != [] {
      TimesNone(described[..|described| - 1], key);
      assert described == described[..|described| - 1] + [described[|described| - 1]];
    }
  }

  lemma {:induction false} WarnedMore(r: Collection, after: Collection, described: seq<Item>, item: Item, key: Key, w: Warning)
    requires ReportedOf(r, described, key) && after.warnings == r.warnings + [w]
    requires w == if item.digest.None? then SnapshotFailed(item.key) else DuplicateTrace(item.key)
    requires item.digest.Some? ==> Times(described, item.key) > 0
    ensures ReportedOf(after, described + [item], key)
  {
    assert (described + [item])[..|described|] == described;
  }

  lemma {:induction false} SaidNothing(r: Collection, after: Collection, described: seq<Item>, item: Item, key: Key)
    requires ReportedOf(r, described, key) && after.warnings == r.warnings
    requires item.digest.Some? && Times(described, item.key) == 0
    ensures ReportedOf(after, described + [item], key)
  {
    assert (described + [item])[..|described|] == described;
  }

  lemma StampMore(c: Client, o: Options, before: Stamps, r: Collection, described: seq<Item>, item: Item, source: string)
    requires StampIs(o, before, r.stamps, described, source)
    ensures StampIs(o, before, Describe(c, o, r, item).stamps, described + [item], source)
  {
    assert (described + [item])[..|described|] == described;
  }

  lemma {:induction false} ReportedMore(c: Client, o: Options, before: Stamps, r: Collection, described: seq<Item>,
      item: Item)
    requires Reported(c, o, before, r, described)
    ensures Reported(c, o, before, Describe(c, o, r, item), described + [item])
  {
    var after, more := Describe(c, o, r, item), described + [item];
    assert more[..|described|] == described;
    forall key: Key
      ensures ReportedOf(after, more, key)
    {
      assert ReportedOf(r, described, key);
      if after.warnings == r.warnings {
        SaidNothing(r, after, described, item, key);
      } else {
        WarnedMore(r, after, described, item, key, after.warnings[|r.warnings|]);
      }
    }
    TimesNone(described, item.key);
    assert item.digest.Some? ==> (IsFirst(more, |described|) <==> Times(described, item.key) == 0);
    forall source: string
      ensures StampIs(o, before, after.stamps, more, source)
    {
      StampMore(c, o, before, r, described, item, source);
    }
  }

  function Items(items: seq<Item>): set<Item> {
    set i | i in items
  }

  lemma ItemsMore(items: seq<Item>, k: nat)
    requires k < |items|
    ensures Items(items[..k + 1]) == Items(items[..k]) + {items[k]}
  {
    assert items[..k + 1] == items[..k] + [items[k]];
  }

  /** An adapter copies what it is not told to skip. */
  method Gather(c: Client, o: Options, ghost facts: Facts, ghost r: Collection, stamps: Stamps, items: seq<Item>,
      ghost found: set<Item>) returns (inputs: seq<Item>, ghost skipped: set<Item>)
    requires Collects(facts, c, o, r, found) && stamps == r.stamps && forall i :: i in items ==> ItemTrue(facts, i)
    ensures Collects(facts, c, o, r, found + skipped) && Items(items) == skipped + Items(inputs)
    ensures forall i: Item :: i in inputs <==> i in items && !Skips(c, o, stamps, i)
    ensures multiset(inputs) <= multiset(items)
  {
    inputs, skipped := [], {};
    var k := 0;
    assert found + skipped == found && items[..0] == [];
    while k < |items|
      invariant 0 <= k <= |items| && Collects(facts, c, o, r, found + skipped)
      invariant Items(items[..k]) == skipped + Items(inputs)
      invariant forall i: Item :: i in inputs <==> i in items[..k] && !Skips(c, o, stamps, i)
      invariant multiset(inputs) <= multiset(items[..k])
    {
      ItemsMore(items, k);
      assert items[..k + 1] == items[..k] + [items[k]];
      if Skips(c, o, stamps, items[k]) {
        SkipCollects(facts, c, o, r, stamps, items[k], found + skipped);
        assert found + skipped + {items[k]} == found + (skipped + {items[k]});
        skipped := skipped + {items[k]};
      } else {
        assert Items(inputs + [items[k]]) == Items(inputs) + {items[k]};
        inputs := inputs + [items[k]];
      }
      k := k + 1;
    }
    assert items[..k] == items;
  }

  lemma SkippedAreAcked(facts: Facts, c: Client, o: Options, stamps: Stamps, items: seq<Item>)
    requires StampsTrue(facts, stamps) && forall i :: i in items ==> ItemTrue(facts, i)
    ensures forall i :: i in items && Skips(c, o, stamps, i) ==> !o.all && o.stamped && AckedAtStamp(facts, c, i)
  {
    forall i | i in items && Skips(c, o, stamps, i)
      ensures AckedAtStamp(facts, c, i)
    {
      SkippedIsAcked(facts, c, o, stamps, i);
    }
  }

  /** The loop over what an adapter copied. */
  method DescribeAll(c: Client, o: Options, ghost facts: Facts, r: Collection, inputs: seq<Item>, ghost found: set<Item>,
      ghost before: Stamps, ghost described: seq<Item>) returns (after: Collection)
    requires Collects(facts, c, o, r, found) && forall i :: i in inputs ==> ItemTrue(facts, i)
    requires Reported(c, o, before, r, described)
    ensures Collects(facts, c, o, after, found + Items(inputs)) && Reported(c, o, before, after, described + inputs)
  {
    after := r;
    var k := 0;
    assert described + inputs[..0] == described && found + Items(inputs[..0]) == found;
    while k < |inputs|
      invariant 0 <= k <= |inputs| && Collects(facts, c, o, after, found + Items(inputs[..k]))
      invariant Reported(c, o, before, after, described + inputs[..k])
    {
      DescribeCollects(facts, c, o, after, inputs[k], found + Items(inputs[..k]));
      ItemsMore(inputs, k);
      assert found + Items(inputs[..k]) + {inputs[k]} == found + Items(inputs[..k + 1]);
      ReportedMore(c, o, before, after, described + inputs[..k], inputs[k]);
      assert described + inputs[..k] + [inputs[k]] == described + inputs[..k + 1];
      after := Describe(c, o, after, inputs[k]);
      k := k + 1;
    }
    assert inputs[..k] == inputs;
  }

  /** One turn of the loop over adapters: what it finds is gathered, then described. */
  method CollectAdapter(c: Client, o: Options, ghost facts: Facts, r: Collection, items: seq<Item>,
      ghost found: set<Item>, ghost before: Stamps, ghost described: seq<Item>)
      returns (after: Collection, ghost more: seq<Item>)
    requires Collects(facts, c, o, r, found) && forall i :: i in items ==> ItemTrue(facts, i)
    requires Reported(c, o, before, r, described)
    ensures Collects(facts, c, o, after, found + Items(items))
    ensures Reported(c, o, before, after, described + more) && multiset(more) <= multiset(items)
    ensures forall i :: i in items ==> i in more || (!o.all && o.stamped && AckedAtStamp(facts, c, i))
    ensures forall i :: i in more ==> !Skips(c, o, r.stamps, i)
  {
    var inputs;
    ghost var skipped;
    inputs, skipped := Gather(c, o, facts, r, r.stamps, items, found);
    SkippedAreAcked(facts, c, o, r.stamps, items);
    after := DescribeAll(c, o, facts, r, inputs, found + skipped, before, described);
    more := inputs;
    assert found + skipped + Items(inputs) == found + Items(items);
  }

  function AllItems(found: seq<seq<Item>>): set<Item> {
    if found == [] then {} else AllItems(found[..|found| - 1]) + Items(found[|found| - 1])
  }

  lemma NothingYet(facts: Facts, c: Client, o: Options, stamps: Stamps)
    requires StampsTrue(facts, stamps)
    ensures Collects(facts, c, o, Collection(stamps, {}, [], []), {})
  {
  }

  function Joined(found: seq<seq<Item>>): seq<Item> {
    if found == [] then [] else Joined(found[..|found| - 1]) + found[|found| - 1]
  }

  /** The source has the stamp it had when it was last described, and the server has what it was. */
  predicate Unchanged(c: Client, o: Options, before: Stamps, item: Item) {
    && !o.all && o.stamped && item.source != "" && item.stamp != "" && item.source in before
    && var last := before[item.source];
    && last.stamp == item.stamp && last.digest != ""
    && last.key in c.acks && c.acks[last.key].digest == last.digest && c.acks[last.key].machine == c.machine
  }

  /** The only item found of an unchanged source. */
  predicate Alone(c: Client, o: Options, before: Stamps, joined: seq<Item>, item: Item) {
    Unchanged(c, o, before, item) && forall j :: j in joined && j.source == item.source ==> j == item
  }

  /** What is described is all that is found, each as often, but for sources the server has; and an
      unchanged source is not read. */
  ghost predicate Describes(facts: Facts, c: Client, o: Options, before: Stamps, found: seq<seq<Item>>,
      described: seq<Item>)
  {
    && multiset(described) <= multiset(Joined(found))
    && (forall i :: i in Joined(found) ==> i in described || (!o.all && o.stamped && AckedAtStamp(facts, c, i)))
    && forall i :: Alone(c, o, before, Joined(found), i) ==> i !in described
  }

  lemma AloneBefore(c: Client, o: Options, before: Stamps, found: seq<seq<Item>>, a: nat, item: Item)
    requires a < |found| && Alone(c, o, before, Joined(found[..a + 1]), item)
    ensures Alone(c, o, before, Joined(found[..a]), item) && forall j :: j in found[a] && j.source == item.source ==> j == item
  {
    assert found[..a + 1][..a] == found[..a];
  }

  lemma {:induction false} NoneOf(o: Options, described: seq<Item>, source: string)
    requires forall j :: j in described ==> j.source != source
    ensures LastOf(o, described, source) == None
  {
    if described != [] {
      NoneOf(o, described[..|described| - 1], source);
    }
  }

  /** So it is skipped, as long as it was not described. */
  lemma AloneSkipped(c: Client, o: Options, before: Stamps, r: Collection, found: seq<seq<Item>>, a: nat,
      described: seq<Item>, item: Item)
    requires a < |found| && Alone(c, o, before, Joined(found[..a + 1]), item) && Reported(c, o, before, r, described)
    requires multiset(described) <= multiset(Joined(found[..a])) && item !in described
    ensures Skips(c, o, r.stamps, item)
  {
    AloneBefore(c, o, before, found, a, item);
    forall j | j in described
      ensures j.source != item.source
    {
      assert j in multiset(described);
      assert j in multiset(Joined(found[..a]));
    }
    NoneOf(o, described, item.source);
    assert StampIs(o, before, r.stamps, described, item.source);
  }

  lemma DescribesMore(facts: Facts, c: Client, o: Options, before: Stamps, r: Collection, found: seq<seq<Item>>, a: nat,
      described: seq<Item>, more: seq<Item>)
    requires a < |found| && Describes(facts, c, o, before, found[..a], described) && multiset(more) <= multiset(found[a])
    requires forall i :: i in found[a] ==> i in more || (!o.all && o.stamped && AckedAtStamp(facts, c, i))
    requires Reported(c, o, before, r, described) && forall i :: i in more ==> !Skips(c, o, r.stamps, i)
    ensures Describes(facts, c, o, before, found[..a + 1], described + more)
  {
    assert found[..a + 1][..a] == found[..a];
    forall i | Alone(c, o, before, Joined(found[..a + 1]), i)
      ensures i !in described + more
    {
      AloneBefore(c, o, before, found, a, i);
      AloneSkipped(c, o, before, r, found, a, described, i);
    }
  }

  /** Collect, up to writing the archives. */
  method Collect(c: Client, o: Options, ghost facts: Facts, stamps: Stamps, found: seq<seq<Item>>)
      returns (r: Collection, ghost described: seq<Item>)
    requires StampsTrue(facts, stamps) && forall a, i :: 0 <= a < |found| && i in found[a] ==> ItemTrue(facts, i)
    ensures Collects(facts, c, o, r, AllItems(found))
    ensures Reported(c, o, stamps, r, described) && Describes(facts, c, o, stamps, found, described)
  {
    r, described := Collection(stamps, {}, [], []), [];
    NothingYet(facts, c, o, stamps);
    NothingReported(c, o, stamps);
    var a := 0;
    while a < |found|
      invariant 0 <= a <= |found| && Collects(facts, c, o, r, AllItems(found[..a]))
      invariant Reported(c, o, stamps, r, described) && Describes(facts, c, o, stamps, found[..a], described)
    {
      ghost var more, was := [], r;
      r, more := CollectAdapter(c, o, facts, r, found[a], AllItems(found[..a]), stamps, described);
      DescribesMore(facts, c, o, stamps, was, found, a, described, more);
      described := described + more;
      assert found[..a + 1][..a] == found[..a];
      a := a + 1;
    }
    assert found[..a] == found;
  }

  lemma OneLess(a: multiset<Item>, b: multiset<Item>, x: Item)
    requires a + multiset{x} <= b + multiset{x}
    ensures a <= b
  {
    forall y
      ensures a[y] <= b[y]
    {
      assert (a + multiset{x})[y] <= (b + multiset{x})[y];
    }
  }

  lemma {:induction false} TimesAtMost(described: seq<Item>, joined: seq<Item>, key: Key)
    requires multiset(described) <= multiset(joined)
    ensures Times(described, key) <= Times(joined, key)
    decreases |described|
  {
    if described != [] {
      var m := |described| - 1;
      var last := described[m];
      assert described == described[..m] + [last];
      assert multiset(joined)[last] > 0 && last in joined;
      var at :| 0 <= at < |joined| && joined[at] == last;
      var rest := joined[..at] + joined[at + 1..];
      assert joined == joined[..at] + [last] + joined[at + 1..];
      OneLess(multiset(described[..m]), multiset(rest), last);
      TimesAtMost(described[..m], rest, key);
      TimesJoins(joined[..at], joined[at + 1..], key);
      TimesJoins(joined[..at] + [last], joined[at + 1..], key);
      assert (joined[..at] + [last])[..at] == joined[..at];
    }
  }

  lemma {:induction false} TimesJoins(a: seq<Item>, b: seq<Item>, key: Key)
    ensures Times(a + b, key) == Times(a, key) + Times(b, key)
  {
    if b == [] {
      assert a + b == a;
    } else {
      assert (a + b)[..|a + b| - 1] == a + b[..|b| - 1];
      TimesJoins(a, b[..|b| - 1], key);
    }
  }

  /** A trace found once is never called a repeat. */
  lemma {:induction false} FoundOnce(facts: Facts, c: Client, o: Options, stamps: Stamps, r: Collection, found: seq<seq<Item>>,
      described: seq<Item>, key: Key)
    requires Reported(c, o, stamps, r, described) && Describes(facts, c, o, stamps, found, described)
    requires Times(Joined(found), key) <= 1
    ensures DuplicateTrace(key) !in r.warnings
  {
    TimesAtMost(described, Joined(found), key);
    assert ReportedOf(r, described, key);
    assert multiset(r.warnings)[DuplicateTrace(key)] == 0;
  }
}
