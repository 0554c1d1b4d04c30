/** buildTranscriptSession: entries for all groups, their parents, and the loops cut. */
module Session {
  import opened Utf8
  import opened ParentGraph
  import opened SessionGroups
  import opened SessionEntries

  /** What linking needs of a group: its first and last entries, its recorded parent, and the entry
      before it. */
  datatype Record = Record(key: string, first: nat, last: nat, parentKey: string, nativeParent: string, previous: Option<nat>)

  // ---- eventEntries

  function NameAll(names: map<string, nat>, keys: seq<string>, owner: nat): map<string, nat> {
    if keys == [] then names else NameAll(names, keys[..|keys| - 1], owner)[keys[|keys| - 1] := owner]
  }

  /** An event's id, key and aliases name its entry. */
  function Names(names: map<string, nat>, group: seq<Event>, owners: seq<nat>): map<string, nat>
    requires |owners| == |group|
  {
    if group == [] then names
    else
      var n := |group| - 1;
      NameAll(Names(names, group[..n], owners[..n]), [Decimal(group[n].id), group[n].key] + group[n].aliases, owners[n])
  }

  ghost predicate IsEntry(entries: seq<Entry>, id: nat) {
    exists n :: 0 <= n < |entries| && entries[n].id == id
  }

  ghost predicate NamesKnown(entries: seq<Entry>, names: map<string, nat>) {
    forall key :: key in names ==> IsEntry(entries, names[key])
  }

  lemma {:induction false} NameAllKnown(entries: seq<Entry>, names: map<string, nat>, keys: seq<string>, owner: nat)
    requires NamesKnown(entries, names) && IsEntry(entries, owner)
    ensures NamesKnown(entries, NameAll(names, keys, owner))
  {
    if keys != [] {
      NameAllKnown(entries, names, keys[..|keys| - 1], owner);
    }
  }

  lemma {:induction false} NamesAreKnown(entries: seq<Entry>, start: nat, names: map<string, nat>, group: seq<Event>,
      owners: seq<nat>)
    requires NamesKnown(entries, names) && Owned(entries, start, group, owners)
    ensures NamesKnown(entries, Names(names, group, owners))
  {
    if group != [] {
      var n := |group| - 1;
      assert OwnedBy(entries, start, group[n], owners[n]);
      NamesAreKnown(entries, start, names, group[..n], owners[..n]);
      NameAllKnown(entries, Names(names, group[..n], owners[..n]), [Decimal(group[n].id), group[n].key] + group[n].aliases, owners[n]);
    }
  }

  // ---- Entries of the groups so far

  ghost predicate Starts(records: seq<Record>, n: nat) {
    exists i :: 0 <= i < |records| && records[i].first == n
  }

  /** An entry follows the one before it, unless it is the first of its group. */
  ghost predicate EntryPlaced(entries: seq<Entry>, records: seq<Record>, n: nat)
    requires n < |entries|
  {
    Fits(entries[n]) && if Starts(records, n) then entries[n].parentId == None else n > 0 && entries[n].parentId == Some(entries[n - 1].id)
  }

  ghost predicate RecordOk(entries: seq<Entry>, record: Record) {
    && record.first <= record.last < |entries|
    && record.previous == (if record.first == 0 then None else Some(entries[record.first - 1].id))
  }

  ghost predicate Built(entries: seq<Entry>, records: seq<Record>, names: map<string, nat>, done: multiset<Event>) {
    && AllSources(entries) == done && NamesKnown(entries, names)
    && (forall n {:trigger EntryPlaced(entries, records, n)} :: 0 <= n < |entries| ==> EntryPlaced(entries, records, n))
    && (forall i :: 0 <= i < |records| ==> RecordOk(entries, records[i]))
    && (forall i, j :: 0 <= i < j < |records| ==> records[i].first != records[j].first)
  }

  function NewRecord(before: seq<Entry>, entries: seq<Entry>, key: string, group: seq<Event>): Record
    requires |before| < |entries| && group != []
  {
    var previous := if before == [] then None else Some(before[|before| - 1].id);
    Record(key, |before|, |entries| - 1, group[0].parentKey, group[0].nativeParent, previous)
  }

  lemma PlacedMore(before: seq<Entry>, entries: seq<Entry>, records: seq<Record>, record: Record, n: nat)
    requires before <= entries && Good(entries, |before|) && record.first == |before| && n < |entries|
    requires forall i :: 0 <= i < |records| ==> records[i].first < |before|
    requires n < |before| ==> EntryPlaced(before, records, n)
    ensures EntryPlaced(entries, records + [record], n)
  {
    var more := records + [record];
    assert more[|records|] == record;
    assert Starts(more, n) <==> Starts(records, n) || n == |before| by {
      if Starts(records, n) {
        var i :| 0 <= i < |records| && records[i].first == n;
        assert more[i].first == n;
      }
    }
    if n >= |before| {
      assert EntryOk(entries, |before|, n);
    }
  }

  lemma NamesStay(before: seq<Entry>, entries: seq<Entry>, names: map<string, nat>)
    requires before <= entries && NamesKnown(before, names)
    ensures NamesKnown(entries, names)
  {
    forall key | key in names
      ensures IsEntry(entries, names[key])
    {
      var n :| 0 <= n < |before| && before[n].id == names[key];
      assert entries[n].id == names[key];
    }
  }

  lemma {:induction false} BuiltMore(before: seq<Entry>, records: seq<Record>, names: map<string, nat>,
      done: multiset<Event>, entries: seq<Entry>, key: string, group: seq<Event>, owners: seq<nat>)
    requires Built(before, records, names, done) && group != []
    requires Added(before, entries, group) && Owned(entries, |before|, group, owners)
    ensures Built(entries, records + [NewRecord(before, entries, key, group)], Names(names, group, owners), done + multiset(group))
  {
    var more := records + [NewRecord(before, entries, key, group)];
    forall i | 0 <= i < |records|
      ensures RecordOk(entries, records[i]) && records[i].first < |before|
    {
      assert RecordOk(before, records[i]);
    }
    forall n: nat | n < |entries|
      ensures EntryPlaced(entries, more, n)
    {
      if n < |before| {
        assert EntryPlaced(before, records, n);
      }
      PlacedMore(before, entries, records, NewRecord(before, entries, key, group), n);
    }
    NamesStay(before, entries, names);
    NamesAreKnown(entries, |before|, names, group, owners);
  }

  /** The events of groups in order. */
  function EventsIn(ordered: seq<string>, groups: map<string, seq<Event>>): multiset<Event>
    requires forall k :: k in ordered ==> k in groups
  {
    if ordered == [] then multiset{}
    else EventsIn(ordered[..|ordered| - 1], groups) + multiset(groups[ordered[|ordered| - 1]])
  }

  // ---- What the records and names are

  /** Each group in order, by key, with the entries of its events in order. */
  datatype Plan = Plan(ordered: seq<string>, groups: map<string, seq<Event>>, owners: seq<seq<nat>>)

  ghost predicate PlanOk(plan: Plan) {
    && |plan.owners| == |plan.ordered|
    && forall i {:trigger GroupOk(plan, i)} :: 0 <= i < |plan.ordered| ==> GroupOk(plan, i)
  }

  ghost predicate GroupOk(plan: Plan, i: nat)
    requires i < |plan.ordered| == |plan.owners|
  {
    && plan.ordered[i] in plan.groups && plan.groups[plan.ordered[i]] != []
    && |plan.owners[i]| == |Sort(plan.groups[plan.ordered[i]])| == |plan.groups[plan.ordered[i]]|
  }

  function Front(plan: Plan): Plan
    requires |plan.ordered| == |plan.owners| > 0
  {
    Plan(plan.ordered[..|plan.ordered| - 1], plan.groups, plan.owners[..|plan.owners| - 1])
  }

  lemma FrontOk(plan: Plan)
    requires PlanOk(plan) && plan.ordered != []
    ensures PlanOk(Front(plan))
  {
    forall i: nat | i < |Front(plan).ordered|
      ensures GroupOk(Front(plan), i)
    {
      assert GroupOk(plan, i);
    }
  }

  /** eventEntries after the groups: an id, key or alias that several events use names the entry of
      the last of them. */
  ghost function AllNames(plan: Plan): map<string, nat>
    requires PlanOk(plan)
    decreases |plan.ordered|
  {
    if plan.ordered == [] then map[]
    else
      var n := |plan.ordered| - 1;
      FrontOk(plan);
      assert GroupOk(plan, n);
      Names(AllNames(Front(plan)), Sort(plan.groups[plan.ordered[n]]), plan.owners[n])
  }

  /** Record i is of group i: its entries come right after the last group's, and hold its events. */
  ghost predicate RecordIs(plan: Plan, entries: seq<Entry>, records: seq<Record>, i: nat)
    requires PlanOk(plan) && i < |records| == |plan.ordered|
  {
    && GroupOk(plan, i)
    && var r, group := records[i], Sort(plan.groups[plan.ordered[i]]);
    && r.key == plan.ordered[i] && r.parentKey == group[0].parentKey && r.nativeParent == group[0].nativeParent
    && r.first == (if i == 0 then 0 else records[i - 1].last + 1) && r.first <= r.last < |entries|
    && Added(entries[..r.first], entries[..r.last + 1], group)
    && Owned(entries[..r.last + 1], r.first, group, plan.owners[i])
  }

  ghost predicate Recorded(plan: Plan, entries: seq<Entry>, records: seq<Record>, names: map<string, nat>) {
    && PlanOk(plan) && |records| == |plan.ordered| && names == AllNames(plan)
    && |entries| == (if records == [] then 0 else records[|records| - 1].last + 1)
    && forall i {:trigger RecordIs(plan, entries, records, i)} :: 0 <= i < |records| ==>
      RecordIs(plan, entries, records, i)
  }

  function PlanMore(plan: Plan, key: string, owners: seq<nat>): Plan {
    Plan(plan.ordered + [key], plan.groups, plan.owners + [owners])
  }

  lemma {:induction false} PlanMoreOk(plan: Plan, key: string, owners: seq<nat>)
    requires PlanOk(plan) && key in plan.groups && plan.groups[key] != []
    requires |owners| == |Sort(plan.groups[key])| == |plan.groups[key]|
    ensures PlanOk(PlanMore(plan, key, owners)) && Front(PlanMore(plan, key, owners)) == plan
    ensures AllNames(PlanMore(plan, key, owners)) == Names(AllNames(plan), Sort(plan.groups[key]), owners)
  {
    var more := PlanMore(plan, key, owners);
    forall i: nat | i < |more.ordered|
      ensures GroupOk(more, i)
    {
      if i < |plan.ordered| {
        assert GroupOk(plan, i);
      }
    }
    assert more.ordered[..|plan.ordered|] == plan.ordered && more.owners[..|plan.owners|] == plan.owners;
  }

  lemma RecordStays(plan: Plan, before: seq<Entry>, records: seq<Record>, entries: seq<Entry>, key: string,
      owners: seq<nat>, record: Record, i: nat)
    requires PlanOk(plan) && PlanOk(PlanMore(plan, key, owners)) && before <= entries && i < |records| == |plan.ordered|
    requires RecordIs(plan, before, records, i)
    ensures RecordIs(PlanMore(plan, key, owners), entries, records + [record], i)
  {
    assert GroupOk(PlanMore(plan, key, owners), i);
    assert entries[..records[i].first] == before[..records[i].first];
    assert entries[..records[i].last + 1] == before[..records[i].last + 1];
  }

  lemma RecordNew(plan: Plan, before: seq<Entry>, records: seq<Record>, names: map<string, nat>, entries: seq<Entry>,
      key: string, owners: seq<nat>)
    requires Recorded(plan, before, records, names) && PlanOk(PlanMore(plan, key, owners))
    requires key in plan.groups && plan.groups[key] != [] && |Sort(plan.groups[key])| == |plan.groups[key]|
    requires var group := Sort(plan.groups[key]); Added(before, entries, group) && Owned(entries, |before|, group, owners)
    ensures RecordIs(PlanMore(plan, key, owners), entries, records + [NewRecord(before, entries, key, Sort(plan.groups[key]))], |records|)
  {
    assert GroupOk(PlanMore(plan, key, owners), |records|);
    assert entries[..|before|] == before && entries[..|entries|] == entries;
  }

  lemma {:induction false} RecordedMore(plan: Plan, before: seq<Entry>, records: seq<Record>, names: map<string, nat>,
      entries: seq<Entry>, key: string, owners: seq<nat>)
    requires Recorded(plan, before, records, names)
    requires key in plan.groups && plan.groups[key] != []
    requires var group := Sort(plan.groups[key]); Added(before, entries, group) && Owned(entries, |before|, group, owners) && group != []
    ensures Recorded(PlanMore(plan, key, owners), entries,
      records + [NewRecord(before, entries, key, Sort(plan.groups[key]))], Names(names, Sort(plan.groups[key]), owners))
  {
    SortKeeps(plan.groups[key]);
    PlanMoreOk(plan, key, owners);
    var record := NewRecord(before, entries, key, Sort(plan.groups[key]));
    forall i: nat | i < |records| + 1
      ensures RecordIs(PlanMore(plan, key, owners), entries, records + [record], i)
    {
      if i < |records| {
        assert RecordIs(plan, before, records, i);
        RecordStays(plan, before, records, entries, key, owners, record, i);
      } else {
        RecordNew(plan, before, records, names, entries, key, owners);
      }
    }
  }

  lemma BuiltStarts(groups: map<string, seq<Event>>)
    ensures Built([], [], map[], multiset{}) && Recorded(Plan([], groups, []), [], [], map[])
  {
  }

  /** One turn of the loop: the entries of one group. */
  method AddRecord(before: seq<Entry>, records: seq<Record>, names: map<string, nat>, ghost done: multiset<Event>,
      ghost plan: Plan, key: string, group: seq<Event>)
    returns (entries: seq<Entry>, more: seq<Record>, named: map<string, nat>, ghost planned: Plan)
    requires Built(before, records, names, done) && group != []
    requires Recorded(plan, before, records, names) && key in plan.groups && plan.groups[key] == group
    ensures Built(entries, more, named, done + multiset(group)) && |more| == |records| + 1
    ensures Recorded(planned, entries, more, named) && planned.ordered == plan.ordered + [key]
    ensures planned.groups == plan.groups
  {
    var sorted := Sort(group);
    SortKeeps(group);
    SortAscends(group);
    var owners;
    entries, owners := AddGroup(before, sorted);
    BuiltMore(before, records, names, done, entries, key, sorted, owners);
    RecordedMore(plan, before, records, names, entries, key, owners);
    more := records + [NewRecord(before, entries, key, sorted)];
    named := Names(names, sorted, owners);
    planned := PlanMore(plan, key, owners);
  }

  method BuildEntries(ordered: seq<string>, groups: map<string, seq<Event>>)
      returns (entries: seq<Entry>, records: seq<Record>, names: map<string, nat>, ghost plan: Plan)
    requires forall k :: k in ordered ==> k in groups && groups[k] != []
    ensures Built(entries, records, names, EventsIn(ordered, groups)) && |records| == |ordered|
    ensures Recorded(plan, entries, records, names) && plan.ordered == ordered && plan.groups == groups
  {
    entries, records, names := [], [], map[];
    plan := Plan([], groups, []);
    BuiltStarts(groups);
    var i := 0;
    while i < |ordered|
      invariant i <= |ordered| && Built(entries, records, names, EventsIn(ordered[..i], groups)) && |records| == i
      invariant Recorded(plan, entries, records, names) && plan.ordered == ordered[..i] && plan.groups == groups
    {
      assert ordered[..i + 1][..i] == ordered[..i] && ordered[..i + 1] == ordered[..i] + [ordered[i]];
      entries, records, names, plan :=
        AddRecord(entries, records, names, EventsIn(ordered[..i], groups), plan, ordered[i], groups[ordered[i]]);
      i := i + 1;
    }
    assert ordered[..i] == ordered;
  }

  // ---- Parents

  /** groupEntries: where the entries of each group end. */
  function Lasts(records: seq<Record>): map<string, nat> {
    if records == [] then map[] else Lasts(records[..|records| - 1])[records[|records| - 1].key := records[|records| - 1].last]
  }

  lemma {:induction false} LastsAre(records: seq<Record>, key: string)
    requires key in Lasts(records)
    ensures exists i :: 0 <= i < |records| && records[i].key == key && records[i].last == Lasts(records)[key]
  {
    var n := |records| - 1;
    if records[n].key != key {
      LastsAre(records[..n], key);
      var i :| 0 <= i < n && records[..n][i].key == key && records[..n][i].last == Lasts(records)[key];
      assert records[i] == records[..n][i];
    }
  }

  /** The message a group says it answers: natively, or read off its parent's key. */
  function NativeParent(record: Record): string {
    Answered(record.parentKey, record.nativeParent)
  }

  function Answered(parentKey: string, nativeParent: string): string {
    if nativeParent != "" then nativeParent else if parentKey != "" then KeyMessage(parentKey) else ""
  }

  /** The entry a group's recorded parent is found at. */
  function Found(entries: seq<Entry>, lasts: map<string, nat>, names: map<string, nat>, record: Record): Option<nat>
    requires forall key :: key in lasts ==> lasts[key] < |entries|
  {
    var native := NativeParent(record);
    if native != "" && native in lasts then Some(entries[lasts[native]].id)
    else if record.parentKey != "" && record.parentKey in names then Some(names[record.parentKey])
    else None
  }

  function Missing(entries: seq<Entry>, lasts: map<string, nat>, names: map<string, nat>, records: seq<Record>): nat
    requires forall key :: key in lasts ==> lasts[key] < |entries|
  {
    if records == [] then 0
    else
      var last := records[|records| - 1];
      Missing(entries, lasts, names, records[..|records| - 1]) +
        (if NativeParent(last) != "" && Found(entries, lasts, names, last).None? then 1 else 0)
  }

  predicate IsLost(entries: seq<Entry>, lasts: map<string, nat>, names: map<string, nat>, record: Record)
    requires forall key :: key in lasts ==> lasts[key] < |entries|
  {
    NativeParent(record) != "" && Found(entries, lasts, names, record).None?
  }

  /** The groups that name a parent which is not found. */
  function Lost(entries: seq<Entry>, lasts: map<string, nat>, names: map<string, nat>, records: seq<Record>, n: nat): set<nat>
    requires (forall key :: key in lasts ==> lasts[key] < |entries|) && n <= |records|
  {
    set i: nat | i < n && IsLost(entries, lasts, names, records[i])
  }

  lemma LostMore(entries: seq<Entry>, lasts: map<string, nat>, names: map<string, nat>, records: seq<Record>, n: nat)
    requires (forall key :: key in lasts ==> lasts[key] < |entries|) && n < |records|
    ensures |Lost(entries, lasts, names, records, n + 1)| ==
      |Lost(entries, lasts, names, records, n)| + (if IsLost(entries, lasts, names, records[n]) then 1 else 0)
  {
    CountMore(Lost(entries, lasts, names, records, n), Lost(entries, lasts, names, records, n + 1), n,
      IsLost(entries, lasts, names, records[n]));
  }

  lemma CountMore(a: set<nat>, b: set<nat>, n: nat, more: bool)
    requires n !in a && forall i: nat :: i in b <==> i in a || (more && i == n)
    ensures |b| == |a| + (if more then 1 else 0)
  {
    assert b == if more then a + {n} else a;
  }

  /** That many are counted as missing. */
  lemma {:induction false} MissingCounts(entries: seq<Entry>, lasts: map<string, nat>, names: map<string, nat>,
      records: seq<Record>, n: nat)
    requires (forall key :: key in lasts ==> lasts[key] < |entries|) && n <= |records|
    ensures Missing(entries, lasts, names, records[..n]) == |Lost(entries, lasts, names, records, n)|
  {
    if n == 0 {
      assert Lost(entries, lasts, names, records, 0) == {};
    } else {
      assert records[..n][..n - 1] == records[..n - 1];
      MissingCounts(entries, lasts, names, records, n - 1);
      LostMore(entries, lasts, names, records, n - 1);
    }
  }

  function LinkedParent(entries: seq<Entry>, lasts: map<string, nat>, names: map<string, nat>,
      record: Record): Option<nat>
    requires forall key :: key in lasts ==> lasts[key] < |entries|
  {
    var found := Found(entries, lasts, names, record);
    if found.Some? then found else record.previous
  }

  ghost predicate LinkedAt(entries: seq<Entry>, linked: seq<Entry>, lasts: map<string, nat>, names: map<string, nat>,
      records: seq<Record>, i: nat)
    requires forall key :: key in lasts ==> lasts[key] < |entries|
    requires i < |records| && records[i].first < |linked|
  {
    linked[records[i].first].parentId == LinkedParent(entries, lasts, names, records[i])
  }

  /** The first k groups have their parents; the other entries are as they were. */
  ghost predicate Linking(entries: seq<Entry>, linked: seq<Entry>, lasts: map<string, nat>, names: map<string, nat>,
      records: seq<Record>, k: nat)
    requires forall key :: key in lasts ==> lasts[key] < |entries|
    requires k <= |records| && forall i :: 0 <= i < |records| ==> records[i].first < |entries|
  {
    && |linked| == |entries|
    && (forall n :: 0 <= n < |entries| ==> linked[n] == entries[n].(parentId := linked[n].parentId))
    && (forall n :: 0 <= n < |entries| && !Starts(records[..k], n) ==> linked[n] == entries[n])
    && (forall i {:trigger LinkedAt(entries, linked, lasts, names, records, i)} :: 0 <= i < k ==>
      LinkedAt(entries, linked, lasts, names, records, i))
  }

  lemma LinkingMore(entries: seq<Entry>, linked: seq<Entry>, lasts: map<string, nat>, names: map<string, nat>,
      records: seq<Record>, k: nat, parent: Option<nat>)
    requires (forall key :: key in lasts ==> lasts[key] < |entries|) && k < |records|
    requires forall i :: 0 <= i < |records| ==> records[i].first < |entries|
    requires Linking(entries, linked, lasts, names, records, k)
    requires forall i, j :: 0 <= i < j < |records| ==> records[i].first != records[j].first
    requires parent == LinkedParent(entries, lasts, names, records[k])
    ensures Linking(entries, linked[records[k].first := linked[records[k].first].(parentId := parent)], lasts, names, records, k + 1)
  {
    var after := linked[records[k].first := linked[records[k].first].(parentId := parent)];
    assert records[..k + 1][k] == records[k];
    forall n | Starts(records[..k], n)
      ensures Starts(records[..k + 1], n)
    {
      var i :| 0 <= i < k && records[..k][i].first == n;
      assert records[..k + 1][i].first == n;
    }
    forall i: nat | i < k + 1
      ensures LinkedAt(entries, after, lasts, names, records, i)
    {
      if i < k {
        assert LinkedAt(entries, linked, lasts, names, records, i);
      }
    }
  }

  lemma {:induction false} LastsKnown(entries: seq<Entry>, records: seq<Record>)
    requires forall i :: 0 <= i < |records| ==> RecordOk(entries, records[i])
    ensures forall key :: key in Lasts(records) ==> Lasts(records)[key] < |entries|
  {
    forall key | key in Lasts(records)
      ensures Lasts(records)[key] < |entries|
    {
      LastsAre(records, key);
      var i :| 0 <= i < |records| && records[i].key == key && records[i].last == Lasts(records)[key];
      assert RecordOk(entries, records[i]);
    }
  }

  lemma {:induction false} LinkingStarts(entries: seq<Entry>, lasts: map<string, nat>, names: map<string, nat>,
      records: seq<Record>)
    requires forall key :: key in lasts ==> lasts[key] < |entries|
    requires forall i :: 0 <= i < |records| ==> records[i].first < |entries|
    ensures Linking(entries, entries, lasts, names, records, 0)
    ensures records[..|records|] == records && Missing(entries, lasts, names, records[..0]) == 0
  {
  }

  /** One turn of the loop: the first entry of group k follows its recorded parent, or else the
      entry before it. */
  method LinkOne(entries: seq<Entry>, before: seq<Entry>, lasts: map<string, nat>, names: map<string, nat>,
      records: seq<Record>, k: nat, missed: nat)
    returns (linked: seq<Entry>, missing: nat)
    requires (forall key :: key in lasts ==> lasts[key] < |entries|) && k < |records|
    requires forall i :: 0 <= i < |records| ==> records[i].first < |entries|
    requires forall i, j :: 0 <= i < j < |records| ==> records[i].first != records[j].first
    requires Linking(entries, before, lasts, names, records, k)
    requires missed == Missing(entries, lasts, names, records[..k])
    ensures Linking(entries, linked, lasts, names, records, k + 1)
    ensures missing == Missing(entries, lasts, names, records[..k + 1])
  {
    assert records[..k + 1][..k] == records[..k];
    var record := records[k];
    var found := Found(entries, lasts, names, record);
    missing := if NativeParent(record) != "" && found.None? then missed + 1 else missed;
    var parent := if found.Some? then found else record.previous;
    LinkingMore(entries, before, lasts, names, records, k, parent);
    linked := before[record.first := before[record.first].(parentId := parent)];
  }

  method Link(entries: seq<Entry>, records: seq<Record>, names: map<string, nat>)
      returns (linked: seq<Entry>, missing: nat)
    requires forall i :: 0 <= i < |records| ==> records[i].first < |entries|
    requires forall i, j :: 0 <= i < j < |records| ==> records[i].first != records[j].first
    requires forall key :: key in Lasts(records) ==> Lasts(records)[key] < |entries|
    ensures Linking(entries, linked, Lasts(records), names, records, |records|)
    ensures missing == Missing(entries, Lasts(records), names, records)
  {
    var lasts := Lasts(records);
    linked, missing := entries, 0;
    var k := 0;
    LinkingStarts(entries, lasts, names, records);
    while k < |records|
      invariant k <= |records| && Linking(entries, linked, lasts, names, records, k)
      invariant missing == Missing(entries, lasts, names, records[..k])
    {
      linked, missing := LinkOne(entries, linked, lasts, names, records, k, missing);
      k := k + 1;
    }
  }

  ghost predicate ParentKnown(entries: seq<Entry>, n: nat)
    requires n < |entries|
  {
    (n > 0 ==> entries[n].parentId.Some?) && (entries[n].parentId.Some? ==> IsEntry(entries, entries[n].parentId.value))
  }

  /** Every entry but the first has a parent, and every parent is an entry. */
  ghost predicate ParentsKnown(entries: seq<Entry>) {
    forall n {:trigger ParentKnown(entries, n)} :: 0 <= n < |entries| ==> ParentKnown(entries, n)
  }

  lemma SameIds(a: seq<Entry>, b: seq<Entry>, id: nat)
    requires |a| == |b| && (forall n :: 0 <= n < |a| ==> a[n].id == b[n].id) && IsEntry(a, id)
    ensures IsEntry(b, id)
  {
    var n :| 0 <= n < |a| && a[n].id == id;
    assert b[n].id == id;
  }

  lemma FoundKnown(entries: seq<Entry>, lasts: map<string, nat>, names: map<string, nat>, record: Record)
    requires (forall key :: key in lasts ==> lasts[key] < |entries|) && NamesKnown(entries, names)
    ensures Found(entries, lasts, names, record).Some? ==> IsEntry(entries, Found(entries, lasts, names, record).value)
  {
  }

  lemma {:induction false} LinkedEntry(entries: seq<Entry>, linked: seq<Entry>, records: seq<Record>,
      names: map<string, nat>, done: multiset<Event>, n: nat)
    requires Built(entries, records, names, done)
    requires (forall key :: key in Lasts(records) ==> Lasts(records)[key] < |entries|)
    requires (forall i :: 0 <= i < |records| ==> records[i].first < |entries|)
    requires Linking(entries, linked, Lasts(records), names, records, |records|) && n < |linked|
    ensures n > 0 ==> linked[n].parentId.Some?
    ensures linked[n].parentId.Some? ==> IsEntry(entries, linked[n].parentId.value)
  {
    assert records[..|records|] == records;
    assert EntryPlaced(entries, records, n);
    if Starts(records, n) {
      var i :| 0 <= i < |records| && records[i].first == n;
      FoundKnown(entries, Lasts(records), names, records[i]);
      assert LinkedAt(entries, linked, Lasts(records), names, records, i);
      assert RecordOk(entries, records[i]);
      assert n > 0 ==> IsEntry(entries, entries[n - 1].id);
    } else {
      assert IsEntry(entries, entries[n - 1].id);
    }
  }

  lemma {:induction false} LinkedKnown(entries: seq<Entry>, linked: seq<Entry>, records: seq<Record>,
      names: map<string, nat>, done: multiset<Event>)
    requires Built(entries, records, names, done)
    requires (forall key :: key in Lasts(records) ==> Lasts(records)[key] < |entries|)
    requires (forall i :: 0 <= i < |records| ==> records[i].first < |entries|)
    requires Linking(entries, linked, Lasts(records), names, records, |records|)
    ensures ParentsKnown(linked) && AllSources(linked) == done && forall n :: 0 <= n < |linked| ==> Fits(linked[n])
  {
    forall n: nat | n < |linked|
      ensures ParentKnown(linked, n) && Fits(linked[n])
    {
      LinkedEntry(entries, linked, records, names, done, n);
      assert EntryPlaced(entries, records, n);
      if linked[n].parentId.Some? {
        SameIds(entries, linked, linked[n].parentId.value);
      }
    }
    SourcesSame(entries, linked);
  }

  // ---- The session

  ghost predicate IdsDistinct(entries: seq<Entry>) {
    forall m, n :: 0 <= m < n < |entries| ==> entries[m].id != entries[n].id
  }

  function Ids(entries: seq<Entry>): (ids: seq<nat>)
    ensures |ids| == |entries| && forall n :: 0 <= n < |ids| ==> ids[n] == entries[n].id
  {
    seq(|entries|, n requires 0 <= n < |entries| => entries[n].id)
  }

  /** parentId by entry id. */
  function Parents(entries: seq<Entry>): map<nat, nat>
    requires IdsDistinct(entries)
  {
    map n | 0 <= n < |entries| && entries[n].parentId.Some? :: entries[n].id := entries[n].parentId.value
  }

  ghost predicate DistinctEvents(events: seq<Event>) {
    forall m, n :: 0 <= m < n < |events| ==> events[m].id != events[n].id
  }

  lemma {:induction false} OneOfEach(events: seq<Event>, e: Event)
    requires DistinctEvents(events)
    ensures multiset(events)[e] <= 1
  {
    if events != [] {
      var front, last := events[..|events| - 1], events[|events| - 1];
      assert events == front + [last];
      OneOfEach(front, e);
      assert forall m :: 0 <= m < |front| ==> front[m].id != last.id;
    }
  }

  lemma {:induction false} SourceKnown(entries: seq<Entry>, events: seq<Event>, n: nat)
    requires AllSources(entries) == multiset(events) && n < |entries| && Fits(entries[n])
    ensures entries[n].sources[0] in events
  {
    SourcesHold(entries, n, entries[n].sources[0]);
    assert entries[n].sources[0] in multiset(events);
  }

  lemma {:induction false} SourcesDiffer(entries: seq<Entry>, events: seq<Event>, m: nat, n: nat)
    requires DistinctEvents(events) && AllSources(entries) == multiset(events)
    requires m < n < |entries| && Fits(entries[m]) && Fits(entries[n])
    ensures entries[m].sources[0] != entries[n].sources[0]
  {
    OneOfEach(events, entries[m].sources[0]);
    if entries[m].sources[0] == entries[n].sources[0] {
      SourcesTwice(entries, m, n, entries[m].sources[0]);
    }
  }

  lemma {:induction false} EntriesApart(entries: seq<Entry>, events: seq<Event>)
    requires DistinctEvents(events) && AllSources(entries) == multiset(events) && forall n :: 0 <= n < |entries| ==>
      Fits(entries[n])
    ensures IdsDistinct(entries)
  {
    forall n | 0 <= n < |entries|
      ensures entries[n].sources[0] in events
    {
      SourceKnown(entries, events, n);
    }
    forall m, n | 0 <= m < n < |entries|
      ensures entries[m].sources[0] != entries[n].sources[0]
    {
      SourcesDiffer(entries, events, m, n);
    }
  }

  /** Every event is a source of exactly one entry. */
  lemma {:induction false} OneEntryEach(entries: seq<Entry>, events: seq<Event>, e: Event)
    requires DistinctEvents(events) && AllSources(entries) == multiset(events) && e in events
    ensures exists n: nat :: OnlySource(entries, e, n)
  {
    assert multiset(events)[e] >= 1;
    var n := SourcesFrom(entries, e);
    OneOfEach(events, e);
    forall m: nat | m < |entries| && e in entries[m].sources
      ensures m == n
    {
      if m < n {
        SourcesTwice(entries, m, n, e);
      } else if n < m {
        SourcesTwice(entries, n, m, e);
      }
    }
    assert OnlySource(entries, e, n);
  }

  /** The event is a source of this entry and of no other. */
  ghost predicate OnlySource(entries: seq<Entry>, e: Event, n: nat) {
    && n < |entries| && e in entries[n].sources
    && forall m: nat :: m < |entries| && e in entries[m].sources ==> m == n
  }

  // ---- Groups hold each event once

  lemma {:induction false} GroupCount(events: seq<Event>, key: string, e: Event)
    ensures multiset(GroupOf(events, key))[e] == if NativeMessageKey(e) == key then multiset(events)[e] else 0
  {
    if events != [] {
      var front, last := events[..|events| - 1], events[|events| - 1];
      assert events == front + [last];
      GroupCount(front, key, e);
    }
  }

  lemma {:induction false} GroupsCount(events: seq<Event>, keys: seq<string>, groups: map<string, seq<Event>>,
      ordered: seq<string>, e: Event)
    requires Grouped(events, keys, groups) && Distinct(ordered) && forall k :: k in ordered ==> k in groups
    ensures EventsIn(ordered, groups)[e] == if NativeMessageKey(e) in ordered then multiset(events)[e] else 0
    decreases |ordered|
  {
    if ordered != [] {
      var front, last := ordered[..|ordered| - 1], ordered[|ordered| - 1];
      assert ordered == front + [last];
      GroupsCount(events, keys, groups, front, e);
      GroupCount(events, last, e);
    }
  }

  lemma {:induction false} GroupsHoldAll(events: seq<Event>, keys: seq<string>, groups: map<string, seq<Event>>,
      ordered: seq<string>)
    requires Grouped(events, keys, groups) && Distinct(ordered) && Elements(ordered) == Elements(keys)
    requires forall k :: k in ordered ==> k in groups
    ensures EventsIn(ordered, groups) == multiset(events)
  {
    forall e
      ensures EventsIn(ordered, groups)[e] == multiset(events)[e]
    {
      GroupsCount(events, keys, groups, ordered, e);
      if e in events {
        var n :| 0 <= n < |events| && events[n] == e;
        assert NativeMessageKey(events[n]) in Elements(ordered);
      } else {
        assert multiset(events)[e] == 0;
      }
    }
  }

  lemma {:induction false} RecordsKnown(entries: seq<Entry>, records: seq<Record>, names: map<string, nat>,
      done: multiset<Event>)
    requires Built(entries, records, names, done)
    ensures forall i :: 0 <= i < |records| ==> records[i].first < |entries|
    ensures forall key :: key in Lasts(records) ==> Lasts(records)[key] < |entries|
  {
    forall i | 0 <= i < |records|
      ensures records[i].first < |entries|
    {
      assert RecordOk(entries, records[i]);
    }
    LastsKnown(entries, records);
  }

  /** The links before loops are cut: groups come with every recorded parent first but for one link
      of each loop; in a group each entry follows the one before it; and the first follows its
      group's recorded parent, or else the entry before it. */
  ghost predicate LinksAre(plan: Plan, sorted: seq<string>, built: seq<Entry>, records: seq<Record>,
      names: map<string, nat>, linked: seq<Entry>, missing: nat)
  {
    && (forall k :: k in sorted ==> k in plan.groups) && (forall k :: k in plan.groups ==> plan.groups[k] != [])
    && ParentsFirst(GroupGraph(sorted, plan.groups), plan.ordered)
    && Recorded(plan, built, records, names)
    && (forall n {:trigger EntryPlaced(built, records, n)} :: 0 <= n < |built| ==> EntryPlaced(built, records, n))
    && (forall i :: 0 <= i < |records| ==> RecordOk(built, records[i]))
    && (forall key :: key in Lasts(records) ==> Lasts(records)[key] < |built|)
    && Linking(built, linked, Lasts(records), names, records, |records|)
    && missing == Missing(built, Lasts(records), names, records)
  }

  /** How a session was put together. */
  datatype Making = Making(sorted: seq<string>, plan: Plan, built: seq<Entry>, records: seq<Record>, names: map<string, nat>)

  ghost predicate Made(making: Making, linked: seq<Entry>, missing: nat) {
    LinksAre(making.plan, making.sorted, making.built, making.records, making.names, linked, missing)
  }

  /** The groups are the events by message, in the order of the sort with recorded parents first. */
  ghost predicate GroupsAre(events: seq<Event>, making: Making) {
    && Distinct(making.plan.ordered) && Grouped(events, making.plan.ordered, making.plan.groups)
    && Elements(making.sorted) == Elements(making.plan.ordered) && making.plan.groups == GroupsOf(events)
    && InOrder(making.sorted, making.plan)
  }

  ghost predicate InOrder(sorted: seq<string>, plan: Plan) {
    && (forall k :: k in sorted ==> k in plan.groups) && (forall k :: k in plan.groups ==> plan.groups[k] != [])
    && plan.ordered == OrderedGroups(sorted, plan.groups)
  }

  lemma OrderGroupsAll(events: seq<Event>, keys: seq<string>, groups: map<string, seq<Event>>, ordered: seq<string>)
    requires Grouped(events, keys, groups) && Distinct(ordered) && Elements(ordered) == Elements(keys)
    ensures Grouped(events, ordered, groups) && forall k :: k in ordered ==> k in groups && groups[k] != []
  {
    assert forall k :: k in ordered ==> k in Elements(ordered);
  }

  /** The entries with all links set, before loops are cut. */
  method BuildLinked(events: seq<Event>, keys: seq<string>, groups: map<string, seq<Event>>, sorted: seq<string>,
      ordered: seq<string>)
    returns (entries: seq<Entry>, missing: nat, ghost making: Making)
    requires Grouped(events, keys, groups) && Distinct(ordered)
    requires Elements(ordered) == Elements(keys) == Elements(sorted)
    requires (forall k :: k in sorted ==> k in groups) && ParentsFirst(GroupGraph(sorted, groups), ordered)
    requires ordered == OrderedGroups(sorted, groups) && groups == GroupsOf(events)
    ensures ParentsKnown(entries) && AllSources(entries) == multiset(events) && forall n :: 0 <= n < |entries| ==>
      Fits(entries[n])
    ensures Made(making, entries, missing) && GroupsAre(events, making) && making.sorted == sorted
  {
    OrderGroupsAll(events, keys, groups, ordered);
    var built, records, names;
    ghost var plan;
    built, records, names, plan := BuildEntries(ordered, groups);
    GroupsHoldAll(events, keys, groups, ordered);
    RecordsKnown(built, records, names, multiset(events));
    entries, missing := Link(built, records, names);
    LinkedKnown(built, entries, records, names, multiset(events));
    making := Making(sorted, plan, built, records, names);
  }

  lemma EntryIds(entries: seq<Entry>, id: nat)
    ensures IsEntry(entries, id) <==> id in Ids(entries)
  {
    if IsEntry(entries, id) {
      var n :| 0 <= n < |entries| && entries[n].id == id;
      assert Ids(entries)[n] == id;
    }
    if id in Ids(entries) {
      var n :| 0 <= n < |entries| && Ids(entries)[n] == id;
      assert entries[n].id == id;
    }
  }

  lemma ParentOf(entries: seq<Entry>, n: nat)
    requires IdsDistinct(entries) && n < |entries|
    ensures entries[n].id in Parents(entries) <==> entries[n].parentId.Some?
    ensures entries[n].parentId.Some? ==> Parents(entries)[entries[n].id] == entries[n].parentId.value
  {
  }

  lemma ParentsAmong(entries: seq<Entry>)
    requires IdsDistinct(entries) && ParentsKnown(entries)
    ensures forall x :: x in Parents(entries) ==> x in Ids(entries) && Parents(entries)[x] in Ids(entries)
    ensures Known(Parents(entries), Ids(entries)) == Parents(entries)
  {
    forall x | x in Parents(entries)
      ensures x in Ids(entries) && Parents(entries)[x] in Ids(entries)
    {
      var n: nat :| n < |entries| && entries[n].parentId.Some? && entries[n].id == x;
      assert Ids(entries)[n] == x;
      ParentOf(entries, n);
      assert ParentKnown(entries, n);
      EntryIds(entries, entries[n].parentId.value);
    }
  }

  /** Sets each entry's parent to what is left of its links. */
  function WithParents(entries: seq<Entry>, links: map<nat, nat>): (after: seq<Entry>)
    ensures |after| == |entries|
    ensures forall n :: 0 <= n < |entries| ==>
      after[n] == entries[n].(parentId := if entries[n].id in links then Some(links[entries[n].id]) else None)
  {
    seq(|entries|, n requires 0 <= n < |entries| =>
      entries[n].(parentId := if entries[n].id in links then Some(links[entries[n].id]) else None))
  }

  lemma WithParentsLinks(entries: seq<Entry>, links: map<nat, nat>)
    requires IdsDistinct(entries) && IdsDistinct(WithParents(entries, links)) && forall x :: x in links ==>
      IsEntry(entries, x)
    ensures Parents(WithParents(entries, links)) == links
  {
    var after := WithParents(entries, links);
    forall x | x in links
      ensures x in Parents(after) && Parents(after)[x] == links[x]
    {
      var n: nat :| n < |entries| && entries[n].id == x;
      ParentOf(after, n);
    }
    forall x | x in Parents(after)
      ensures x in links
    {
      var n: nat :| n < |after| && after[n].parentId.Some? && after[n].id == x;
    }
  }

  lemma {:induction false} WithParentsIs(entries: seq<Entry>, links: map<nat, nat>)
    requires IdsDistinct(entries) && forall x :: x in links ==> x in Ids(entries)
    ensures IdsDistinct(WithParents(entries, links)) && Parents(WithParents(entries, links)) == links
    ensures Ids(WithParents(entries, links)) == Ids(entries)
    ensures AllSources(WithParents(entries, links)) == AllSources(entries)
  {
    SourcesSame(WithParents(entries, links), entries);
    forall x | x in links
      ensures IsEntry(entries, x)
    {
      EntryIds(entries, x);
    }
    WithParentsLinks(entries, links);
  }

  /** What buildTranscriptSession promises of the entries it returns: each event is a source of one
      entry, the links were set as recorded, the parents left are a forest, and the links lost are
      one for each loop. */
  ghost predicate Whole(events: seq<Event>, making: Making, linked: seq<Entry>, missing: nat, entries: seq<Entry>,
      cut: seq<nat>, rank: map<nat, nat>)
  {
    && Made(making, linked, missing) && GroupsAre(events, making)
    && OnlyCut(events, linked, entries, cut, rank)
  }

  /** The entries are the linked ones but for the links cut. */
  ghost predicate OnlyCut(events: seq<Event>, linked: seq<Entry>, entries: seq<Entry>, cut: seq<nat>,
      rank: map<nat, nat>)
  {
    && AllSources(entries) == multiset(events) && SameButParents(linked, entries)
    && IdsDistinct(linked) && IdsDistinct(entries) && Ids(linked) == Ids(entries) && ParentsKnown(linked)
    && Forested(Ids(entries), Parents(linked), Parents(entries), cut, rank)
  }

  ghost predicate SameButParents(linked: seq<Entry>, entries: seq<Entry>) {
    |entries| == |linked| && forall n :: 0 <= n < |entries| ==>
      Fits(entries[n]) && entries[n] == linked[n].(parentId := entries[n].parentId)
  }

  lemma WithParentsFit(linked: seq<Entry>, links: map<nat, nat>)
    requires forall n :: 0 <= n < |linked| ==> Fits(linked[n])
    ensures SameButParents(linked, WithParents(linked, links))
  {
  }

  lemma {:induction false} CutIsForested(linked: seq<Entry>, links: map<nat, nat>, cut: seq<nat>, rank: map<nat, nat>)
    requires IdsDistinct(linked) && ParentsKnown(linked) && Forested(Ids(linked), Parents(linked), links, cut, rank)
    ensures var entries := WithParents(linked, links);
      && IdsDistinct(entries) && Ids(linked) == Ids(entries) && AllSources(entries) == AllSources(linked)
      && Forested(Ids(entries), Parents(linked), Parents(entries), cut, rank)
  {
    ParentsAmong(linked);
    WithParentsIs(linked, links);
  }

  lemma {:induction false} CutIsWhole(events: seq<Event>, linked: seq<Entry>, links: map<nat, nat>, cut: seq<nat>,
      rank: map<nat, nat>)
    requires AllSources(linked) == multiset(events) && IdsDistinct(linked) && ParentsKnown(linked)
    requires forall n :: 0 <= n < |linked| ==> Fits(linked[n])
    requires Forested(Ids(linked), Parents(linked), links, cut, rank)
    ensures OnlyCut(events, linked, WithParents(linked, links), cut, rank)
  {
    CutIsForested(linked, links, cut, rank);
    WithParentsFit(linked, links);
  }

  /** Some making and links, and some rank of the forest, show that the entries are the session. */
  ghost predicate IsSession(events: seq<Event>, missing: nat, entries: seq<Entry>, cut: seq<nat>) {
    exists making, linked, rank :: Whole(events, making, linked, missing, entries, cut, rank)
  }

  lemma WholeIsSession(events: seq<Event>, making: Making, linked: seq<Entry>, missing: nat, entries: seq<Entry>,
      cut: seq<nat>, rank: map<nat, nat>)
    requires Whole(events, making, linked, missing, entries, cut, rank)
    ensures IsSession(events, missing, entries, cut)
  {
  }

  method BuildTranscriptSession(events: seq<Event>, sort: seq<string> -> seq<string>)
    returns (entries: seq<Entry>, missing: nat, cut: seq<nat>, ghost making: Making, ghost linked: seq<Entry>, ghost rank: map<nat, nat>)
    requires DistinctEvents(events)
    requires forall keys: seq<string> :: Distinct(keys) ==>
      Distinct(sort(keys)) && Elements(sort(keys)) == Elements(keys)
    ensures Whole(events, making, linked, missing, entries, cut, rank)
    ensures IsSession(events, missing, entries, cut) && making.sorted == sort(KeysOf(events))
  {
    var keys, groups := GroupEvents(events);
    var ordered := OrderGroups(events, keys, groups, sort(keys));
    assert forall k :: k in sort(keys) ==> k in Elements(sort(keys));
    var all;
    all, missing, making := BuildLinked(events, keys, groups, sort(keys), ordered);
    linked := all;
    entries, cut, rank := CutSession(events, all);
    WholeIsSession(events, making, linked, missing, entries, cut, rank);
  }

  /** The last loop: links that close a loop are cut. */
  method CutSession(events: seq<Event>, linked: seq<Entry>)
      returns (entries: seq<Entry>, cut: seq<nat>, ghost rank: map<nat, nat>)
    requires DistinctEvents(events) && ParentsKnown(linked) && AllSources(linked) == multiset(events) && forall n ::
      0 <= n < |linked| ==> Fits(linked[n])
    ensures OnlyCut(events, linked, entries, cut, rank)
  {
    EntriesApart(linked, events);
    ParentsAmong(linked);
    var links;
    links, cut, rank := CutCycles(Ids(linked), Parents(linked));
    CutIsWhole(events, linked, links, cut, rank);
    entries := WithParents(linked, links);
  }

  /** In the session every entry is the first, or follows another, or had a link of its loop cut:
      so there is at most one tree more than loops were cut. */
  lemma RootsAre(events: seq<Event>, linked: seq<Entry>, entries: seq<Entry>, cut: seq<nat>, rank: map<nat, nat>,
      n: nat)
    requires OnlyCut(events, linked, entries, cut, rank) && n < |entries|
    ensures n == 0 || entries[n].id in cut || (entries[n].parentId.Some? && IsEntry(entries, entries[n].parentId.value))
  {
    if n > 0 && entries[n].id !in cut {
      assert Ids(linked)[n] == linked[n].id && Ids(entries)[n] == entries[n].id;
      assert ParentKnown(linked, n);
      ParentOf(linked, n);
      ParentOf(entries, n);
      EntryIds(linked, linked[n].parentId.value);
      EntryIds(entries, linked[n].parentId.value);
    }
  }
}
