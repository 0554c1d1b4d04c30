/** Which recorded parents end up in loops, and so which links a session loses. */
module SessionLoops {
  import opened Utf8
  import opened ParentGraph
  import opened SessionGroups
  import opened SessionEntries
  import opened Session

  /** The entries of group j. */
  ghost predicate InGroup(records: seq<Record>, j: nat, n: nat) {
    j < |records| && records[j].first <= n <= records[j].last
  }

  ghost predicate SpanAt(records: seq<Record>, i: nat)
    requires i < |records|
  {
    records[i].first <= records[i].last && records[i].first == if i == 0 then 0 else records[i - 1].last + 1
  }

  ghost predicate InnerAt(records: seq<Record>, linked: seq<Entry>, n: nat)
    requires n < |linked|
  {
    Starts(records, n) || (n > 0 && linked[n].parentId == Some(linked[n - 1].id))
  }

  /** The groups' entries come one group after the other, and inside a group each entry follows the
      one before it. */
  ghost predicate Layout(records: seq<Record>, linked: seq<Entry>) {
    && |linked| == (if records == [] then 0 else records[|records| - 1].last + 1)
    && (forall i {:trigger SpanAt(records, i)} :: 0 <= i < |records| ==> SpanAt(records, i))
    && (forall n {:trigger InnerAt(records, linked, n)} :: 0 <= n < |linked| ==> InnerAt(records, linked, n))
    && IdsDistinct(linked)
  }

  lemma RecordAt(making: Making, linked: seq<Entry>, missing: nat, i: nat)
    requires Made(making, linked, missing) && i < |making.records|
    ensures RecordIs(making.plan, making.built, making.records, i) && |linked| == |making.built|
  {
  }

  lemma MadeInner(making: Making, linked: seq<Entry>, missing: nat, n: nat)
    requires Made(making, linked, missing) && n < |linked|
    ensures InnerAt(making.records, linked, n)
  {
    assert making.records[..|making.records|] == making.records;
    assert EntryPlaced(making.built, making.records, n);
  }

  lemma MadeLayout(making: Making, linked: seq<Entry>, missing: nat)
    requires Made(making, linked, missing) && IdsDistinct(linked)
    ensures Layout(making.records, linked)
  {
    forall i: nat | i < |making.records|
      ensures SpanAt(making.records, i)
    {
      RecordAt(making, linked, missing, i);
    }
    forall n: nat | n < |linked|
      ensures InnerAt(making.records, linked, n)
    {
      MadeInner(making, linked, missing, n);
    }
  }

  /** Group i's first entry follows an entry of group j. */
  ghost predicate Leads(records: seq<Record>, linked: seq<Entry>, i: nat, j: nat, m: nat) {
    && i < |records| && records[i].first < |linked| && InGroup(records, j, m) && m < |linked|
    && linked[records[i].first].parentId == Some(linked[m].id)
  }

  ghost predicate LeadsTo(records: seq<Record>, linked: seq<Entry>, i: nat, j: nat) {
    exists m :: Leads(records, linked, i, j, m)
  }

  ghost predicate LeadsOff(records: seq<Record>, linked: seq<Entry>, i: nat) {
    exists j :: LeadsTo(records, linked, i, j)
  }

  ghost function Leader(records: seq<Record>, linked: seq<Entry>, i: nat): nat
    requires LeadsOff(records, linked, i)
  {
    var j :| LeadsTo(records, linked, i, j);
    j
  }

  /** The groups that follow each group, by their place in the order. */
  ghost function Followed(records: seq<Record>, linked: seq<Entry>): (g: Graph<nat>)
    ensures forall i :: i in g <==> LeadsOff(records, linked, i)
    ensures forall i :: i in g ==> LeadsTo(records, linked, i, g[i])
  {
    var all := set i: nat | i < |records| && LeadsOff(records, linked, i);
    map i: nat | i in all :: Leader(records, linked, i)
  }

  // ---- Groups do not overlap

  lemma {:induction false} GroupsApart(records: seq<Record>, linked: seq<Entry>, i: nat, j: nat)
    requires Layout(records, linked) && i < j < |records|
    ensures records[i].last < records[j].first
    decreases j
  {
    assert SpanAt(records, j);
    if i < j - 1 {
      GroupsApart(records, linked, i, j - 1);
      assert SpanAt(records, j - 1);
    }
  }

  lemma OneGroup(records: seq<Record>, linked: seq<Entry>, i: nat, j: nat, n: nat)
    requires Layout(records, linked) && InGroup(records, i, n) && InGroup(records, j, n)
    ensures i == j
  {
    if i < j {
      GroupsApart(records, linked, i, j);
    } else if j < i {
      GroupsApart(records, linked, j, i);
    }
  }

  lemma {:induction false} GroupAt(records: seq<Record>, linked: seq<Entry>, n: nat, k: nat) returns (j: nat)
    requires Layout(records, linked) && k < |records| && n <= records[k].last
    ensures j <= k && InGroup(records, j, n)
    decreases k
  {
    assert SpanAt(records, k);
    if records[k].first <= n {
      j := k;
    } else {
      j := GroupAt(records, linked, n, k - 1);
    }
  }

  /** Every entry is of some group. */
  lemma EveryEntry(records: seq<Record>, linked: seq<Entry>, n: nat) returns (j: nat)
    requires Layout(records, linked) && n < |linked|
    ensures InGroup(records, j, n)
  {
    j := GroupAt(records, linked, n, |records| - 1);
  }

  lemma {:induction false} GroupEnds(records: seq<Record>, linked: seq<Entry>, j: nat)
    requires Layout(records, linked) && j < |records|
    ensures records[j].first <= records[j].last < |linked|
  {
    assert SpanAt(records, j);
    if j < |records| - 1 {
      GroupsApart(records, linked, j, |records| - 1);
      assert SpanAt(records, |records| - 1);
    }
  }

  /** Inside a group an entry follows the one before it. */
  lemma InnerFollows(records: seq<Record>, linked: seq<Entry>, j: nat, n: nat)
    requires Layout(records, linked) && InGroup(records, j, n) && n != records[j].first
    ensures 0 < n < |linked| && linked[n].parentId == Some(linked[n - 1].id)
  {
    GroupEnds(records, linked, j);
    assert InnerAt(records, linked, n);
    if Starts(records, n) {
      var i: nat :| i < |records| && records[i].first == n;
      assert SpanAt(records, i);
      OneGroup(records, linked, i, j, n);
      assert false;
    }
  }

  // ---- From entries to groups and back

  lemma {:induction false} DownToFirst(records: seq<Record>, linked: seq<Entry>, j: nat, n: nat)
    requires Layout(records, linked) && InGroup(records, j, n)
    ensures n < |linked| && records[j].first < |linked|
    ensures Reaches(Parents(linked), linked[n].id, linked[records[j].first].id)
    decreases n
  {
    GroupEnds(records, linked, j);
    assert Climb(Parents(linked), linked[n].id, 0) == Some(linked[n].id);
    if n != records[j].first {
      InnerFollows(records, linked, j, n);
      DownToFirst(records, linked, j, n - 1);
      ParentOf(linked, n);
      ReachesStep(Parents(linked), linked[n].id);
      ReachesTrans(Parents(linked), linked[n].id, linked[n - 1].id, linked[records[j].first].id);
    }
  }

  ghost function FirstId(records: seq<Record>, linked: seq<Entry>, i: nat): nat {
    if i < |records| && records[i].first < |linked| then linked[records[i].first].id else 0
  }

  lemma LeadsOn(records: seq<Record>, linked: seq<Entry>, i: nat, j: nat)
    requires Layout(records, linked) && LeadsTo(records, linked, i, j)
    ensures i < |records| && j < |records| && FirstId(records, linked, i) in Parents(linked)
    ensures Reaches(Parents(linked), Parents(linked)[FirstId(records, linked, i)], FirstId(records, linked, j))
  {
    var m :| Leads(records, linked, i, j, m);
    ParentOf(linked, records[i].first);
    DownToFirst(records, linked, j, m);
  }

  /** Links between groups are climbs between their first entries. */
  ghost predicate Carries(g: Graph<nat>, p: Graph<nat>, f: nat -> nat, i: nat) {
    i in g ==> f(i) in p && Reaches(p, p[f(i)], f(g[i]))
  }

  lemma {:induction false} CarriesFar(g: Graph<nat>, p: Graph<nat>, f: nat -> nat, i: nat, k: nat, j: nat)
    requires (forall x: nat :: Carries(g, p, f, x)) && Climb(g, i, k) == Some(j)
    ensures Reaches(p, f(i), f(j))
    decreases k
  {
    assert Climb(p, f(i), 0) == Some(f(i));
    if k > 0 {
      assert Carries(g, p, f, i);
      CarriesFar(g, p, f, g[i], k - 1, j);
      ReachesStep(p, f(i));
      ReachesTrans(p, f(i), p[f(i)], f(g[i]));
      ReachesTrans(p, f(i), f(g[i]), f(j));
    }
  }

  lemma CarriesLoop(g: Graph<nat>, p: Graph<nat>, f: nat -> nat, i: nat)
    requires (forall x: nat :: Carries(g, p, f, x)) && OnCycle(g, i)
    ensures OnCycle(p, f(i))
  {
    assert Carries(g, p, f, i);
    var k: nat :| Climb(g, g[i], k) == Some(i);
    CarriesFar(g, p, f, g[i], k, i);
    ReachesTrans(p, p[f(i)], f(g[i]), f(i));
  }

  /** A loop of groups is a loop of entries. */
  lemma GroupLoop(records: seq<Record>, linked: seq<Entry>, i: nat)
    requires Layout(records, linked) && OnCycle(Followed(records, linked), i)
    ensures i < |records| && OnCycle(Parents(linked), FirstId(records, linked, i))
  {
    var g, f := Followed(records, linked), (x: nat) => FirstId(records, linked, x);
    forall x: nat
      ensures Carries(g, Parents(linked), f, x)
    {
      if x in g {
        LeadsOn(records, linked, x, g[x]);
      }
    }
    LeadsOn(records, linked, i, g[i]);
    CarriesLoop(g, Parents(linked), f, i);
  }

  /** Climbing k links from entry n: down its group, or through the group that follows it. */
  ghost predicate Climbed(records: seq<Record>, linked: seq<Entry>, i: nat, n: nat, k: nat, j: nat, m: nat) {
    (i == j && m == n - k) || (i in Followed(records, linked) && Reaches(Followed(records, linked), Followed(records, linked)[i], j))
  }

  lemma {:induction false} EntriesClimb(records: seq<Record>, linked: seq<Entry>, i: nat, n: nat, k: nat, j: nat,
      m: nat)
    requires Layout(records, linked) && ParentsKnown(linked)
    requires InGroup(records, i, n) && InGroup(records, j, m) && n < |linked| && m < |linked|
    requires Climb(Parents(linked), linked[n].id, k) == Some(linked[m].id)
    ensures Climbed(records, linked, i, n, k, j, m)
    decreases k
  {
    if k == 0 {
      OneGroup(records, linked, i, j, n);
    } else {
      ParentOf(linked, n);
      assert ParentKnown(linked, n);
      var up: nat :| up < |linked| && linked[up].id == linked[n].parentId.value;
      var h := EveryEntry(records, linked, up);
      EntriesClimb(records, linked, h, up, k - 1, j, m);
      ClimbOne(records, linked, i, n, h, up, k, j, m);
    }
  }

  lemma ClimbOne(records: seq<Record>, linked: seq<Entry>, i: nat, n: nat, h: nat, up: nat, k: nat, j: nat, m: nat)
    requires Layout(records, linked) && k > 0
    requires InGroup(records, i, n) && InGroup(records, h, up) && n < |linked| && up < |linked|
    requires linked[n].parentId == Some(linked[up].id) && Climbed(records, linked, h, up, k - 1, j, m)
    ensures Climbed(records, linked, i, n, k, j, m)
  {
    var g := Followed(records, linked);
    if n != records[i].first {
      InnerFollows(records, linked, i, n);
      OneGroup(records, linked, i, h, up);
    } else {
      assert Leads(records, linked, i, h, up);
      FollowedIs(records, linked, i, h, up);
      OneMore(g, i, j);
    }
  }

  lemma OneMore(g: Graph<nat>, i: nat, j: nat)
    requires i in g && (g[i] == j || (g[i] in g && Reaches(g, g[g[i]], j)))
    ensures Reaches(g, g[i], j)
  {
    if g[i] == j {
      assert Climb(g, j, 0) == Some(j);
    } else {
      ReachesStep(g, g[i]);
      ReachesTrans(g, g[i], g[g[i]], j);
    }
  }

  lemma FollowedIs(records: seq<Record>, linked: seq<Entry>, i: nat, j: nat, m: nat)
    requires Layout(records, linked) && Leads(records, linked, i, j, m)
    ensures i in Followed(records, linked) && Followed(records, linked)[i] == j
  {
    assert LeadsTo(records, linked, i, j) && LeadsOff(records, linked, i);
    var h := Followed(records, linked)[i];
    var l :| Leads(records, linked, i, h, l);
    assert l == m;
    OneGroup(records, linked, j, h, m);
  }

  /** A loop of entries runs through a loop of groups. */
  lemma EntryLoop(records: seq<Record>, linked: seq<Entry>, n: nat) returns (i: nat)
    requires Layout(records, linked) && ParentsKnown(linked)
    requires n < |linked| && OnCycle(Parents(linked), linked[n].id)
    ensures InGroup(records, i, n) && OnCycle(Followed(records, linked), i)
  {
    var x := linked[n].id;
    var k: nat :| Climb(Parents(linked), Parents(linked)[x], k) == Some(x);
    assert Climb(Parents(linked), x, k + 1) == Some(x);
    i := EveryEntry(records, linked, n);
    EntriesClimb(records, linked, i, n, k + 1, i, n);
  }

  lemma {:induction false} CutOrNot(records: seq<Record>, linked: seq<Entry>, cut: seq<nat>)
    requires Layout(records, linked) && ParentsKnown(linked)
    requires Parted(Parents(linked), cut) && AllCut(Parents(linked), cut)
    ensures cut == [] <==> forall i: nat :: !OnCycle(Followed(records, linked), i)
  {
    if cut != [] {
      var x := cut[0];
      assert OnCycle(Parents(linked), x);
      var n: nat :| n < |linked| && linked[n].parentId.Some? && linked[n].id == x;
      var i := EntryLoop(records, linked, n);
    }
    if i: nat :| OnCycle(Followed(records, linked), i) {
      GroupLoop(records, linked, i);
      assert CutNear(Parents(linked), cut, FirstId(records, linked, i));
    }
  }

  lemma WholeCuts(events: seq<Event>, making: Making, linked: seq<Entry>, missing: nat, entries: seq<Entry>,
      cut: seq<nat>, rank: map<nat, nat>)
    requires Whole(events, making, linked, missing, entries, cut, rank)
    ensures Layout(making.records, linked) && ParentsKnown(linked)
    ensures Parted(Parents(linked), cut) && AllCut(Parents(linked), cut)
  {
    MadeLayout(making, linked, missing);
    ParentsAmong(linked);
  }

  /** Groups that follow each other in a loop lose one link of it. */
  lemma FollowedLoopIsCut(events: seq<Event>, making: Making, linked: seq<Entry>, missing: nat, entries: seq<Entry>,
      cut: seq<nat>, rank: map<nat, nat>, i: nat) returns (x: nat)
    requires Whole(events, making, linked, missing, entries, cut, rank) && OnCycle(Followed(making.records, linked), i)
    ensures i < |making.records| && x in cut && Together(Parents(linked), FirstId(making.records, linked, i), x)
    ensures forall y :: y in cut && Together(Parents(linked), x, y) ==> x == y
  {
    WholeCuts(events, making, linked, missing, entries, cut, rank);
    GroupLoop(making.records, linked, i);
    assert CutNear(Parents(linked), cut, FirstId(making.records, linked, i));
    x :| x in cut && Together(Parents(linked), FirstId(making.records, linked, i), x);
    forall y | y in cut && Together(Parents(linked), x, y)
      ensures x == y
    {
      OneCut(Parents(linked), cut, x, y);
    }
  }

  lemma OneCut(g: Graph<nat>, cut: seq<nat>, x: nat, y: nat)
    requires Parted(g, cut) && x in cut && y in cut && Together(g, x, y)
    ensures x == y
  {
    var i :| 0 <= i < |cut| && cut[i] == x;
    var j :| 0 <= j < |cut| && cut[j] == y;
    assert i == j;
  }

  // ---- What a group follows

  lemma {:induction false} LastsIn(records: seq<Record>, j: nat)
    requires j < |records| && forall h, i :: 0 <= h < i < |records| ==> records[h].key != records[i].key
    ensures records[j].key in Lasts(records) && Lasts(records)[records[j].key] == records[j].last
  {
    if j < |records| - 1 {
      LastsIn(records[..|records| - 1], j);
    }
  }

  lemma KeysApart(making: Making, linked: seq<Entry>, missing: nat)
    requires Made(making, linked, missing) && Distinct(making.plan.ordered)
    ensures forall h, i :: 0 <= h < i < |making.records| ==> making.records[h].key != making.records[i].key
  {
    forall i | 0 <= i < |making.records|
      ensures making.records[i].key == making.plan.ordered[i]
    {
      RecordAt(making, linked, missing, i);
    }
  }

  lemma LastEntry(making: Making, linked: seq<Entry>, missing: nat, j: nat)
    requires Made(making, linked, missing) && j < |making.records|
    ensures making.records[j].first <= making.records[j].last < |linked| == |making.built|
    ensures linked[making.records[j].last].id == making.built[making.records[j].last].id
  {
    RecordAt(making, linked, missing, j);
  }

  /** A group that answers a loaded message follows that message's last entry. */
  lemma AnswersMessage(events: seq<Event>, making: Making, linked: seq<Entry>, missing: nat, i: nat, j: nat)
    requires Made(making, linked, missing) && GroupsAre(events, making) && i < |making.records| && j < |making.records|
    requires NativeParent(making.records[i]) == making.records[j].key != ""
    ensures Leads(making.records, linked, i, j, making.records[j].last)
  {
    KeysApart(making, linked, missing);
    LastsIn(making.records, j);
    FirstFollows(making, linked, missing, i);
    LastEntry(making, linked, missing, j);
  }

  /** What names an event. */
  function NamesOf(e: Event): seq<string> {
    [Decimal(e.id), e.key] + e.aliases
  }

  lemma {:induction false} NameAllIs(names: map<string, nat>, keys: seq<string>, owner: nat, key: string)
    ensures key in NameAll(names, keys, owner) <==> key in names || key in keys
    ensures key in keys ==> NameAll(names, keys, owner)[key] == owner
    ensures key !in keys && key in names ==> NameAll(names, keys, owner)[key] == names[key]
  {
    if keys != [] {
      var front := keys[..|keys| - 1];
      NameAllIs(names, front, owner, key);
      assert keys == front + [keys[|keys| - 1]];
    }
  }

  ghost predicate NamedIn(group: seq<Event>, owners: seq<nat>, key: string, owner: nat) {
    |owners| == |group| && exists n :: 0 <= n < |group| && key in NamesOf(group[n]) && owners[n] == owner
  }

  /** Some event of the group is named so. */
  predicate Uses(group: seq<Event>, key: string) {
    exists e :: e in group && key in NamesOf(e)
  }

  lemma UsesMore(group: seq<Event>, key: string)
    requires group != []
    ensures Uses(group, key) <==> Uses(group[..|group| - 1], key) || key in NamesOf(group[|group| - 1])
  {
    assert group == group[..|group| - 1] + [group[|group| - 1]];
  }

  lemma NamedLater(group: seq<Event>, owners: seq<nat>, key: string, owner: nat)
    requires group != [] && |owners| == |group| && NamedIn(group[..|group| - 1], owners[..|group| - 1], key, owner)
    ensures NamedIn(group, owners, key, owner)
  {
    var n := |group| - 1;
    var k :| 0 <= k < n && key in NamesOf(group[..n][k]) && owners[..n][k] == owner;
    assert key in NamesOf(group[k]) && owners[k] == owner;
  }

  /** A name the group uses is the entry of an event of the group; others are as they were. */
  lemma {:induction false} NamesAre(names: map<string, nat>, group: seq<Event>, owners: seq<nat>, key: string)
    requires |owners| == |group|
    ensures Uses(group, key) ==>
      key in Names(names, group, owners) && NamedIn(group, owners, key, Names(names, group, owners)[key])
    ensures !Uses(group, key) ==> (key in Names(names, group, owners) <==> key in names)
    ensures !Uses(group, key) && key in names ==> Names(names, group, owners)[key] == names[key]
  {
    if group != [] {
      var n := |group| - 1;
      UsesMore(group, key);
      NamesAre(names, group[..n], owners[..n], key);
      NameAllIs(Names(names, group[..n], owners[..n]), NamesOf(group[n]), owners[n], key);
      if key !in NamesOf(group[n]) && Uses(group[..n], key) {
        NamedLater(group, owners, key, Names(names, group[..n], owners[..n])[key]);
      }
    }
  }

  ghost predicate NamedAt(plan: Plan, i: nat, key: string, owner: nat) {
    i < |plan.ordered| == |plan.owners| && GroupOk(plan, i) && NamedIn(Sort(plan.groups[plan.ordered[i]]), plan.owners[i], key, owner)
  }

  lemma {:induction false} UsesSorted(group: seq<Event>, key: string)
    ensures Uses(Sort(group), key) <==> Uses(group, key)
  {
    SortKeeps(group);
    assert forall e :: e in group <==> e in multiset(group);
    assert forall e :: e in Sort(group) <==> e in multiset(Sort(group));
  }

  /** The last group, in the order given, with an event named so. */
  function LastUser(ordered: seq<string>, groups: map<string, seq<Event>>, key: string): (found: Option<nat>)
    ensures found.Some? ==>
      found.value < |ordered| && ordered[found.value] in groups && Uses(groups[ordered[found.value]], key)
    ensures forall i :: 0 <= i < |ordered| && ordered[i] in groups && Uses(groups[ordered[i]], key) ==>
      found.Some? && i <= found.value
  {
    if ordered == [] then None
    else
      var n := |ordered| - 1;
      if ordered[n] in groups && Uses(groups[ordered[n]], key) then Some(n) else LastUser(ordered[..n], groups, key)
  }

  lemma {:induction false} NamesStep(plan: Plan, key: string)
    requires PlanOk(plan) && plan.ordered != []
    ensures PlanOk(Front(plan)) && GroupOk(plan, |plan.ordered| - 1)
    ensures var n, names, before := |plan.ordered| - 1, AllNames(plan), AllNames(Front(plan));
      if Uses(plan.groups[plan.ordered[n]], key) then key in names && NamedAt(plan, n, key, names[key])
      else (key in names <==> key in before) && (key in before ==> names[key] == before[key])
  {
    var n := |plan.ordered| - 1;
    FrontOk(plan);
    assert GroupOk(plan, n);
    UsesSorted(plan.groups[plan.ordered[n]], key);
    NamesAre(AllNames(Front(plan)), Sort(plan.groups[plan.ordered[n]]), plan.owners[n], key);
  }

  /** A name belongs to the entry of an event in the last group that uses it. */
  lemma {:induction false} NamesHold(plan: Plan, key: string)
    requires PlanOk(plan)
    ensures key in AllNames(plan) <==> LastUser(plan.ordered, plan.groups, key).Some?
    ensures key in AllNames(plan) ==>
      NamedAt(plan, LastUser(plan.ordered, plan.groups, key).value, key, AllNames(plan)[key])
    decreases |plan.ordered|
  {
    if plan.ordered != [] {
      NamesStep(plan, key);
      NamesHold(Front(plan), key);
      if !Uses(plan.groups[plan.ordered[|plan.ordered| - 1]], key) && key in AllNames(plan) {
        NamedFront(plan, LastUser(Front(plan).ordered, plan.groups, key).value, key, AllNames(plan)[key]);
      }
    }
  }

  lemma NamedFront(plan: Plan, i: nat, key: string, owner: nat)
    requires PlanOk(plan) && plan.ordered != [] && NamedAt(Front(plan), i, key, owner)
    ensures NamedAt(plan, i, key, owner)
  {
    assert GroupOk(plan, i);
  }

  /** A group that names a loaded event, by id, key or alias, and answers no loaded message, follows
      the entry of an event so named, in the last group that has one. */
  lemma FollowsNamed(events: seq<Event>, making: Making, linked: seq<Entry>, missing: nat, i: nat)
      returns (j: nat, m: nat, n: nat)
    requires Made(making, linked, missing) && GroupsAre(events, making) && i < |making.records|
    requires var r := making.records[i];
      && r.parentKey != "" && r.parentKey in AllNames(making.plan)
      && (NativeParent(r) == "" || NativeParent(r) !in Lasts(making.records))
    ensures j < |making.records| && GroupOk(making.plan, j) && Leads(making.records, linked, i, j, m)
    ensures Some(j) == LastUser(making.plan.ordered, making.plan.groups, making.records[i].parentKey)
    ensures var group := Sort(making.plan.groups[making.plan.ordered[j]]);
      n < |group| && making.records[i].parentKey in NamesOf(group[n]) && group[n] in linked[m].sources
  {
    var r := making.records[i];
    RecordAt(making, linked, missing, i);
    assert LinkedAt(making.built, linked, Lasts(making.records), making.names, making.records, i);
    NamesHold(making.plan, r.parentKey);
    j := LastUser(making.plan.ordered, making.plan.groups, r.parentKey).value;
    m, n := OwnerEntry(making, linked, missing, j, r.parentKey, AllNames(making.plan)[r.parentKey]);
  }

  lemma OwnedAt(prefix: seq<Entry>, start: nat, group: seq<Event>, owners: seq<nat>, key: string, owner: nat)
      returns (m: nat, n: nat)
    requires Owned(prefix, start, group, owners) && NamedIn(group, owners, key, owner)
    ensures start <= m < |prefix| && prefix[m].id == owner && n < |group| && key in NamesOf(group[n])
    ensures group[n] in prefix[m].sources
  {
    n :| 0 <= n < |group| && key in NamesOf(group[n]) && owners[n] == owner;
    assert OwnedBy(prefix, start, group[n], owner);
    m :| start <= m < |prefix| && prefix[m].id == owner && group[n] in prefix[m].sources;
  }

  lemma OwnerEntry(making: Making, linked: seq<Entry>, missing: nat, j: nat, key: string, owner: nat)
      returns (m: nat, n: nat)
    requires Made(making, linked, missing) && j < |making.records| && GroupOk(making.plan, j)
    requires NamedIn(Sort(making.plan.groups[making.plan.ordered[j]]), making.plan.owners[j], key, owner)
    ensures InGroup(making.records, j, m) && m < |linked| && linked[m].id == owner
    ensures var group := Sort(making.plan.groups[making.plan.ordered[j]]);
      n < |group| && key in NamesOf(group[n]) && group[n] in linked[m].sources
  {
    RecordAt(making, linked, missing, j);
    var group := Sort(making.plan.groups[making.plan.ordered[j]]);
    m, n := OwnedAt(making.built[..making.records[j].last + 1], making.records[j].first, group, making.plan.owners[j], key, owner);
    assert linked[m] == making.built[m].(parentId := linked[m].parentId);
  }

  // ---- A group without a loaded parent

  /** The entry a group's first entry follows. */
  lemma FirstFollows(making: Making, linked: seq<Entry>, missing: nat, i: nat)
    requires Made(making, linked, missing) && i < |making.records|
    ensures making.records[i].first < |linked| == |making.built| && forall key :: key in Lasts(making.records) ==>
      Lasts(making.records)[key] < |making.built|
    ensures linked[making.records[i].first].parentId == LinkedParent(making.built, Lasts(making.records), making.names, making.records[i])
    ensures making.records[i].previous == (if making.records[i].first == 0 then None else Some(linked[making.records[i].first - 1].id))
    ensures i < |making.plan.ordered|
  {
    RecordAt(making, linked, missing, i);
    assert LinkedAt(making.built, linked, Lasts(making.records), making.names, making.records, i);
    assert RecordOk(making.built, making.records[i]);
  }

  predicate Loaded(making: Making, i: nat)
    requires i < |making.records| && forall key :: key in Lasts(making.records) ==>
      Lasts(making.records)[key] < |making.built|
  {
    Found(making.built, Lasts(making.records), making.names, making.records[i]).Some?
  }

  lemma FollowedTo(records: seq<Record>, linked: seq<Entry>, i: nat, j: nat)
    requires Layout(records, linked) && LeadsTo(records, linked, i, j)
    ensures i in Followed(records, linked) && Followed(records, linked)[i] == j
  {
    var m :| Leads(records, linked, i, j, m);
    FollowedIs(records, linked, i, j, m);
  }

  lemma PreviousLeads(records: seq<Record>, linked: seq<Entry>, i: nat)
    requires Layout(records, linked) && i < |records| && records[i].first < |linked|
    requires linked[records[i].first].parentId == (if records[i].first == 0 then None else Some(linked[records[i].first - 1].id))
    ensures if i > 0 then LeadsTo(records, linked, i, i - 1) else i !in Followed(records, linked)
  {
    assert SpanAt(records, i);
    if i > 0 {
      assert SpanAt(records, i - 1);
      assert Leads(records, linked, i, i - 1, records[i - 1].last);
    } else {
      assert forall j, m :: !Leads(records, linked, i, j, m);
    }
  }

  /** Without a recorded parent that is loaded a group follows the one before it. */
  lemma FallsBack(making: Making, linked: seq<Entry>, missing: nat, i: nat)
    requires Made(making, linked, missing) && Layout(making.records, linked) && i < |making.records|
    requires forall key :: key in Lasts(making.records) ==> Lasts(making.records)[key] < |making.built|
    requires !Loaded(making, i)
    ensures if i > 0 then LeadsTo(making.records, linked, i, i - 1) else i !in Followed(making.records, linked)
  {
    FirstFollows(making, linked, missing, i);
    PreviousLeads(making.records, linked, i);
  }
}
