/** Which sessions lose a link, told from the events and the order they are sorted in. */
module SessionLinks {
  import opened Utf8
  import opened ParentGraph
  import opened SessionGroups
  import opened SessionEntries
  import opened Session
  import opened SessionLoops

  // ---- The links between groups

  ghost predicate AllGroups(ordered: seq<string>, groups: map<string, seq<Event>>) {
    forall i :: 0 <= i < |ordered| ==> ordered[i] in groups && groups[ordered[i]] != []
  }

  /** The first block of a group, whose parent the group's first entry gets. */
  function FirstBlock(group: seq<Event>): Event
    requires group != []
  {
    SortKeeps(group);
    Sort(group)[0]
  }

  function PlaceOf(ordered: seq<string>, key: string): (i: nat)
    requires key in ordered
    ensures i < |ordered| && ordered[i] == key
  {
    if ordered[0] == key then 0 else PlaceOf(ordered[1..], key) + 1
  }

  /** The group whose entries group i's recorded parent is found in: the message it answers, or the
      last group with an event named by its parent key. */
  function RecordedLink(ordered: seq<string>, groups: map<string, seq<Event>>, i: nat): (j: Option<nat>)
    requires i < |ordered| && AllGroups(ordered, groups)
    ensures j.Some? ==> j.value < |ordered|
  {
    var first := FirstBlock(groups[ordered[i]]);
    var answered := Answered(first.parentKey, first.nativeParent);
    if answered != "" && answered in ordered then Some(PlaceOf(ordered, answered))
    else if first.parentKey != "" then LastUser(ordered, groups, first.parentKey)
    else None
  }

  /** Without a recorded parent that is loaded, a group follows the one before it. */
  function GroupLink(ordered: seq<string>, groups: map<string, seq<Event>>, i: nat): Option<nat>
    requires i < |ordered| && AllGroups(ordered, groups)
  {
    var recorded := RecordedLink(ordered, groups, i);
    if recorded.Some? then recorded else if i > 0 then Some(i - 1) else None
  }

  function GroupLinks(ordered: seq<string>, groups: map<string, seq<Event>>): Graph<nat>
    requires AllGroups(ordered, groups)
  {
    map i: nat | i < |ordered| && GroupLink(ordered, groups, i).Some? :: GroupLink(ordered, groups, i).value
  }

  ghost predicate NoLoop(g: Graph<nat>) {
    forall i: nat :: !OnCycle<nat>(g, i)
  }

  // ---- From events

  lemma {:induction false} GroupedOf(events: seq<Event>)
    ensures Grouped(events, KeysOf(events), GroupsOf(events))
  {
    if events != [] {
      var front, last := events[..|events| - 1], events[|events| - 1];
      assert events == front + [last];
      GroupedOf(front);
      GroupingMore(front, KeysOf(front), GroupsOf(front), last);
      GroupedAlready(events, front, last);
    }
  }

  lemma GroupedAlready(events: seq<Event>, front: seq<Event>, last: Event)
    requires events == front + [last]
    requires var k, keys, groups := NativeMessageKey(last), KeysOf(front), GroupsOf(front);
      Grouping(events, if k in groups then keys else keys + [k], groups[k := (if k in groups then groups[k] else []) + [last]])
    ensures Grouped(events, KeysOf(events), GroupsOf(events))
  {
    var k, keys, groups := NativeMessageKey(last), KeysOf(front), GroupsOf(front);
    GroupedIsOne(events, if k in groups then keys else keys + [k], groups[k := (if k in groups then groups[k] else []) + [last]]);
  }

  /** The sort puts each message somewhere. */
  ghost predicate SortOf(events: seq<Event>, sorted: seq<string>) {
    Distinct(sorted) && Elements(sorted) == Elements(KeysOf(events))
  }

  lemma SortedKnown(events: seq<Event>, sorted: seq<string>)
    requires SortOf(events, sorted)
    ensures forall k :: k in sorted ==> k in GroupsOf(events)
    ensures forall k :: k in GroupsOf(events) ==> GroupsOf(events)[k] != []
  {
    GroupedOf(events);
    assert forall k :: k in sorted <==> k in Elements(sorted);
    assert forall k :: k in KeysOf(events) <==> k in Elements(KeysOf(events));
  }

  lemma OrderedKnown(sorted: seq<string>, groups: map<string, seq<Event>>)
    requires (forall k :: k in sorted ==> k in groups) && forall k :: k in groups ==> groups[k] != []
    ensures AllGroups(OrderedGroups(sorted, groups), groups)
  {
    GraphInside(sorted, groups);
    OrderInside(GroupGraph(sorted, groups), groups.Keys, sorted);
  }

  /** The groups of a session in order. */
  ghost function Messages(events: seq<Event>, sorted: seq<string>): (ordered: seq<string>)
    requires SortOf(events, sorted)
    ensures AllGroups(ordered, GroupsOf(events))
  {
    SortedKnown(events, sorted);
    OrderedKnown(sorted, GroupsOf(events));
    OrderedGroups(sorted, GroupsOf(events))
  }

  /** Which group follows which, from the events and the sort alone. */
  ghost function SessionLinks(events: seq<Event>, sorted: seq<string>): Graph<nat>
    requires SortOf(events, sorted)
  {
    GroupLinks(Messages(events, sorted), GroupsOf(events))
  }

  // ---- They are the links set

  lemma LastsKeys(making: Making, linked: seq<Entry>, missing: nat, key: string)
    requires Made(making, linked, missing) && Distinct(making.plan.ordered)
    ensures key in Lasts(making.records) <==> key in making.plan.ordered
    ensures |making.records| == |making.plan.ordered|
  {
    forall i | 0 <= i < |making.records|
      ensures making.records[i].key == making.plan.ordered[i]
    {
      RecordAt(making, linked, missing, i);
    }
    if key in Lasts(making.records) {
      LastsAre(making.records, key);
    }
    if key in making.plan.ordered {
      var j :| 0 <= j < |making.plan.ordered| && making.plan.ordered[j] == key;
      LastsIn(making.records, j);
    }
  }

  lemma RecordFirst(making: Making, linked: seq<Entry>, missing: nat, i: nat)
    requires Made(making, linked, missing) && i < |making.records|
    requires AllGroups(making.plan.ordered, making.plan.groups)
    ensures i < |making.plan.ordered|
    ensures var first := FirstBlock(making.plan.groups[making.plan.ordered[i]]);
      && making.records[i].key == making.plan.ordered[i] && making.records[i].parentKey == first.parentKey
      && NativeParent(making.records[i]) == Answered(first.parentKey, first.nativeParent)
  {
    RecordAt(making, linked, missing, i);
  }

  /** A recorded parent that is loaded is followed. */
  lemma RecordedIsLed(events: seq<Event>, making: Making, linked: seq<Entry>, missing: nat, i: nat)
    requires Made(making, linked, missing) && GroupsAre(events, making) && i < |making.records|
    requires AllGroups(making.plan.ordered, making.plan.groups) && i < |making.plan.ordered|
    requires RecordedLink(making.plan.ordered, making.plan.groups, i).Some?
    ensures LeadsTo(making.records, linked, i, RecordedLink(making.plan.ordered, making.plan.groups, i).value)
  {
    var ordered, r := making.plan.ordered, making.records[i];
    RecordFirst(making, linked, missing, i);
    LastsKeys(making, linked, missing, NativeParent(r));
    if NativeParent(r) != "" && NativeParent(r) in ordered {
      var j := PlaceOf(ordered, NativeParent(r));
      RecordFirst(making, linked, missing, j);
      AnswersMessage(events, making, linked, missing, i, j);
    } else {
      NamesHold(making.plan, r.parentKey);
      var j, m, n := FollowsNamed(events, making, linked, missing, i);
    }
  }

  ghost predicate BackTo(records: seq<Record>, linked: seq<Entry>, i: nat) {
    if i > 0 then LeadsTo(records, linked, i, i - 1) else i !in Followed(records, linked)
  }

  lemma UnrecordedFallsBack(making: Making, linked: seq<Entry>, missing: nat, i: nat)
    requires Made(making, linked, missing) && Layout(making.records, linked) && i < |making.records|
    requires AllGroups(making.plan.ordered, making.plan.groups) && Distinct(making.plan.ordered)
    requires i < |making.plan.ordered|
    requires RecordedLink(making.plan.ordered, making.plan.groups, i).None?
    ensures BackTo(making.records, linked, i)
  {
    var r := making.records[i];
    RecordFirst(making, linked, missing, i);
    LastsKeys(making, linked, missing, NativeParent(r));
    NamesHold(making.plan, r.parentKey);
    FirstFollows(making, linked, missing, i);
    assert !Loaded(making, i);
    FallsBack(making, linked, missing, i);
  }

  /** The link of i in the graph is the one given. */
  ghost predicate LinkIs(g: Graph<nat>, i: nat, link: Option<nat>) {
    if link.Some? then i in g && g[i] == link.value else i !in g
  }

  lemma LedIs(records: seq<Record>, linked: seq<Entry>, i: nat, j: nat)
    requires Layout(records, linked) && LeadsTo(records, linked, i, j)
    ensures LinkIs(Followed(records, linked), i, Some(j))
  {
    FollowedTo(records, linked, i, j);
  }

  lemma BackIs(records: seq<Record>, linked: seq<Entry>, i: nat)
    requires Layout(records, linked) && BackTo(records, linked, i)
    ensures LinkIs(Followed(records, linked), i, if i > 0 then Some(i - 1) else None)
  {
    if i > 0 {
      FollowedTo(records, linked, i, i - 1);
    }
  }

  lemma FollowsRecorded(events: seq<Event>, making: Making, linked: seq<Entry>, missing: nat, i: nat)
    requires Made(making, linked, missing) && GroupsAre(events, making) && Layout(making.records, linked)
    requires AllGroups(making.plan.ordered, making.plan.groups)
    requires i < |making.records| && i < |making.plan.ordered|
    requires RecordedLink(making.plan.ordered, making.plan.groups, i).Some?
    ensures LinkIs(Followed(making.records, linked), i, RecordedLink(making.plan.ordered, making.plan.groups, i))
  {
    RecordedIsLed(events, making, linked, missing, i);
    LedIs(making.records, linked, i, RecordedLink(making.plan.ordered, making.plan.groups, i).value);
  }

  lemma FollowsBefore(making: Making, linked: seq<Entry>, missing: nat, i: nat)
    requires Made(making, linked, missing) && Layout(making.records, linked)
    requires AllGroups(making.plan.ordered, making.plan.groups) && Distinct(making.plan.ordered)
    requires i < |making.records| && i < |making.plan.ordered|
    requires RecordedLink(making.plan.ordered, making.plan.groups, i).None?
    ensures LinkIs(Followed(making.records, linked), i, if i > 0 then Some(i - 1) else None)
  {
    UnrecordedFallsBack(making, linked, missing, i);
    BackIs(making.records, linked, i);
  }

  lemma FollowedAt(events: seq<Event>, making: Making, linked: seq<Entry>, missing: nat, i: nat)
    requires Made(making, linked, missing) && GroupsAre(events, making) && Layout(making.records, linked)
    requires AllGroups(making.plan.ordered, making.plan.groups)
    requires i < |making.records| && i < |making.plan.ordered|
    ensures LinkIs(Followed(making.records, linked), i, GroupLink(making.plan.ordered, making.plan.groups, i))
  {
    if RecordedLink(making.plan.ordered, making.plan.groups, i).Some? {
      FollowsRecorded(events, making, linked, missing, i);
    } else {
      FollowsBefore(making, linked, missing, i);
    }
  }

  lemma AllLinksAre(ordered: seq<string>, groups: map<string, seq<Event>>, g: Graph<nat>)
    requires AllGroups(ordered, groups) && (forall i: nat :: i in g ==> i < |ordered|)
    requires forall i: nat :: i < |ordered| ==> LinkIs(g, i, GroupLink(ordered, groups, i))
    ensures g == GroupLinks(ordered, groups)
  {
    var h := GroupLinks(ordered, groups);
    forall i: nat
      ensures i in g <==> i in h
      ensures i in g ==> g[i] == h[i]
    {
      if i < |ordered| {
        assert LinkIs(g, i, GroupLink(ordered, groups, i));
      }
    }
  }

  lemma FollowedIsLinks(events: seq<Event>, making: Making, linked: seq<Entry>, missing: nat)
    requires Made(making, linked, missing) && GroupsAre(events, making) && Layout(making.records, linked)
    requires AllGroups(making.plan.ordered, making.plan.groups)
    ensures Followed(making.records, linked) == GroupLinks(making.plan.ordered, making.plan.groups)
  {
    LastsKeys(making, linked, missing, "");
    forall i: nat | i < |making.plan.ordered|
      ensures LinkIs(Followed(making.records, linked), i, GroupLink(making.plan.ordered, making.plan.groups, i))
    {
      FollowedAt(events, making, linked, missing, i);
    }
    FollowedInside(making.records, linked);
    AllLinksAre(making.plan.ordered, making.plan.groups, Followed(making.records, linked));
  }

  lemma FollowedInside(records: seq<Record>, linked: seq<Entry>)
    ensures forall i: nat :: i in Followed(records, linked) ==> i < |records|
  {
    forall i: nat | i in Followed(records, linked)
      ensures i < |records|
    {
      assert LeadsOff(records, linked, i);
    }
  }

  lemma MadeIsSorted(events: seq<Event>, making: Making)
    requires GroupsAre(events, making) && Distinct(making.sorted)
    ensures SortOf(events, making.sorted) && making.plan.groups == GroupsOf(events)
    ensures making.plan.ordered == Messages(events, making.sorted)
  {
    GroupedOf(events);
  }

  /** A session loses a link exactly when its groups, ordered as sorted with recorded parents first,
      follow each other in a loop: told before it is built, from the events and the sort. */
  lemma CutExactlyLoops(events: seq<Event>, making: Making, linked: seq<Entry>, missing: nat, entries: seq<Entry>,
      cut: seq<nat>, rank: map<nat, nat>)
    requires Whole(events, making, linked, missing, entries, cut, rank) && SortOf(events, making.sorted)
    ensures cut == [] <==> NoLoop(SessionLinks(events, making.sorted))
  {
    WholeCuts(events, making, linked, missing, entries, cut, rank);
    MadeIsSorted(events, making);
    FollowedIsLinks(events, making, linked, missing);
    CutOrNot(making.records, linked, cut);
  }

  /** Groups that follow each other in a loop lose one link of it. */
  lemma GroupLoopIsCut(events: seq<Event>, making: Making, linked: seq<Entry>, missing: nat, entries: seq<Entry>,
      cut: seq<nat>, rank: map<nat, nat>, i: nat) returns (x: nat)
    requires Whole(events, making, linked, missing, entries, cut, rank) && SortOf(events, making.sorted)
    requires OnCycle<nat>(SessionLinks(events, making.sorted), i)
    ensures i < |making.records| && x in cut && Together(Parents(linked), FirstId(making.records, linked, i), x)
    ensures forall y :: y in cut && Together(Parents(linked), x, y) ==> x == y
  {
    WholeCuts(events, making, linked, missing, entries, cut, rank);
    MadeIsSorted(events, making);
    FollowedIsLinks(events, making, linked, missing);
    x := FollowedLoopIsCut(events, making, linked, missing, entries, cut, rank, i);
  }

  // ---- Where the order and the links agree

  /** Group i's recorded parent, if the linking finds it, is the group that the ordering put first. */
  ghost predicate Agrees(ordered: seq<string>, groups: map<string, seq<Event>>, g: Graph<string>, i: nat)
    requires AllGroups(ordered, groups) && i < |ordered|
  {
    var link := RecordedLink(ordered, groups, i);
    link.Some? ==> ordered[i] in g && g[ordered[i]] == ordered[link.value]
  }

  lemma EarlierInOrder(g: Graph<string>, ordered: seq<string>, i: nat, j: nat)
    requires Distinct(ordered) && ParentsFirst(g, ordered) && (forall x :: !OnCycle(g, x))
    requires i < |ordered| && j < |ordered| && ordered[i] in g && g[ordered[i]] == ordered[j]
    ensures j < i
  {
    assert !Late(g, ordered, i);
    var k :| 0 <= k < i && ordered[..i][k] == ordered[j];
    assert ordered[k] == ordered[j];
  }

  lemma {:induction false} Falls(g: Graph<nat>, i: nat, k: nat, j: nat)
    requires (forall x: nat :: x in g ==> g[x] < x) && Climb<nat>(g, i, k) == Some(j)
    ensures j <= i
    decreases k
  {
    if k > 0 {
      Falls(g, g[i], k - 1, j);
    }
  }

  lemma FallingHasNoLoop(g: Graph<nat>, i: nat)
    requires forall x: nat :: x in g ==> g[x] < x
    ensures !OnCycle<nat>(g, i)
  {
    if OnCycle<nat>(g, i) {
      var k: nat :| Climb<nat>(g, g[i], k) == Some(i);
      Falls(g, g[i], k, i);
      assert false;
    }
  }

  lemma AgreeingHaveNoLoop(ordered: seq<string>, groups: map<string, seq<Event>>, g: Graph<string>)
    requires AllGroups(ordered, groups) && Distinct(ordered) && ParentsFirst(g, ordered)
    requires forall x :: !OnCycle(g, x)
    requires forall i {:trigger Agrees(ordered, groups, g, i)} :: 0 <= i < |ordered| ==> Agrees(ordered, groups, g, i)
    ensures NoLoop(GroupLinks(ordered, groups))
  {
    var links := GroupLinks(ordered, groups);
    forall i: nat | i in links
      ensures links[i] < i
    {
      assert Agrees(ordered, groups, g, i);
      if RecordedLink(ordered, groups, i).Some? {
        EarlierInOrder(g, ordered, i, links[i]);
      }
    }
    forall i: nat
      ensures !OnCycle<nat>(links, i)
    {
      FallingHasNoLoop(links, i);
    }
  }

  /** When the parents the ordering sees have no loop, and the linking finds no other ones, every
      group follows an earlier one and no link is lost. */
  lemma NothingCut(events: seq<Event>, making: Making, linked: seq<Entry>, missing: nat, entries: seq<Entry>,
      cut: seq<nat>, rank: map<nat, nat>)
    requires Whole(events, making, linked, missing, entries, cut, rank) && SortOf(events, making.sorted)
    requires forall k :: !OnCycle(GroupGraph(making.sorted, making.plan.groups), k)
    requires var ordered, groups := Messages(events, making.sorted), GroupsOf(events);
      forall i {:trigger Agrees(ordered, groups, GroupGraph(making.sorted, making.plan.groups), i)} ::
        0 <= i < |ordered| ==> Agrees(ordered, groups, GroupGraph(making.sorted, making.plan.groups), i)
    ensures cut == [] && entries == linked
  {
    MadeIsSorted(events, making);
    AgreeingHaveNoLoop(Messages(events, making.sorted), GroupsOf(events), GroupGraph(making.sorted, making.plan.groups));
    CutExactlyLoops(events, making, linked, missing, entries, cut, rank);
    UncutIsSame(events, linked, entries, cut, rank);
  }

  lemma UncutIsSame(events: seq<Event>, linked: seq<Entry>, entries: seq<Entry>, cut: seq<nat>, rank: map<nat, nat>)
    requires OnlyCut(events, linked, entries, cut, rank) && cut == []
    ensures entries == linked
  {
    assert Parents(entries) == Parents(linked);
    forall n | 0 <= n < |entries|
      ensures entries[n] == linked[n]
    {
      ParentOf(entries, n);
      ParentOf(linked, n);
    }
  }

  // ---- Where they do not

  lemma {:induction false} DownTo(ordered: seq<string>, groups: map<string, seq<Event>>, i: nat, j: nat)
    requires AllGroups(ordered, groups) && i <= j < |ordered|
    requires forall k :: i < k <= j ==> RecordedLink(ordered, groups, k).None?
    ensures Reaches<nat>(GroupLinks(ordered, groups), j, i)
    decreases j
  {
    var g := GroupLinks(ordered, groups);
    assert Climb<nat>(g, j, 0) == Some(j);
    if i < j {
      DownTo(ordered, groups, i, j - 1);
      ReachesStep<nat>(g, j);
      ReachesTrans<nat>(g, j, j - 1, i);
    }
  }

  /** A group found to follow a later one makes a loop when the groups up to that one name no loaded
      parent: each falls back onto the one before. */
  lemma ForwardLinkLoops(ordered: seq<string>, groups: map<string, seq<Event>>, i: nat, j: nat)
    requires AllGroups(ordered, groups) && i < j < |ordered| && RecordedLink(ordered, groups, i) == Some(j)
    requires forall k :: i < k <= j ==> RecordedLink(ordered, groups, k).None?
    ensures !NoLoop(GroupLinks(ordered, groups))
  {
    DownTo(ordered, groups, i, j);
    assert GroupLinks(ordered, groups)[i] == j;
    assert OnCycle<nat>(GroupLinks(ordered, groups), i);
  }

  /** Groups the ordering sees no parents of stay as sorted. */
  lemma UnlinkedMessages(events: seq<Event>, sorted: seq<string>)
    requires SortOf(events, sorted)
    requires (forall k :: k in sorted ==> k in GroupsOf(events)) && forall k :: k in GroupsOf(events) ==>
      GroupsOf(events)[k] != []
    requires GroupGraph(sorted, GroupsOf(events)) == map[]
    ensures Messages(events, sorted) == sorted
  {
    UnlinkedStay(GroupsOf(events).Keys, sorted);
  }

  /** Of two messages, the one sorted first is linked to the other, which the ordering did not see:
      no recorded parents form a loop, and the session reports one. */
  ghost predicate LoopsUnseen(events: seq<Event>, sorted: seq<string>) {
    && SortOf(events, sorted) && (forall k :: k in sorted ==> k in GroupsOf(events))
    && (forall k :: k in GroupsOf(events) ==> GroupsOf(events)[k] != [])
    && GroupGraph(sorted, GroupsOf(events)) == map[] && !NoLoop(SessionLinks(events, sorted))
  }

  lemma PairLoops(events: seq<Event>, a: string, b: string)
    requires SortOf(events, [a, b])
    requires (forall k :: k in [a, b] ==> k in GroupsOf(events)) && forall k :: k in GroupsOf(events) ==>
      GroupsOf(events)[k] != []
    requires GroupGraph([a, b], GroupsOf(events)) == map[] && AllGroups([a, b], GroupsOf(events))
    requires RecordedLink([a, b], GroupsOf(events), 0) == Some(1) && RecordedLink([a, b], GroupsOf(events), 1).None?
    ensures LoopsUnseen(events, [a, b])
  {
    UnlinkedMessages(events, [a, b]);
    ForwardLinkLoops([a, b], GroupsOf(events), 0, 1);
  }

  /** Whoever sorts the events so, the session loses a link though no recorded parents form a loop. */
  lemma UnseenLoopIsCut(events: seq<Event>, making: Making, linked: seq<Entry>, missing: nat, entries: seq<Entry>,
      cut: seq<nat>, rank: map<nat, nat>)
    requires Whole(events, making, linked, missing, entries, cut, rank) && LoopsUnseen(events, making.sorted)
    ensures cut != []
  {
    CutExactlyLoops(events, making, linked, missing, entries, cut, rank);
  }

  // ---- Two messages of one event each

  lemma TwoKeys(c: Event, p: Event)
    requires NativeMessageKey(c) != NativeMessageKey(p)
    ensures KeysOf([c, p]) == [NativeMessageKey(c), NativeMessageKey(p)]
  {
    assert [] + [c] == [c] && [c] + [p] == [c, p];
    KeysMore([], c);
    KeysMore([c], p);
  }

  lemma {:induction false} TwoKeyed(events: seq<Event>, a: string, b: string)
    requires KeysOf(events) == [a, b]
    ensures GroupsOf(events) == map[a := GroupOf(events, a), b := GroupOf(events, b)]
  {
    assert forall k :: k in [a, b] <==> k == a || k == b;
  }

  lemma TwoGroups(c: Event, p: Event)
    requires NativeMessageKey(c) != NativeMessageKey(p)
    ensures var a, b, groups := NativeMessageKey(c), NativeMessageKey(p), GroupsOf([c, p]);
      && SortOf([c, p], [a, b]) && groups == map[a := [c], b := [p]] && AllGroups([a, b], groups)
      && FirstBlock([c]) == c && FirstBlock([p]) == p
  {
    var a, b := NativeMessageKey(c), NativeMessageKey(p);
    assert [c, p][..1] == [c] && [c][..0] == [];
    TwoKeys(c, p);
    assert GroupOf([c], a) == [c] && GroupOf([c], b) == [];
    assert GroupOf([c, p], a) == [c] && GroupOf([c, p], b) == [] + [p];
    TwoKeyed([c, p], a, b);
    assert [] + [p] == [p];
    SortOne(c);
    SortOne(p);
  }

  lemma SortOne(e: Event)
    ensures Sort([e]) == [e] && FirstBlock([e]) == e
  {
    assert [e][..0] == [] && Sort([]) == [] && Insert([], e) == [e];
  }

  lemma TwoOwners(c: Event, p: Event, a: string, b: string, key: string)
    requires a != b && key != c.key && key != p.key
    ensures key !in Owners([a, b], map[a := [c], b := [p]])
  {
    if key in Owners([a, b], map[a := [c], b := [p]]) {
      OwnersHold([a, b], map[a := [c], b := [p]], key);
    }
  }

  /** c names p in a way the linking finds and the ordering does not: by a block of p's message that
      is not loaded, or by p's id or an alias of it; and p names nothing. */
  predicate FoundByLinkOnly(c: Event, p: Event) {
    && NativeMessageKey(c) != NativeMessageKey(p) && p.parentKey == "" && p.nativeParent == "" && c.nativeParent == ""
    && c.parentKey != "" && c.parentKey != c.key && c.parentKey != p.key
    && (if KeyMessage(c.parentKey) == "" || KeyMessage(c.parentKey) !in [NativeMessageKey(c), NativeMessageKey(p)]
        then c.parentKey in NamesOf(p) else KeyMessage(c.parentKey) == NativeMessageKey(p))
  }

  lemma SeenByLink(c: Event, p: Event)
    requires FoundByLinkOnly(c, p)
    ensures var sorted, groups := [NativeMessageKey(c), NativeMessageKey(p)], GroupsOf([c, p]);
      && SortOf([c, p], sorted) && AllGroups(sorted, groups)
      && RecordedLink(sorted, groups, 0) == Some(1) && RecordedLink(sorted, groups, 1).None?
  {
    var sorted, groups := [NativeMessageKey(c), NativeMessageKey(p)], GroupsOf([c, p]);
    TwoGroups(c, p);
    assert p in groups[sorted[1]];
    assert Uses(groups[sorted[1]], c.parentKey) || KeyMessage(c.parentKey) == sorted[1];
  }

  lemma UnseenByOrder(c: Event, p: Event)
    requires FoundByLinkOnly(c, p)
    ensures var sorted, groups := [NativeMessageKey(c), NativeMessageKey(p)], GroupsOf([c, p]);
      && (forall k :: k in sorted ==> k in groups) && (forall k :: k in groups ==> groups[k] != [])
      && GroupGraph(sorted, groups) == map[]
  {
    var a, b := NativeMessageKey(c), NativeMessageKey(p);
    TwoGroups(c, p);
    TwoOwners(c, p, a, b, c.parentKey);
    assert Speaker([c]) == c && Speaker([p]) == p;
  }

  lemma FoundByLinkLoops(c: Event, p: Event)
    requires FoundByLinkOnly(c, p)
    ensures LoopsUnseen([c, p], [NativeMessageKey(c), NativeMessageKey(p)])
  {
    SeenByLink(c, p);
    UnseenByOrder(c, p);
    PairLoops([c, p], NativeMessageKey(c), NativeMessageKey(p));
  }

  // ---- Sessions that lose a link

  /** A message that names its parent by a key the parent had before. */
  const ALIAS_CHILD := Event(1, "x:m1:0", [], Message, "assistant", "", "old", "", "", None)
  const ALIAS_PARENT := Event(2, "x:m2:0", ["old"], Message, "user", "", "", "", "", None)

  /** A message that names a block of its parent that is not loaded. */
  const BLOCK_CHILD := Event(1, "x:m1:0", [], Message, "assistant", "", "x:m2:5", "", "", None)
  const BLOCK_PARENT := Event(2, "x:m2:0", [], Message, "user", "", "", "", "", None)

  /** A message whose first event and first block name different parents. */
  const SPLIT_FIRST := Event(1, "x:m1:1", [], Message, "assistant", "", "gone", "", "", None)
  const SPLIT_SECOND := Event(2, "x:m1:0", [], Message, "assistant", "", "x:m2:0", "", "", None)
  const SPLIT_PARENT := Event(3, "x:m2:0", [], Message, "user", "", "", "", "", None)

  lemma KeysRead()
    ensures KeyMessage("x:m1:0") == "m1" && KeyMessage("x:m1:1") == "m1"
    ensures KeyMessage("x:m2:0") == "m2" && KeyMessage("x:m2:5") == "m2"
    ensures KeyMessage("old") == "old" && KeyMessage("gone") == "gone"
  {
    BlockKey('1', '0');
    BlockKey('1', '1');
    BlockKey('2', '0');
    BlockKey('2', '5');
    PlainKey("old");
    PlainKey("gone");
  }

  lemma BlockKey(m: char, n: char)
    requires Digit(m) && Digit(n)
    ensures KeyMessage(['x', ':', 'm', m, ':', n]) == ['m', m]
  {
    var key, native := ['x', ':', 'm', m, ':', n], ['m', m, ':', n];
    assert key[2..] == native;
    assert AfterColonFrom(key, 1) == native && AfterColonFrom(key, 0) == native;
    assert native[..3] == ['m', m, ':'] && DigitsFrom(native[..3]) == 3;
    assert DigitsFrom(native) == 3 && native[..2] == ['m', m];
  }

  lemma {:induction false} NoColon(key: string, i: nat)
    requires i <= |key| && forall k :: 0 <= k < |key| ==> key[k] != ':'
    ensures AfterColonFrom(key, i) == key
    decreases |key| - i
  {
    if i < |key| {
      NoColon(key, i + 1);
    }
  }

  lemma PlainKey(key: string)
    requires key != "" && (forall k :: 0 <= k < |key| ==> key[k] != ':') && !Digit(key[|key| - 1]) && |key| < 7
    ensures KeyMessage(key) == key
  {
    NoColon(key, 0);
  }

  /** An alias, which the ordering does not look up. */
  lemma AliasedParentLoops()
    ensures LoopsUnseen([ALIAS_CHILD, ALIAS_PARENT], ["m1", "m2"])
  {
    KeysRead();
    assert NamesOf(ALIAS_PARENT)[2] == "old";
    FoundByLinkLoops(ALIAS_CHILD, ALIAS_PARENT);
  }

  /** A block that is not loaded, of a message that is: the ordering looks for the block's key. */
  lemma MissingBlockLoops()
    ensures LoopsUnseen([BLOCK_CHILD, BLOCK_PARENT], ["m1", "m2"])
  {
    KeysRead();
    FoundByLinkLoops(BLOCK_CHILD, BLOCK_PARENT);
  }

  lemma {:induction false} GroupMore(events: seq<Event>, e: Event)
    ensures forall k: string ::
      GroupOf(events + [e], k) == (if NativeMessageKey(e) == k then GroupOf(events, k) + [e] else GroupOf(events, k))
  {
    assert (events + [e])[..|events|] == events;
  }

  lemma ThreeGroups(a: Event, b: Event, c: Event)
    requires NativeMessageKey(a) == NativeMessageKey(b) != NativeMessageKey(c)
    ensures KeysOf([a, b, c]) == [NativeMessageKey(a), NativeMessageKey(c)]
    ensures GroupsOf([a, b, c]) == map[NativeMessageKey(a) := [a, b], NativeMessageKey(c) := [c]]
  {
    assert [] + [a] == [a] && [a] + [b] == [a, b] && [a, b] + [c] == [a, b, c];
    KeysMore([], a);
    KeysMore([a], b);
    KeysMore([a, b], c);
    GroupMore([], a);
    GroupMore([a], b);
    GroupMore([a, b], c);
    TwoKeyed([a, b, c], NativeMessageKey(a), NativeMessageKey(c));
    assert [] + [c] == [c];
    assert GroupOf([a, b, c], NativeMessageKey(a)) == [a, b] && GroupOf([a, b, c], NativeMessageKey(c)) == [c];
  }

  /** Two events of one message that name different parents. The ordering reads the first in the
      order given, which names one that is not loaded, the linking the first block. */
  predicate SplitParents(a: Event, b: Event, c: Event) {
    && NativeMessageKey(a) == NativeMessageKey(b) != NativeMessageKey(c)
    && a.nativeParent == "" && a.parentKey != "" && a.parentKey !in [a.key, b.key, c.key] && FirstBlock([a, b]) == b
    && b.nativeParent == "" && b.parentKey != "" && KeyMessage(b.parentKey) == NativeMessageKey(c) != ""
    && c.parentKey == "" && c.nativeParent == ""
  }

  lemma SplitSorted(a: Event, b: Event, c: Event)
    requires NativeMessageKey(a) == NativeMessageKey(b) != NativeMessageKey(c)
    ensures SortOf([a, b, c], [NativeMessageKey(a), NativeMessageKey(c)])
    ensures AllGroups([NativeMessageKey(a), NativeMessageKey(c)], GroupsOf([a, b, c]))
  {
    ThreeGroups(a, b, c);
  }

  lemma SplitUnseen(a: Event, b: Event, c: Event)
    requires SplitParents(a, b, c)
    ensures var sorted, groups := [NativeMessageKey(a), NativeMessageKey(c)], GroupsOf([a, b, c]);
      && (forall k :: k in sorted ==> k in groups) && (forall k :: k in groups ==> groups[k] != [])
      && GroupGraph(sorted, groups) == map[]
  {
    var sorted, groups := [NativeMessageKey(a), NativeMessageKey(c)], GroupsOf([a, b, c]);
    ThreeGroups(a, b, c);
    if a.parentKey in Owners(sorted, groups) {
      OwnersHold(sorted, groups, a.parentKey);
    }
    assert Speaker([a, b]) == a && Speaker([c]) == c;
  }

  lemma SplitSeen(a: Event, b: Event, c: Event)
    requires SplitParents(a, b, c)
    ensures var sorted, groups := [NativeMessageKey(a), NativeMessageKey(c)], GroupsOf([a, b, c]);
      && AllGroups(sorted, groups)
      && RecordedLink(sorted, groups, 0) == Some(1) && RecordedLink(sorted, groups, 1).None?
  {
    ThreeGroups(a, b, c);
    SortOne(c);
  }

  lemma SplitLoops(a: Event, b: Event, c: Event)
    requires SplitParents(a, b, c)
    ensures LoopsUnseen([a, b, c], [NativeMessageKey(a), NativeMessageKey(c)])
  {
    SplitSorted(a, b, c);
    SplitUnseen(a, b, c);
    SplitSeen(a, b, c);
    PairLoops([a, b, c], NativeMessageKey(a), NativeMessageKey(c));
  }

  lemma SplitFirst()
    ensures FirstBlock([SPLIT_FIRST, SPLIT_SECOND]) == SPLIT_SECOND
  {
    var a, b := SPLIT_FIRST, SPLIT_SECOND;
    BlockNumber('1');
    BlockNumber('0');
    SortOne(a);
    assert [a, b][..1] == [a];
    assert BlockIndex(a) == 1 && BlockIndex(b) == 0;
    assert Insert([a], b) == [b] + [a];
  }

  lemma BlockNumber(n: char)
    requires Digit(n)
    ensures var key := ['x', ':', 'm', '1', ':', n];
      DigitsFrom(key) == 5 && Number(key[5..]) == n as int - '0' as int
  {
    var key := ['x', ':', 'm', '1', ':', n];
    assert key[..5] == ['x', ':', 'm', '1', ':'] && DigitsFrom(key[..5]) == 5;
    assert key[5..] == [n] && [n][..0] == [];
  }

  /** Events of one message that name different parents. */
  lemma SplitParentLoops()
    ensures LoopsUnseen([SPLIT_FIRST, SPLIT_SECOND, SPLIT_PARENT], ["m1", "m2"])
  {
    KeysRead();
    SplitFirst();
    SplitLoops(SPLIT_FIRST, SPLIT_SECOND, SPLIT_PARENT);
  }
}
