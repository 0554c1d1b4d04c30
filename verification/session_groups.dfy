/** Grouping a transcript's events into messages, and putting recorded parents first. */
module SessionGroups {
  import opened Utf8
  import opened ParentGraph

  datatype Kind = Message | Reasoning | ToolCall | Attachment | ToolResult | Note

  /** The fields of a transcript event the grouping and the linking read; empty strings are absent. */
  datatype Event = Event(
    id: nat, key: string, aliases: seq<string>, kind: Kind, role: string, callId: string, parentKey: string,
    nativeMessage: string, nativeParent: string, block: Option<int>)

  // ---- Native message keys

  predicate Digit(c: char) {
    '0' <= c <= '9'
  }

  /** The text after the first colon, or all of it. */
  function AfterColon(key: string): string {
    AfterColonFrom(key, 0)
  }

  function AfterColonFrom(key: string, i: nat): string
    requires i <= |key|
    decreases |key| - i
  {
    if i == |key| then key else if key[i] == ':' then key[i + 1..] else AfterColonFrom(key, i + 1)
  }

  /** Where the run of digits that ends the text starts. */
  function DigitsFrom(text: string): (i: nat)
    ensures i <= |text|
    ensures forall k :: i <= k < |text| ==> Digit(text[k])
    ensures i > 0 ==> !Digit(text[i - 1])
  {
    if text == [] || !Digit(text[|text| - 1]) then |text| else DigitsFrom(text[..|text| - 1])
  }

  /** The text without a colon and digits at its end. */
  function WithoutIndex(text: string): string {
    var i := DigitsFrom(text);
    if i < |text| && i > 0 && text[i - 1] == ':' then text[..i - 1] else text
  }

  function KeyMessage(key: string): string {
    var native := AfterColon(key);
    if "sha256:" <= native then key else WithoutIndex(native)
  }

  function Decimal(n: nat): string {
    if n < 10 then ['0' + n as char] else Decimal(n / 10) + ['0' + (n % 10) as char]
  }

  /** nativeMessageKey. */
  function NativeMessageKey(e: Event): string {
    if e.nativeMessage != "" then e.nativeMessage else KeyMessage(if e.key != "" then e.key else Decimal(e.id))
  }

  // ---- Groups

  /** The events of one message, in the order given. */
  function GroupOf(events: seq<Event>, key: string): seq<Event> {
    if events == [] then []
    else
      var front := GroupOf(events[..|events| - 1], key);
      if NativeMessageKey(events[|events| - 1]) == key then front + [events[|events| - 1]] else front
  }

  ghost predicate Grouped(events: seq<Event>, keys: seq<string>, groups: map<string, seq<Event>>) {
    && Distinct(keys) && groups.Keys == Elements(keys)
    && (forall k :: k in groups ==> groups[k] != [] && groups[k] == GroupOf(events, k))
    && (forall n :: 0 <= n < |events| ==> NativeMessageKey(events[n]) in groups)
  }

  /** A group has its events in the order given. */
  lemma {:induction false} GroupJoins(a: seq<Event>, b: seq<Event>, key: string)
    ensures GroupOf(a + b, key) == GroupOf(a, key) + GroupOf(b, key)
  {
    if b == [] {
      assert a + b == a;
    } else {
      assert (a + b)[..|a + b| - 1] == a + b[..|b| - 1];
      GroupJoins(a, b[..|b| - 1], key);
    }
  }

  lemma {:induction false} GroupOfOne(e: Event, key: string)
    ensures GroupOf([e], key) == if NativeMessageKey(e) == key then [e] else []
  {
    assert [e][..0] == [];
  }

  /** The messages, in the order of their first events. */
  function KeysOf(events: seq<Event>): seq<string> {
    if events == [] then []
    else
      var front, key := KeysOf(events[..|events| - 1]), NativeMessageKey(events[|events| - 1]);
      if key in front then front else front + [key]
  }

  /** Event n is the first of the message. */
  ghost predicate FirstAt(events: seq<Event>, key: string, n: nat) {
    n < |events| && NativeMessageKey(events[n]) == key && forall m :: 0 <= m < n ==> NativeMessageKey(events[m]) != key
  }

  lemma {:induction false} KeyFirst(events: seq<Event>, key: string) returns (n: nat)
    requires key in KeysOf(events)
    ensures FirstAt(events, key, n)
  {
    var front := events[..|events| - 1];
    if key in KeysOf(front) {
      n := KeyFirst(front, key);
    } else {
      n := |events| - 1;
      forall m: nat | m < n
        ensures NativeMessageKey(events[m]) != key
      {
        HasKey(front, m);
      }
    }
  }

  lemma {:induction false} HasKey(events: seq<Event>, m: nat)
    requires m < |events|
    ensures NativeMessageKey(events[m]) in KeysOf(events)
  {
    if m < |events| - 1 {
      HasKey(events[..|events| - 1], m);
    }
  }

  /** The first event of a message comes before those of the messages after it. */
  lemma {:induction false} KeysAreFirst(events: seq<Event>, i: nat, j: nat) returns (n: nat, m: nat)
    requires i < j < |KeysOf(events)|
    ensures n < m && FirstAt(events, KeysOf(events)[i], n) && FirstAt(events, KeysOf(events)[j], m)
  {
    var front := events[..|events| - 1];
    if j < |KeysOf(front)| {
      n, m := KeysAreFirst(front, i, j);
    } else {
      n := KeyFirst(front, KeysOf(front)[i]);
      m := KeyFirst(events, KeysOf(events)[j]);
      if m < |front| {
        HasKey(front, m);
      }
    }
  }

  /** The events by message. */
  function GroupsOf(events: seq<Event>): map<string, seq<Event>> {
    map k | k in KeysOf(events) :: GroupOf(events, k)
  }

  lemma {:induction false} KeysMore(events: seq<Event>, e: Event)
    ensures var keys, k := KeysOf(events), NativeMessageKey(e); KeysOf(events + [e]) == if k in keys then keys else keys + [k]
  {
    assert (events + [e])[..|events|] == events;
  }

  lemma {:induction false} GroupedIsOne(events: seq<Event>, keys: seq<string>, groups: map<string, seq<Event>>)
    requires Grouped(events, keys, groups) && keys == KeysOf(events)
    ensures groups == GroupsOf(events)
  {
    assert forall k :: k in groups <==> k in Elements(keys);
  }

  lemma GroupedMore(events: seq<Event>, keys: seq<string>, groups: map<string, seq<Event>>, e: Event)
    requires Grouped(events, keys, groups)
    ensures var k := NativeMessageKey(e);
      Grouped(events + [e], if k in groups then keys else keys + [k], groups[k := (if k in groups then groups[k] else []) + [e]])
  {
    var more := events + [e];
    var k := NativeMessageKey(e);
    assert more[..|more| - 1] == events;
    if k !in groups {
      GroupEmpty(events, k);
      assert Elements(keys + [k]) == Elements(keys) + {k};
      assert k !in Elements(keys);
    }
  }

  lemma {:induction false} GroupEmpty(events: seq<Event>, key: string)
    requires forall n :: 0 <= n < |events| ==> NativeMessageKey(events[n]) != key
    ensures GroupOf(events, key) == []
  {
    if events != [] {
      GroupEmpty(events[..|events| - 1], key);
    }
  }

  /** The events so far by message. */
  ghost predicate Grouping(events: seq<Event>, keys: seq<string>, groups: map<string, seq<Event>>) {
    Grouped(events, keys, groups) && keys == KeysOf(events)
  }

  lemma GroupingMore(events: seq<Event>, keys: seq<string>, groups: map<string, seq<Event>>, e: Event)
    requires Grouping(events, keys, groups)
    ensures var k := NativeMessageKey(e);
      Grouping(events + [e], if k in groups then keys else keys + [k], groups[k := (if k in groups then groups[k] else []) + [e]])
  {
    var k := NativeMessageKey(e);
    GroupedMore(events, keys, groups, e);
    KeysMore(events, e);
    assert k in groups <==> k in Elements(keys);
  }

  lemma GroupingNext(events: seq<Event>, i: nat, keys: seq<string>, groups: map<string, seq<Event>>)
    requires i < |events| && Grouping(events[..i], keys, groups)
    ensures var k := NativeMessageKey(events[i]);
      Grouping(events[..i + 1], if k in groups then keys else keys + [k],
        groups[k := (if k in groups then groups[k] else []) + [events[i]]])
  {
    GroupingMore(events[..i], keys, groups, events[i]);
    assert events[..i] + [events[i]] == events[..i + 1];
  }

  method GroupEvents(events: seq<Event>) returns (keys: seq<string>, groups: map<string, seq<Event>>)
    ensures Grouped(events, keys, groups) && keys == KeysOf(events) && groups == GroupsOf(events)
  {
    keys, groups := [], map[];
    var i := 0;
    while i < |events|
      invariant i <= |events| && Grouping(events[..i], keys, groups)
    {
      var key := NativeMessageKey(events[i]);
      GroupingNext(events, i, keys, groups);
      if key in groups {
        groups := groups[key := groups[key] + [events[i]]];
      } else {
        keys, groups := keys + [key], groups[key := [] + [events[i]]];
      }
      i := i + 1;
    }
    assert events[..i] == events;
    GroupedIsOne(events, keys, groups);
  }

  // ---- Recorded parents

  predicate NamesParent(e: Event) {
    e.parentKey != "" || e.nativeParent != ""
  }

  /** The event of the group whose parent counts. */
  function Speaker(group: seq<Event>): Event
    requires group != []
  {
    if NamesParent(group[0]) || |group| == 1 then group[0]
    else
      var rest := Speaker(group[1..]);
      if NamesParent(rest) then rest else group[0]
  }

  /** It is the first that names a parent, in the order given, or else the first of all. */
  lemma {:induction false} SpeakerIs(group: seq<Event>) returns (i: nat)
    requires group != []
    ensures i < |group| && group[i] == Speaker(group)
    ensures forall j :: 0 <= j < i ==> group[j].parentKey == "" && group[j].nativeParent == ""
    ensures group[i].parentKey != "" || group[i].nativeParent != "" ||
      (i == 0 && forall j :: 0 <= j < |group| ==> group[j].parentKey == "" && group[j].nativeParent == "")
  {
    if NamesParent(group[0]) || |group| == 1 {
      i := 0;
    } else {
      var k := SpeakerIs(group[1..]);
      i := if NamesParent(group[k + 1]) then k + 1 else 0;
      assert forall j :: 1 <= j < |group| ==> group[j] == group[1..][j - 1];
    }
  }

  function Claim(owners: map<string, string>, group: seq<Event>, name: string): map<string, string> {
    if group == [] then owners else Claim(owners, group[..|group| - 1], name)[group[|group| - 1].key := name]
  }

  /** A key several groups use belongs to the one sorted last. */
  function Owners(sorted: seq<string>, groups: map<string, seq<Event>>): map<string, string>
    requires forall k :: k in sorted ==> k in groups
  {
    if sorted == [] then map[] else Claim(Owners(sorted[..|sorted| - 1], groups), groups[sorted[|sorted| - 1]], sorted[|sorted| - 1])
  }

  lemma {:induction false} ClaimAt(owners: map<string, string>, group: seq<Event>, name: string, key: string)
    ensures key in Claim(owners, group, name) <==> key in owners || exists n :: 0 <= n < |group| && group[n].key == key
    ensures key in Claim(owners, group, name) ==>
      Claim(owners, group, name)[key] == if exists n ::
        0 <= n < |group| && group[n].key == key then name else owners[key]
  {
    if group != [] {
      var front := group[..|group| - 1];
      ClaimAt(owners, front, name, key);
      assert forall n :: 0 <= n < |front| ==> front[n] == group[n];
    }
  }

  /** The owner of a key is a group with an event of that key. */
  lemma {:induction false} OwnersHold(sorted: seq<string>, groups: map<string, seq<Event>>, key: string)
    requires forall k :: k in sorted ==> k in groups
    requires key in Owners(sorted, groups)
    ensures Owners(sorted, groups)[key] in sorted
    ensures exists n ::
      0 <= n < |groups[Owners(sorted, groups)[key]]| && groups[Owners(sorted, groups)[key]][n].key == key
  {
    if sorted != [] {
      var front, last := sorted[..|sorted| - 1], sorted[|sorted| - 1];
      ClaimAt(Owners(front, groups), groups[last], last, key);
      if !(exists n :: 0 <= n < |groups[last]| && groups[last][n].key == key) {
        OwnersHold(front, groups, key);
      }
    }
  }

  method GroupsByKey(sorted: seq<string>, groups: map<string, seq<Event>>) returns (groupOfKey: map<string, string>)
    requires forall k :: k in sorted ==> k in groups
    ensures groupOfKey == Owners(sorted, groups)
  {
    groupOfKey := map[];
    var i := 0;
    while i < |sorted|
      invariant i <= |sorted| && groupOfKey == Owners(sorted[..i], groups)
    {
      var group := groups[sorted[i]];
      ghost var before := groupOfKey;
      var j := 0;
      while j < |group|
        invariant j <= |group| && groupOfKey == Claim(before, group[..j], sorted[i])
      {
        assert group[..j + 1][..j] == group[..j];
        groupOfKey := groupOfKey[group[j].key := sorted[i]];
        j := j + 1;
      }
      assert group[..j] == group && sorted[..i + 1][..i] == sorted[..i];
      i := i + 1;
    }
    assert sorted[..i] == sorted;
  }

  /** The group a group's recorded parent is in, if it is loaded. */
  function ParentGroup(groups: map<string, seq<Event>>, owners: map<string, string>, key: string): Option<string>
    requires key in groups && groups[key] != []
  {
    var first := Speaker(groups[key]);
    if first.nativeParent != "" && first.nativeParent in groups then Some(first.nativeParent)
    else if first.parentKey != "" && first.parentKey in owners then Some(owners[first.parentKey])
    else None
  }

  /** The recorded parents between groups. */
  function GroupGraph(sorted: seq<string>, groups: map<string, seq<Event>>): (g: Graph<string>)
    requires (forall k :: k in sorted ==> k in groups) && forall k :: k in groups ==> groups[k] != []
  {
    var owners := Owners(sorted, groups);
    map k | k in groups && ParentGroup(groups, owners, k).Some? :: ParentGroup(groups, owners, k).value
  }

  lemma {:induction false} GraphInside(sorted: seq<string>, groups: map<string, seq<Event>>)
    requires (forall k :: k in sorted ==> k in groups) && forall k :: k in groups ==> groups[k] != []
    ensures forall k :: k in GroupGraph(sorted, groups) ==> GroupGraph(sorted, groups)[k] in groups
  {
    var g := GroupGraph(sorted, groups);
    forall k | k in g
      ensures g[k] in groups
    {
      if Speaker(groups[k]).parentKey in Owners(sorted, groups) {
        OwnersHold(sorted, groups, Speaker(groups[k]).parentKey);
      }
    }
  }

  /** The groups as they are sorted, each behind its recorded parents. */
  function OrderedGroups(sorted: seq<string>, groups: map<string, seq<Event>>): seq<string>
    requires (forall k :: k in sorted ==> k in groups) && forall k :: k in groups ==> groups[k] != []
  {
    GraphInside(sorted, groups);
    Order(GroupGraph(sorted, groups), groups.Keys, sorted)
  }

  /** Groups in an order with every recorded parent first, except across one link of each loop, and
      otherwise as sorted. The comparator of the sort mixes two orders, so `sorted` may be any
      permutation. */
  method OrderGroups(events: seq<Event>, keys: seq<string>, groups: map<string, seq<Event>>, sorted: seq<string>)
      returns (ordered: seq<string>)
    requires Grouped(events, keys, groups) && Distinct(sorted) && Elements(sorted) == Elements(keys)
    ensures Distinct(ordered) && Elements(ordered) == Elements(keys) && forall k :: k in sorted ==> k in groups
    ensures ParentsFirst(GroupGraph(sorted, groups), ordered)
    ensures ordered == OrderedGroups(sorted, groups)
  {
    assert forall k :: k in sorted <==> k in Elements(sorted);
    assert forall k :: k in keys <==> k in Elements(keys);
    var owners := GroupsByKey(sorted, groups);
    var g := map k | k in groups && ParentGroup(groups, owners, k).Some? :: ParentGroup(groups, owners, k).value;
    assert g == GroupGraph(sorted, groups);
    GraphInside(sorted, groups);
    assert groups.Keys == Elements(sorted);
    ordered := OrderParentsFirst(sorted, g);
  }
}
