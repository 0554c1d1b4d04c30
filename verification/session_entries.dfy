/** Building the entries of one message group after the other. */
module SessionEntries {
  import opened Utf8
  import opened SessionGroups

  datatype EntryRole = System | User | Assistant | Result | Other

  datatype Entry = Entry(id: nat, parentId: Option<nat>, role: EntryRole, callId: string, sources: seq<Event>)

  // ---- Blocks in order

  function Number(digits: string): nat
    requires forall k :: 0 <= k < |digits| ==> Digit(digits[k])
  {
    if digits == "" then 0
    else
      assert Digit(digits[|digits| - 1]);
      10 * Number(digits[..|digits| - 1]) + (digits[|digits| - 1] as int - '0' as int)
  }

  function BlockIndex(e: Event): int {
    if e.block.Some? then e.block.value
    else
      var i := DigitsFrom(e.key);
      if i < |e.key| && i > 0 && e.key[i - 1] == ':' then Number(e.key[i..]) else e.id
  }

  predicate Before(a: Event, b: Event) {
    BlockIndex(a) < BlockIndex(b) || (BlockIndex(a) == BlockIndex(b) && a.id <= b.id)
  }

  function Insert(sorted: seq<Event>, e: Event): seq<Event> {
    if sorted == [] then [e]
    else if Before(sorted[0], e) then [sorted[0]] + Insert(sorted[1..], e)
    else [e] + sorted
  }

  /** The blocks of a message in order. */
  function Sort(group: seq<Event>): seq<Event> {
    if group == [] then [] else Insert(Sort(group[..|group| - 1]), group[|group| - 1])
  }

  lemma {:induction false} InsertKeeps(sorted: seq<Event>, e: Event)
    ensures multiset(Insert(sorted, e)) == multiset(sorted) + multiset{e}
    ensures |Insert(sorted, e)| == |sorted| + 1
  {
    if sorted != [] {
      assert sorted == [sorted[0]] + sorted[1..];
      InsertKeeps(sorted[1..], e);
    }
  }

  lemma {:induction false} SortKeeps(group: seq<Event>)
    ensures multiset(Sort(group)) == multiset(group) && |Sort(group)| == |group|
  {
    if group != [] {
      var front, last := group[..|group| - 1], group[|group| - 1];
      assert group == front + [last];
      SortKeeps(front);
      InsertKeeps(Sort(front), last);
    }
  }

  /** Blocks ascend, and events of one block by their ids. */
  ghost predicate Ascends(events: seq<Event>) {
    forall i, j {:trigger Upwards(events, i, j)} :: 0 <= i < j < |events| ==> Upwards(events, i, j)
  }

  ghost predicate Upwards(events: seq<Event>, i: nat, j: nat)
    requires i < |events| && j < |events|
  {
    || BlockIndex(events[i]) < BlockIndex(events[j])
    || (BlockIndex(events[i]) == BlockIndex(events[j]) && events[i].id <= events[j].id)
  }

  lemma AscendsPart(events: seq<Event>, a: nat, b: nat)
    requires Ascends(events) && a <= b <= |events|
    ensures Ascends(events[a..b])
  {
    forall i: nat, j: nat | i < j < b - a
      ensures Upwards(events[a..b], i, j)
    {
      assert Upwards(events, a + i, a + j);
    }
  }

  lemma {:induction false} InsertAscends(sorted: seq<Event>, e: Event)
    requires Ascends(sorted)
    ensures Ascends(Insert(sorted, e)) && forall s :: s in Insert(sorted, e) <==> s in sorted || s == e
  {
    if sorted != [] {
      var first, rest := sorted[0], sorted[1..];
      assert sorted == [first] + rest;
      AscendsPart(sorted, 1, |sorted|);
      assert rest == sorted[1..|sorted|];
      InsertAscends(rest, e);
      forall s | s in rest
        ensures Before(first, s)
      {
        var j :| 0 <= j < |rest| && rest[j] == s;
        assert Upwards(sorted, 0, j + 1);
      }
      if Before(first, e) {
        AscendsCons(first, Insert(rest, e));
      } else {
        assert forall s :: s in sorted ==> Before(e, s);
        AscendsCons(e, sorted);
      }
    }
  }

  lemma AscendsCons(e: Event, rest: seq<Event>)
    requires Ascends(rest) && forall s :: s in rest ==> Before(e, s)
    ensures Ascends([e] + rest)
  {
    var all := [e] + rest;
    forall i: nat, j: nat | i < j < |all|
      ensures Upwards(all, i, j)
    {
      assert all[j] == rest[j - 1] && all[j] in rest;
      assert i > 0 ==> Upwards(rest, i - 1, j - 1);
    }
  }

  lemma AscendsSnoc(front: seq<Event>, e: Event)
    requires Ascends(front) && forall s :: s in front ==> Before(s, e)
    ensures Ascends(front + [e])
  {
    var all := front + [e];
    forall i: nat, j: nat | i < j < |all|
      ensures Upwards(all, i, j)
    {
      assert all[i] == front[i] && all[i] in front;
      assert j < |front| ==> Upwards(front, i, j);
    }
  }

  /** The blocks of a message come in order, whatever order they are given in. */
  lemma {:induction false} SortAscends(group: seq<Event>)
    ensures Ascends(Sort(group))
  {
    if group != [] {
      SortAscends(group[..|group| - 1]);
      InsertAscends(Sort(group[..|group| - 1]), group[|group| - 1]);
    }
  }

  // ---- The number of a block

  lemma {:induction false} DigitsAfter(text: string, digits: string)
    requires (forall k :: 0 <= k < |digits| ==> Digit(digits[k])) && (text == "" || !Digit(text[|text| - 1]))
    ensures DigitsFrom(text + digits) == |text|
  {
    if digits == "" {
      assert text + digits == text;
    } else {
      assert (text + digits)[..|text + digits| - 1] == text + digits[..|digits| - 1];
      DigitsAfter(text, digits[..|digits| - 1]);
    }
  }

  lemma {:induction false} DecimalDigits(n: nat)
    ensures Decimal(n) != "" && forall k :: 0 <= k < |Decimal(n)| ==> Digit(Decimal(n)[k])
  {
    if n >= 10 {
      DecimalDigits(n / 10);
    }
  }

  lemma {:induction false} NumberOfDecimal(n: nat)
    ensures (forall k :: 0 <= k < |Decimal(n)| ==> Digit(Decimal(n)[k])) && Number(Decimal(n)) == n
  {
    DecimalDigits(n);
    if n >= 10 {
      NumberOfDecimal(n / 10);
      assert Decimal(n)[..|Decimal(n)| - 1] == Decimal(n / 10);
    } else {
      assert Decimal(n)[..0] == "";
    }
  }

  /** A block's number is what its key has after the last colon, however many digits. */
  lemma {:induction false} BlockIsNumbered(e: Event, message: string, n: nat)
    requires e.block.None? && e.key == message + [':'] + Decimal(n)
    ensures BlockIndex(e) == n
  {
    NumberOfDecimal(n);
    DecimalDigits(n);
    DigitsAfter(message + [':'], Decimal(n));
    assert e.key[|message| + 1..] == Decimal(n);
  }

  /** A key that ends otherwise gives no number. */
  lemma BlockIsNot(e: Event)
    requires e.block.None?
    requires forall m: nat :: m < |e.key| && e.key[m] == ':' ==>
      m + 1 == |e.key| || exists k :: m < k < |e.key| && !Digit(e.key[k])
    ensures BlockIndex(e) == e.id
  {
    var i := DigitsFrom(e.key);
    assert forall k :: i - 1 < k < |e.key| ==> Digit(e.key[k]);
  }

  /** All numbered blocks of a message have its key, unless that is a digest. */
  lemma {:induction false} BlockOfMessage(harness: string, message: string, n: nat)
    requires ':' !in harness && !("sha256:" <= message + [':'] + Decimal(n))
    ensures KeyMessage(harness + [':'] + message + [':'] + Decimal(n)) == message
  {
    var native := message + [':'] + Decimal(n);
    var key := harness + [':'] + message + [':'] + Decimal(n);
    assert key == harness + [':'] + native;
    AfterFirst(harness, native, 0);
    DecimalDigits(n);
    DigitsAfter(message + [':'], Decimal(n));
  }

  /** A key is of a message of its own when its native part does not end in a colon and digits. */
  lemma {:induction false} OwnMessage(harness: string, native: string)
    requires ':' !in harness && !("sha256:" <= native)
    requires forall m: nat :: m < |native| && native[m] == ':' ==>
      m + 1 == |native| || exists k :: m < k < |native| && !Digit(native[k])
    ensures KeyMessage(harness + [':'] + native) == native
  {
    AfterFirst(harness, native, 0);
    var i := DigitsFrom(native);
    assert forall k :: i - 1 < k < |native| ==> Digit(native[k]);
  }

  /** So is one whose native part is a digest, and then it keeps its harness. */
  lemma {:induction false} DigestMessage(harness: string, native: string)
    requires ':' !in harness && "sha256:" <= native
    ensures KeyMessage(harness + [':'] + native) == harness + [':'] + native
  {
    AfterFirst(harness, native, 0);
  }

  lemma {:induction false} AfterFirst(head: string, rest: string, i: nat)
    requires ':' !in head && i <= |head|
    ensures AfterColonFrom(head + [':'] + rest, i) == rest
    decreases |head| - i
  {
    var key := head + [':'] + rest;
    if i < |head| {
      assert key[i] == head[i];
      AfterFirst(head, rest, i + 1);
    } else {
      assert key[i] == ':' && key[i + 1..] == rest;
    }
  }

  // ---- Sources

  function AllSources(entries: seq<Entry>): multiset<Event> {
    if entries == [] then multiset{} else AllSources(entries[..|entries| - 1]) + multiset(entries[|entries| - 1].sources)
  }

  lemma {:induction false} SourcesSnoc(entries: seq<Entry>, entry: Entry)
    ensures AllSources(entries + [entry]) == AllSources(entries) + multiset(entry.sources)
  {
    assert (entries + [entry])[..|entries|] == entries;
  }

  lemma {:induction false} SourcesAdd(entries: seq<Entry>, n: nat, entry: Entry, e: Event)
    requires n < |entries| && entry.sources == entries[n].sources + [e]
    ensures AllSources(entries[n := entry]) == AllSources(entries) + multiset{e}
    decreases |entries|
  {
    var front, last := entries[..|entries| - 1], |entries| - 1;
    if n == last {
      assert entries[n := entry][..last] == front;
    } else {
      SourcesAdd(front, n, entry, e);
      assert entries[n := entry][..last] == front[n := entry];
    }
  }

  lemma {:induction false} SourcesSame(a: seq<Entry>, b: seq<Entry>)
    requires |a| == |b| && forall n :: 0 <= n < |a| ==> a[n].sources == b[n].sources
    ensures AllSources(a) == AllSources(b)
  {
    if a != [] {
      SourcesSame(a[..|a| - 1], b[..|b| - 1]);
    }
  }

  lemma {:induction false} SourcesHold(entries: seq<Entry>, n: nat, e: Event)
    requires n < |entries| && e in entries[n].sources
    ensures AllSources(entries)[e] >= 1
  {
    if n < |entries| - 1 {
      SourcesHold(entries[..|entries| - 1], n, e);
    }
  }

  lemma {:induction false} SourcesTwice(entries: seq<Entry>, m: nat, n: nat, e: Event)
    requires m < n < |entries| && e in entries[m].sources && e in entries[n].sources
    ensures AllSources(entries)[e] >= 2
  {
    var front := entries[..|entries| - 1];
    if n == |entries| - 1 {
      SourcesHold(front, m, e);
    } else {
      SourcesTwice(front, m, n, e);
    }
  }

  lemma {:induction false} SourcesFrom(entries: seq<Entry>, e: Event) returns (n: nat)
    requires AllSources(entries)[e] >= 1
    ensures n < |entries| && e in entries[n].sources
  {
    n := |entries| - 1;
    if e !in entries[n].sources {
      n := SourcesFrom(entries[..n], e);
    }
  }

  // ---- One group

  /** A block of a message, as opposed to a result or a note. */
  predicate IsContent(e: Event) {
    && e.kind in {Message, Reasoning, ToolCall, Attachment}
    && (e.role == "" || e.role == "user" || e.role == "assistant" || e.kind == ToolCall || (e.kind == Message && e.role == "system"))
  }

  function RoleOf(e: Event): EntryRole {
    if IsContent(e) then
      if e.role == "user" then User else if e.role == "system" then System else Assistant
    else if e.kind == ToolResult then Result
    else Other
  }

  /** What each event is shown as, by kind and then by role. */
  lemma ShownAs(e: Event)
    ensures match e.kind
      case ToolResult => RoleOf(e) == Result
      case Note => RoleOf(e) == Other
      case ToolCall =>
        RoleOf(e) == (if e.role == "user" then User else if e.role == "system" then System else Assistant)
      case Message =>
        && (RoleOf(e) == User <==> e.role == "user") && (RoleOf(e) == System <==> e.role == "system")
        && (RoleOf(e) == Assistant <==> e.role == "" || e.role == "assistant") && RoleOf(e) != Result
      case _ =>
        && (RoleOf(e) == User <==> e.role == "user") && (RoleOf(e) == Assistant <==> e.role == "" || e.role == "assistant")
        && RoleOf(e) != System && RoleOf(e) != Result
    ensures IsContent(e) <==> RoleOf(e) != Result && RoleOf(e) != Other
  {
  }

  /** An entry shows events of one role, in the order of their blocks; a result entry those of one
      call, any other note one event. */
  ghost predicate Fits(entry: Entry) {
    && entry.sources != [] && entry.sources[0].id == entry.id
    && (forall s :: s in entry.sources ==>
      RoleOf(s) == entry.role && (entry.role == Result ==> s.callId == entry.callId))
    && (entry.role == Other ==> |entry.sources| == 1) && Ascends(entry.sources)
  }

  /** An entry of a group follows the one before it. */
  ghost predicate EntryOk(entries: seq<Entry>, start: nat, n: nat)
    requires start <= n < |entries|
  {
    Fits(entries[n]) && entries[n].parentId == if n == start then None else Some(entries[n - 1].id)
  }

  ghost predicate Good(entries: seq<Entry>, start: nat) {
    start <= |entries| && forall n {:trigger EntryOk(entries, start, n)} :: start <= n < |entries| ==>
      EntryOk(entries, start, n)
  }

  /** Results of one call are one entry. */
  ghost predicate CallsApart(entries: seq<Entry>, start: nat) {
    forall m, n :: 0 <= start <= m < n < |entries| && entries[m].role == Result && entries[n].role == Result ==>
      entries[m].callId != entries[n].callId
  }

  ghost predicate SameEntry(entries: seq<Entry>, a: Event, b: Event) {
    exists n :: 0 <= n < |entries| && a in entries[n].sources && b in entries[n].sources
  }

  predicate SameMessage(a: Event, b: Event) {
    IsContent(a) && IsContent(b) && RoleOf(a) == RoleOf(b)
  }

  ghost predicate RunJoined(entries: seq<Entry>, done: seq<Event>, i: nat)
    requires 0 < i < |done|
  {
    SameMessage(done[i - 1], done[i]) ==> SameEntry(entries, done[i - 1], done[i])
  }

  /** Consecutive blocks of one role are one entry. */
  ghost predicate RunsJoined(entries: seq<Entry>, done: seq<Event>) {
    forall i {:trigger RunJoined(entries, done, i)} :: 0 < i < |done| ==> RunJoined(entries, done, i)
  }

  /** The entries with those a group's events made. */
  ghost predicate Added(before: seq<Entry>, entries: seq<Entry>, done: seq<Event>) {
    && before <= entries && Good(entries, |before|) && CallsApart(entries, |before|)
    && AllSources(entries) == AllSources(before) + multiset(done)
    && RunsJoined(entries, done)
    && (done != [] ==> |entries| > |before|)
  }

  /** The message that is open after some events: that of the last one, when it is a block. */
  ghost predicate OpenMessage(entries: seq<Entry>, start: nat, done: seq<Event>, message: Option<nat>) {
    && (message.Some? <==> done != [] && IsContent(done[|done| - 1]))
    && (message.Some? ==>
          && |entries| > start && message.value == |entries| - 1
          && entries[message.value].role == RoleOf(done[|done| - 1]) && done[|done| - 1] in entries[message.value].sources)
  }

  ghost predicate Adding(before: seq<Entry>, entries: seq<Entry>, done: seq<Event>, message: Option<nat>) {
    Added(before, entries, done) && OpenMessage(entries, |before|, done, message) && FromGroup(entries, |before|, done)
  }

  /** The new entries have events of the group only. */
  ghost predicate FromGroup(entries: seq<Entry>, start: nat, done: seq<Event>) {
    forall n, s :: start <= n < |entries| && s in entries[n].sources ==> s in done
  }

  lemma FromGroupMore(entries: seq<Entry>, start: nat, done: seq<Event>, after: seq<Entry>, e: Event)
    requires FromGroup(entries, start, done) && |entries| <= |after| && start <= |entries|
    requires forall n, s :: start <= n < |after| && s in after[n].sources ==>
      s == e || (n < |entries| && s in entries[n].sources)
    ensures FromGroup(after, start, done + [e])
  {
  }

  /** What comes next in an ascending group comes after what an entry has of it. */
  lemma ComesAfter(entries: seq<Entry>, start: nat, done: seq<Event>, e: Event, n: nat)
    requires FromGroup(entries, start, done) && Ascends(done + [e]) && start <= n < |entries|
    ensures forall s :: s in entries[n].sources ==> Before(s, e)
  {
    var more := done + [e];
    forall s | s in entries[n].sources
      ensures Before(s, e)
    {
      assert s in done;
      var i :| 0 <= i < |done| && done[i] == s;
      assert Upwards(more, i, |done|);
    }
  }

  lemma RunsMore(entries: seq<Entry>, after: seq<Entry>, done: seq<Event>, e: Event)
    requires RunsJoined(entries, done) && |entries| <= |after|
    requires forall n, s :: 0 <= n < |entries| && s in entries[n].sources ==> s in after[n].sources
    requires done != [] && SameMessage(done[|done| - 1], e) ==> SameEntry(after, done[|done| - 1], e)
    ensures RunsJoined(after, done + [e])
  {
    var more := done + [e];
    forall i: nat | 0 < i < |more|
      ensures RunJoined(after, more, i)
    {
      if i < |done| {
        assert RunJoined(entries, done, i);
      }
    }
  }

  function Opened(entries: seq<Entry>, start: nat, e: Event): Entry
    requires start <= |entries|
  {
    var above := if |entries| == start then None else Some(entries[|entries| - 1].id);
    Entry(e.id, above, RoleOf(e), if RoleOf(e) == Result then e.callId else "", [e])
  }

  lemma GoodAppended(entries: seq<Entry>, start: nat, e: Event)
    requires Good(entries, start)
    ensures Good(entries + [Opened(entries, start, e)], start)
  {
    var more := entries + [Opened(entries, start, e)];
    forall n: nat | start <= n < |more|
      ensures EntryOk(more, start, n)
    {
      if n < |entries| {
        assert EntryOk(entries, start, n);
      }
    }
  }

  lemma OpenedFrom(entries: seq<Entry>, start: nat, done: seq<Event>, e: Event)
    requires FromGroup(entries, start, done) && start <= |entries|
    ensures FromGroup(entries + [Opened(entries, start, e)], start, done + [e])
  {
    FromGroupMore(entries, start, done, entries + [Opened(entries, start, e)], e);
  }

  lemma AppendedCalls(entries: seq<Entry>, start: nat, e: Event)
    requires CallsApart(entries, start) && start <= |entries|
    requires RoleOf(e) == Result ==> forall n :: start <= n < |entries| && entries[n].role == Result ==>
      entries[n].callId != e.callId
    ensures CallsApart(entries + [Opened(entries, start, e)], start)
  {
  }

  lemma Appended(before: seq<Entry>, entries: seq<Entry>, done: seq<Event>, message: Option<nat>, e: Event)
    requires Adding(before, entries, done, message)
    requires RoleOf(e) == Result ==> forall n :: |before| <= n < |entries| && entries[n].role == Result ==>
      entries[n].callId != e.callId
    requires IsContent(e) && message.Some? ==> entries[message.value].role != RoleOf(e)
    ensures Adding(before, entries + [Opened(entries, |before|, e)], done + [e], if IsContent(e) then Some(|entries|) else None)
  {
    GoodAppended(entries, |before|, e);
    AppendedCalls(entries, |before|, e);
    OpenedFrom(entries, |before|, done, e);
    SourcesSnoc(entries, Opened(entries, |before|, e));
    RunsMore(entries, entries + [Opened(entries, |before|, e)], done, e);
  }

  function WithSource(entry: Entry, e: Event): Entry {
    entry.(sources := entry.sources + [e])
  }

  lemma GoodJoined(entries: seq<Entry>, start: nat, e: Event, n: nat)
    requires Good(entries, start) && start <= n < |entries|
    requires entries[n].role == RoleOf(e) && RoleOf(e) != Other
    requires (RoleOf(e) == Result ==> entries[n].callId == e.callId)
    requires forall s :: s in entries[n].sources ==> Before(s, e)
    ensures Good(entries[n := WithSource(entries[n], e)], start)
  {
    var after := entries[n := WithSource(entries[n], e)];
    assert EntryOk(entries, start, n);
    AscendsSnoc(entries[n].sources, e);
    assert Fits(WithSource(entries[n], e));
    forall k: nat | start <= k < |after|
      ensures EntryOk(after, start, k)
    {
      assert EntryOk(entries, start, k);
    }
  }

  lemma JoinedRuns(entries: seq<Entry>, done: seq<Event>, e: Event, n: nat)
    requires RunsJoined(entries, done) && n < |entries|
    requires done != [] && SameMessage(done[|done| - 1], e) ==> done[|done| - 1] in entries[n].sources
    ensures RunsJoined(entries[n := WithSource(entries[n], e)], done + [e])
  {
    var after := entries[n := WithSource(entries[n], e)];
    assert e in after[n].sources;
    RunsMore(entries, after, done, e);
  }

  lemma Joined(before: seq<Entry>, entries: seq<Entry>, done: seq<Event>, message: Option<nat>, e: Event, n: nat)
    requires Adding(before, entries, done, message) && |before| <= n < |entries|
    requires entries[n].role == RoleOf(e) && RoleOf(e) != Other
    requires (RoleOf(e) == Result ==> entries[n].callId == e.callId)
    requires (IsContent(e) ==> message == Some(n)) && Ascends(done + [e])
    ensures Adding(before, entries[n := WithSource(entries[n], e)], done + [e], if IsContent(e) then message else None)
  {
    ComesAfter(entries, |before|, done, e, n);
    GoodJoined(entries, |before|, e, n);
    FromGroupMore(entries, |before|, done, entries[n := WithSource(entries[n], e)], e);
    SourcesAdd(entries, n, WithSource(entries[n], e), e);
    JoinedRuns(entries, done, e, n);
  }

  lemma AddingStarts(before: seq<Entry>)
    ensures Adding(before, before, [], None)
  {
  }

  method FindResult(entries: seq<Entry>, start: nat, callId: string) returns (found: Option<nat>)
    requires start <= |entries|
    ensures found.Some? ==>
      start <= found.value < |entries| && entries[found.value].role == Result && entries[found.value].callId == callId
    ensures found.None? ==> forall n :: start <= n < |entries| && entries[n].role == Result ==>
      entries[n].callId != callId
  {
    var n := start;
    while n < |entries|
      invariant start <= n <= |entries|
      invariant forall m :: start <= m < n && entries[m].role == Result ==> entries[m].callId != callId
    {
      if entries[n].role == Result && entries[n].callId == callId {
        return Some(n);
      }
      n := n + 1;
    }
    found := None;
  }

  /** The entry an event joins: the open message of its role, or its call's result. */
  method FindOpen(before: seq<Entry>, entries: seq<Entry>, ghost done: seq<Event>, message: Option<nat>, e: Event)
      returns (found: Option<nat>)
    requires Adding(before, entries, done, message)
    ensures found.Some? ==>
      && |before| <= found.value < |entries| && entries[found.value].role == RoleOf(e) && RoleOf(e) != Other
      && (RoleOf(e) == Result ==> entries[found.value].callId == e.callId) && (IsContent(e) ==> message == found)
    ensures found.None? && RoleOf(e) == Result ==>
      forall n :: |before| <= n < |entries| && entries[n].role == Result ==> entries[n].callId != e.callId
    ensures found.None? && IsContent(e) && message.Some? ==> entries[message.value].role != RoleOf(e)
  {
    if IsContent(e) {
      found := if message.Some? && entries[message.value].role == RoleOf(e) then message else None;
    } else if e.kind == ToolResult {
      found := FindResult(entries, |before|, e.callId);
    } else {
      found := None;
    }
  }

  /** Each event's entry, by the entry's id. */
  ghost predicate Owned(entries: seq<Entry>, start: nat, done: seq<Event>, owners: seq<nat>) {
    |owners| == |done| && forall i :: 0 <= i < |done| ==> OwnedBy(entries, start, done[i], owners[i])
  }

  ghost predicate OwnedBy(entries: seq<Entry>, start: nat, e: Event, owner: nat) {
    exists n :: start <= n < |entries| && entries[n].id == owner && e in entries[n].sources
  }

  lemma OwnedMore(entries: seq<Entry>, after: seq<Entry>, start: nat, done: seq<Event>, owners: seq<nat>, e: Event,
      owner: nat)
    requires Owned(entries, start, done, owners) && |entries| <= |after|
    requires forall n, s :: 0 <= n < |entries| && s in entries[n].sources ==> s in after[n].sources
    requires forall n :: 0 <= n < |entries| ==> after[n].id == entries[n].id
    requires OwnedBy(after, start, e, owner)
    ensures Owned(after, start, done + [e], owners + [owner])
  {
    forall i | 0 <= i < |done|
      ensures OwnedBy(after, start, done[i], owners[i])
    {
      assert OwnedBy(entries, start, done[i], owners[i]);
      var n :| start <= n < |entries| && entries[n].id == owners[i] && done[i] in entries[n].sources;
      assert after[n].id == owners[i];
    }
  }

  /** Each event either opens an entry or joins one. */
  method AddEvent(before: seq<Entry>, entries: seq<Entry>, ghost done: seq<Event>, message: Option<nat>, e: Event,
      owners: seq<nat>)
    returns (after: seq<Entry>, next: Option<nat>, more: seq<nat>)
    requires Adding(before, entries, done, message) && Owned(entries, |before|, done, owners) && Ascends(done + [e])
    ensures Adding(before, after, done + [e], next) && Owned(after, |before|, done + [e], more)
  {
    var found := FindOpen(before, entries, done, message, e);
    if found.Some? {
      Joined(before, entries, done, message, e, found.value);
      after := entries[found.value := WithSource(entries[found.value], e)];
      next := if IsContent(e) then message else None;
      assert e in after[found.value].sources;
      OwnedMore(entries, after, |before|, done, owners, e, entries[found.value].id);
      more := owners + [entries[found.value].id];
    } else {
      Appended(before, entries, done, message, e);
      after := entries + [Opened(entries, |before|, e)];
      next := if IsContent(e) then Some(|entries|) else None;
      assert after[|entries|].id == e.id;
      OwnedMore(entries, after, |before|, done, owners, e, e.id);
      more := owners + [e.id];
    }
  }

  lemma AscendsTo(group: seq<Event>, i: nat)
    requires Ascends(group) && i < |group|
    ensures Ascends(group[..i] + [group[i]])
  {
    AscendsPart(group, 0, i + 1);
    assert group[..i] + [group[i]] == group[0..i + 1];
  }

  method AddGroup(before: seq<Entry>, group: seq<Event>) returns (entries: seq<Entry>, owners: seq<nat>)
    requires Ascends(group)
    ensures Added(before, entries, group) && Owned(entries, |before|, group, owners)
  {
    entries, owners := before, [];
    var message: Option<nat> := None;
    var i := 0;
    AddingStarts(before);
    assert group[..0] == [];
    while i < |group|
      invariant i <= |group| && Adding(before, entries, group[..i], message)
      invariant Owned(entries, |before|, group[..i], owners)
    {
      assert group[..i + 1] == group[..i] + [group[i]];
      AscendsTo(group, i);
      entries, message, owners := AddEvent(before, entries, group[..i], message, group[i], owners);
      i := i + 1;
    }
    assert group[..i] == group;
  }
}
