/** Activity's counts of sessions, and why each agrees with the list its row links to. */
module Activity {
  import opened Utf8
  import opened Lineage
  import opened SessionList
  import Cards

  type Groups = map<string, set<Id>>

  datatype Count = Count(name: string, sessions: nat)

  /** A row of the second query: one per trace, model and slot. */
  datatype ActiveRow = ActiveRow(trace: Id, model: string, slot: Option<int>)

  // ---- Slots and days

  const SLOT := 900
  const DAY := 86400

  function SlotOf(clock: int): int {
    clock / SLOT * SLOT
  }

  /** The calendar day a clock shows at an offset from UTC. */
  function DayOf(clock: int, offset: int): int {
    (clock + offset) / DAY
  }

  lemma DayOfSlot(clock: int, offset: int)
    requires offset % SLOT == 0
    ensures DayOf(SlotOf(clock), offset) == DayOf(clock, offset)
  {
    var slots, quarters, rest := clock / SLOT, offset / SLOT, clock % SLOT;
    assert clock + offset == (slots + quarters) * SLOT + rest;
    assert SlotOf(clock) + offset == (slots + quarters) * SLOT;
    SameDay(slots + quarters, rest);
  }

  lemma SameDay(slots: int, rest: nat)
    requires rest < SLOT
    ensures (slots * SLOT + rest) / DAY == slots * SLOT / DAY
  {
    var day, left := slots / 96, slots % 96;
    assert slots * SLOT == day * DAY + left * SLOT;
    Quotient(day, left * SLOT);
    Quotient(day, left * SLOT + rest);
  }

  lemma Quotient(day: int, rest: nat)
    requires rest < DAY
    ensures (day * DAY + rest) / DAY == day
  {
  }

  /** Rounding to a slot keeps the local day of every time exactly when the offset is a whole number
      of quarter hours. */
  lemma SlotsKeepDays(offset: int)
    ensures (forall clock: int :: DayOf(SlotOf(clock), offset) == DayOf(clock, offset)) <==> offset % SLOT == 0
  {
    if offset % SLOT == 0 {
      forall clock: int
        ensures DayOf(SlotOf(clock), offset) == DayOf(clock, offset)
      {
        DayOfSlot(clock, offset);
      }
    } else {
      var clock := -offset;
      assert DayOf(clock, offset) == 0;
      assert SlotOf(clock) < clock;
      assert DayOf(SlotOf(clock), offset) < 0;
    }
  }

  /** A time zone: the offset at each time. */
  type Zone = int -> int

  /** The local day of a slot, as the days are counted by. */
  function LocalDay(zone: Zone, slot: int): int {
    DayOf(slot, zone(slot))
  }

  /** The zone only changes between slots, by whole quarter hours. */
  ghost predicate Quarterly(zone: Zone) {
    forall clock: int :: zone(clock) % SLOT == 0 && zone(clock) == zone(SlotOf(clock))
  }

  lemma SlotDayIsDay(zone: Zone, clock: int)
    requires Quarterly(zone)
    ensures LocalDay(zone, SlotOf(clock)) == LocalDay(zone, clock)
  {
    DayOfSlot(clock, zone(clock));
  }

  // ---- What is counted

  ghost function ActiveIn(db: Snapshot, after: Option<int>, before: Option<int>): set<Id> {
    set s | s in db.seen && InRange(after, before, s.time) :: Home(db, s.trace)
  }

  ghost function AllSessions(db: Snapshot): set<Id> {
    set t | t in db.traces && Home(db, t) == t
  }

  /** Sessions active in a range, or all without one. */
  ghost function Counted(db: Snapshot, after: Option<int>, before: Option<int>): set<Id> {
    if after.None? && before.None? then ActiveIn(db, after, before) + AllSessions(db) else ActiveIn(db, after, before)
  }

  ghost function OfHarness(db: Snapshot, sessions: set<Id>, harness: string): set<Id> {
    set t | t in sessions && t in db.traces && db.traces[t].harness == harness
  }

  ghost function OfModel(db: Snapshot, after: Option<int>, before: Option<int>, model: string): set<Id> {
    set s | s in db.seen && InRange(after, before, s.time) && s.model == model :: Home(db, s.trace)
  }

  ghost function OnDay(db: Snapshot, after: Option<int>, before: Option<int>, zone: Zone, day: int): set<Id> {
    set s | s in db.seen && InRange(after, before, s.time) && s.clock.Some? && LocalDay(zone, s.clock.value) == day ::
      Home(db, s.trace)
  }

  ghost function RowOfSeen(s: Seen): ActiveRow {
    ActiveRow(s.trace, s.model, if s.clock.Some? then Some(SlotOf(s.clock.value)) else None)
  }

  /** SELECT DISTINCT. */
  ghost predicate Selected(db: Snapshot, after: Option<int>, before: Option<int>, rows: seq<ActiveRow>) {
    && (forall s :: s in db.seen && InRange(after, before, s.time) ==> RowOfSeen(s) in rows)
    && (forall r :: r in rows ==> exists s :: s in db.seen && InRange(after, before, s.time) && RowOfSeen(s) == r)
  }

  // ---- The loops

  function AddSession(groups: Groups, name: string, session: Id): Groups {
    groups[name := (if name in groups then groups[name] else {}) + {session}]
  }

  function At(groups: Groups, name: string): set<Id> {
    if name in groups then groups[name] else {}
  }

  function DaysAt(days: map<int, set<Id>>, day: int): set<Id> {
    if day in days then days[day] else {}
  }

  ghost function ActiveRows(rows: seq<ActiveRow>, home: map<Id, Id>): set<Id> {
    set r | r in rows && r.trace in home :: home[r.trace]
  }

  ghost function ModelRows(rows: seq<ActiveRow>, home: map<Id, Id>, model: string): set<Id> {
    set r | r in rows && r.trace in home && r.model == model && model != "" :: home[r.trace]
  }

  ghost function NamedRows(rows: seq<ActiveRow>, home: map<Id, Id>): set<Id> {
    set r | r in rows && r.trace in home && r.model != "" :: home[r.trace]
  }

  ghost function DayRows(rows: seq<ActiveRow>, home: map<Id, Id>, zone: Zone, day: int): set<Id> {
    set r | r in rows && r.trace in home && r.slot.Some? && LocalDay(zone, r.slot.value) == day :: home[r.trace]
  }

  /** The four maps after some rows. */
  datatype Tally = Tally(active: set<Id>, withModel: set<Id>, models: Groups, days: map<int, set<Id>>)

  ghost predicate Tallied(rows: seq<ActiveRow>, home: map<Id, Id>, zone: Zone, t: Tally) {
    && t.active == ActiveRows(rows, home) && t.withModel == NamedRows(rows, home)
    && (forall model :: At(t.models, model) == ModelRows(rows, home, model) && (model in t.models <==>
      ModelRows(rows, home, model) != {}))
    && (forall day :: DaysAt(t.days, day) == DayRows(rows, home, zone, day) && (day in t.days <==>
      DayRows(rows, home, zone, day) != {}))
  }

  function TallyRow(t: Tally, r: ActiveRow, session: Id, zone: Zone): Tally {
    Tally(
      t.active + {session},
      if r.model != "" then t.withModel + {session} else t.withModel,
      if r.model != "" then AddSession(t.models, r.model, session) else t.models,
      if r.slot.Some? then
        var day := LocalDay(zone, r.slot.value);
        t.days[day := DaysAt(t.days, day) + {session}]
      else t.days)
  }

  lemma RowsMore(rows: seq<ActiveRow>, home: map<Id, Id>, r: ActiveRow)
    requires r.trace in home
    ensures ActiveRows(rows + [r], home) == ActiveRows(rows, home) + {home[r.trace]}
    ensures NamedRows(rows + [r], home) == NamedRows(rows, home) + (if r.model != "" then {home[r.trace]} else {})
  {
    assert forall x :: x in rows + [r] <==> x in rows || x == r;
  }

  lemma ModelRowsMore(rows: seq<ActiveRow>, home: map<Id, Id>, r: ActiveRow, model: string)
    requires r.trace in home
    ensures ModelRows(rows + [r], home, model) == ModelRows(rows, home, model) +
      (if r.model == model && model != "" then {home[r.trace]} else {})
  {
    assert forall x :: x in rows + [r] <==> x in rows || x == r;
  }

  lemma DayRowsMore(rows: seq<ActiveRow>, home: map<Id, Id>, zone: Zone, r: ActiveRow, day: int)
    requires r.trace in home
    ensures DayRows(rows + [r], home, zone, day) == DayRows(rows, home, zone, day) +
      (if r.slot.Some? && LocalDay(zone, r.slot.value) == day then {home[r.trace]} else {})
  {
    assert forall x :: x in rows + [r] <==> x in rows || x == r;
  }

  lemma TalliedMore(rows: seq<ActiveRow>, home: map<Id, Id>, zone: Zone, t: Tally, r: ActiveRow)
    requires Tallied(rows, home, zone, t) && r.trace in home
    ensures Tallied(rows + [r], home, zone, TallyRow(t, r, home[r.trace], zone))
  {
    RowsMore(rows, home, r);
    var after := TallyRow(t, r, home[r.trace], zone);
    forall model
      ensures At(after.models, model) == ModelRows(rows + [r], home, model)
      ensures (model in after.models <==> ModelRows(rows + [r], home, model) != {})
    {
      ModelRowsMore(rows, home, r, model);
      assert At(t.models, model) == ModelRows(rows, home, model);
    }
    forall day
      ensures DaysAt(after.days, day) == DayRows(rows + [r], home, zone, day)
      ensures (day in after.days <==> DayRows(rows + [r], home, zone, day) != {})
    {
      DayRowsMore(rows, home, zone, r, day);
      assert DaysAt(t.days, day) == DayRows(rows, home, zone, day);
    }
  }

  /** The loop over active rows. */
  method TallyRows(rows: seq<ActiveRow>, home: map<Id, Id>, zone: Zone) returns (t: Tally)
    requires forall r :: r in rows ==> r.trace in home
    ensures Tallied(rows, home, zone, t)
  {
    t := Tally({}, {}, map[], map[]);
    var i := 0;
    while i < |rows|
      invariant i <= |rows| && Tallied(rows[..i], home, zone, t)
    {
      TalliedMore(rows[..i], home, zone, t, rows[i]);
      assert rows[..i + 1] == rows[..i] + [rows[i]];
      t := TallyRow(t, rows[i], home[rows[i].trace], zone);
      i := i + 1;
    }
    assert rows[..i] == rows;
  }

  /** The maps after some traces. */
  ghost predicate HomesAre(db: Snapshot, read: set<Id>, home: map<Id, Id>, harnessOf: map<Id, string>) {
    && home.Keys == read <= db.traces.Keys && (forall t :: t in home ==> home[t] == Home(db, t))
    && harnessOf.Keys == SessionsIn(db, read) && (forall t :: t in harnessOf ==>
      t in db.traces && harnessOf[t] == db.traces[t].harness)
  }

  ghost function SessionsIn(db: Snapshot, read: set<Id>): set<Id> {
    set t | t in read && Home(db, t) == t
  }

  lemma HomesMore(db: Snapshot, read: set<Id>, home: map<Id, Id>, harnessOf: map<Id, string>, t: Id)
    requires HomesAre(db, read, home, harnessOf) && t in db.traces
    ensures Home(db, t) == t ==> HomesAre(db, read + {t}, home[t := t], harnessOf[t := db.traces[t].harness])
    ensures Home(db, t) != t ==> HomesAre(db, read + {t}, home[t := Home(db, t)], harnessOf)
  {
    assert SessionsIn(db, read + {t}) == SessionsIn(db, read) + (if Home(db, t) == t then {t} else {});
  }

  function Ids(all: seq<Id>): set<Id> {
    set t | t in all
  }

  lemma IdsMore(all: seq<Id>, i: nat)
    requires i < |all|
    ensures Ids(all[..i + 1]) == Ids(all[..i]) + {all[i]}
  {
    assert all[..i + 1] == all[..i] + [all[i]];
  }

  lemma HomesStart(db: Snapshot)
    ensures HomesAre(db, {}, map[], map[])
  {
  }

  /** The loop over traces: every trace's session, and every session's harness. */
  method SessionsOf(db: Snapshot, traces: seq<Id>) returns (home: map<Id, Id>, harnessOf: map<Id, string>)
    requires Sound(db) && forall t :: t in traces <==> t in db.traces
    ensures HomesAre(db, db.traces.Keys, home, harnessOf)
  {
    var lineage := Lineage.Lineage(db.traces);
    home, harnessOf := map[], map[];
    HomesStart(db);
    assert Ids(traces[..0]) == {};
    var i := 0;
    while i < |traces|
      invariant i <= |traces| && HomesAre(db, Ids(traces[..i]), home, harnessOf)
    {
      var t := traces[i];
      IdsMore(traces, i);
      HomesMore(db, Ids(traces[..i]), home, harnessOf, t);
      var session := Session(db.traces, lineage, t);
      home := home[t := session];
      if t == session {
        harnessOf := harnessOf[session := db.traces[t].harness];
      }
      i := i + 1;
    }
    assert traces[..i] == traces && Ids(traces) == db.traces.Keys;
  }

  // ---- Counting

  function Total(counts: seq<Count>): nat {
    if counts == [] then 0 else Total(counts[..|counts| - 1]) + counts[|counts| - 1].sessions
  }

  /** One count for each group, by name. */
  ghost predicate CountsAre(counts: seq<Count>, groups: Groups) {
    && (forall i, j :: 0 <= i < j < |counts| ==> counts[i].name != counts[j].name)
    && (forall i :: 0 <= i < |counts| ==> counts[i].name in groups && counts[i].sessions == |groups[counts[i].name]|)
    && (forall name :: name in groups ==> exists i :: 0 <= i < |counts| && counts[i].name == name)
  }

  lemma CountsMore(counts: seq<Count>, groups: Groups, name: string, sessions: set<Id>)
    requires CountsAre(counts, groups) && name !in groups
    ensures CountsAre(counts + [Count(name, |sessions|)], groups[name := sessions])
  {
    var more := counts + [Count(name, |sessions|)];
    var all := groups[name := sessions];
    forall n | n in all
      ensures exists i :: 0 <= i < |more| && more[i].name == n
    {
      if n == name {
        assert more[|counts|].name == n;
      } else {
        var i :| 0 <= i < |counts| && counts[i].name == n;
        assert more[i].name == n;
      }
    }
  }

  /** countSessions, up to the order of its rows. */
  method CountSessions(groups: Groups) returns (counts: seq<Count>)
    ensures CountsAre(counts, groups)
  {
    counts := [];
    var left := groups;
    while |left| > 0
      invariant left.Keys <= groups.Keys && forall n :: n in left ==> left[n] == groups[n]
      invariant CountsAre(counts, groups - left.Keys)
      decreases left.Keys
    {
      assert left.Keys != {};
      var name :| name in left.Keys;
      CountsMore(counts, groups - left.Keys, name, groups[name]);
      assert (groups - left.Keys)[name := groups[name]] == groups - (left - {name}).Keys;
      counts := counts + [Count(name, |left[name]|)];
      left := left - {name};
    }
    assert groups - left.Keys == groups;
  }

  /** Groups put every session under one name. */
  ghost predicate Splits(groups: Groups, sessions: set<Id>) {
    && (forall n :: n in groups ==> groups[n] <= sessions)
    && (forall t :: t in sessions ==> exists n :: n in groups && t in groups[n])
    && (forall m, n :: m in groups && n in groups && m != n ==> groups[m] !! groups[n])
  }

  ghost function Under(groups: Groups, counts: seq<Count>): set<Id> {
    set i, t | 0 <= i < |counts| && counts[i].name in groups && t in groups[counts[i].name] :: t
  }

  lemma {:induction false} TotalIs(groups: Groups, counts: seq<Count>)
    requires forall m, n :: m in groups && n in groups && m != n ==> groups[m] !! groups[n]
    requires forall i, j :: 0 <= i < j < |counts| ==> counts[i].name != counts[j].name
    requires forall i :: 0 <= i < |counts| ==>
      counts[i].name in groups && counts[i].sessions == |groups[counts[i].name]|
    ensures Total(counts) == |Under(groups, counts)|
    decreases |counts|
  {
    if counts == [] {
      assert Under(groups, counts) == {};
    } else {
      var front, last := counts[..|counts| - 1], counts[|counts| - 1];
      TotalIs(groups, front);
      UnderMore(groups, front, last);
      assert counts == front + [last];
      UnderApart(groups, front, last);
    }
  }

  lemma UnderApart(groups: Groups, front: seq<Count>, last: Count)
    requires forall m, n :: m in groups && n in groups && m != n ==> groups[m] !! groups[n]
    requires last.name in groups && forall i :: 0 <= i < |front| ==> front[i].name != last.name
    ensures Under(groups, front) !! groups[last.name]
  {
  }

  lemma UnderMore(groups: Groups, front: seq<Count>, last: Count)
    requires last.name in groups
    ensures Under(groups, front + [last]) == Under(groups, front) + groups[last.name]
  {
    var counts := front + [last];
    assert counts[|front|] == last;
    forall t | t in Under(groups, front)
      ensures t in Under(groups, counts)
    {
      var i :| 0 <= i < |front| && front[i].name in groups && t in groups[front[i].name];
      assert counts[i] == front[i];
    }
    forall t | t in Under(groups, counts)
      ensures t in Under(groups, front) + groups[last.name]
    {
      var i :| 0 <= i < |counts| && counts[i].name in groups && t in groups[counts[i].name];
      assert i < |front| ==> counts[i] == front[i];
    }
  }

  /** Counts of groups that split the sessions add up to them. */
  lemma {:induction false} CountsAddUp(groups: Groups, counts: seq<Count>, sessions: set<Id>)
    requires CountsAre(counts, groups) && Splits(groups, sessions)
    ensures Total(counts) == |sessions|
  {
    TotalIs(groups, counts);
    forall t | t in sessions
      ensures t in Under(groups, counts)
    {
      var n :| n in groups && t in groups[n];
      var i :| 0 <= i < |counts| && counts[i].name == n;
      assert t in groups[counts[i].name];
    }
    assert Under(groups, counts) == sessions;
  }

  ghost predicate HarnessGroups(groups: Groups, sessions: set<Id>, harnessOf: map<Id, string>) {
    && sessions <= harnessOf.Keys
    && (forall n, t :: n in groups && t in groups[n] ==> t in sessions && harnessOf[t] == n)
    && (forall t :: t in sessions ==> harnessOf[t] in groups && t in groups[harnessOf[t]])
    && (forall n :: n in groups ==> groups[n] != {})
  }

  lemma HarnessMore(groups: Groups, sessions: set<Id>, harnessOf: map<Id, string>, t: Id)
    requires HarnessGroups(groups, sessions, harnessOf) && t in harnessOf
    ensures HarnessGroups(AddSession(groups, harnessOf[t], t), sessions + {t}, harnessOf)
  {
    var after := AddSession(groups, harnessOf[t], t);
    assert t in after[harnessOf[t]];
  }

  lemma HarnessSplits(groups: Groups, sessions: set<Id>, harnessOf: map<Id, string>)
    requires HarnessGroups(groups, sessions, harnessOf)
    ensures Splits(groups, sessions)
  {
  }

  /** The loop that puts active sessions under their harness, in any order. */
  method ByHarness(active: seq<Id>, harnessOf: map<Id, string>) returns (groups: Groups)
    requires forall t :: t in active ==> t in harnessOf
    ensures HarnessGroups(groups, Ids(active), harnessOf)
  {
    groups := map[];
    var i := 0;
    while i < |active|
      invariant i <= |active| && HarnessGroups(groups, Ids(active[..i]), harnessOf)
    {
      HarnessMore(groups, Ids(active[..i]), harnessOf, active[i]);
      IdsMore(active, i);
      groups := AddSession(groups, harnessOf[active[i]], active[i]);
      i := i + 1;
    }
    assert active[..i] == active;
  }

  method Enumerate<T(==)>(s: set<T>) returns (all: seq<T>)
    ensures forall x :: x in all <==> x in s
  {
    all := [];
    var left := s;
    while left != {}
      invariant left <= s && forall x :: x in all <==> x in s - left
      decreases left
    {
      var x :| x in left;
      all, left := all + [x], left - {x};
    }
  }

  // ---- Activity

  datatype Activity = Activity(sessions: nat, harnesses: seq<Count>, models: seq<Count>, withoutModel: int, days: map<int, nat>)

  /** What the home page shows. */
  ghost predicate Reports(db: Snapshot, after: Option<int>, before: Option<int>, zone: Zone, a: Activity) {
    && a.sessions == |Counted(db, after, before)|
    && HarnessesAre(db, Counted(db, after, before), a.harnesses)
    && ModelsAre(db, after, before, a.models)
    && a.withoutModel == |Counted(db, after, before) - WithModel(db, after, before)|
    && DaysAre(db, after, before, zone, a.days)
  }

  ghost function WithModel(db: Snapshot, after: Option<int>, before: Option<int>): set<Id> {
    set s | s in db.seen && InRange(after, before, s.time) && s.model != "" :: Home(db, s.trace)
  }

  /** The rows show this number for the name, and none when it is 0. */
  ghost predicate Listed(counts: seq<Count>, name: string, sessions: nat) {
    && (sessions > 0 ==> exists i :: 0 <= i < |counts| && counts[i] == Count(name, sessions))
    && (forall i :: 0 <= i < |counts| && counts[i].name == name ==> counts[i].sessions == sessions > 0)
  }

  lemma CountsList(counts: seq<Count>, groups: Groups, name: string)
    requires CountsAre(counts, groups) && forall n :: n in groups ==> groups[n] != {}
    ensures Listed(counts, name, |At(groups, name)|)
  {
    if name in groups {
      var i :| 0 <= i < |counts| && counts[i].name == name;
      assert counts[i] == Count(name, |At(groups, name)|);
      assert groups[name] != {};
    }
  }

  lemma HarnessAt(db: Snapshot, groups: Groups, sessions: set<Id>, harnessOf: map<Id, string>, h: string)
    requires HarnessGroups(groups, sessions, harnessOf) && forall t :: t in harnessOf ==>
      t in db.traces && harnessOf[t] == db.traces[t].harness
    ensures At(groups, h) == OfHarness(db, sessions, h)
  {
  }

  lemma SelectedRows(db: Snapshot, after: Option<int>, before: Option<int>, zone: Zone, rows: seq<ActiveRow>,
      home: map<Id, Id>)
    requires Sound(db) && Quarterly(zone) && Selected(db, after, before, rows) && home.Keys == db.traces.Keys &&
      forall t :: t in home ==> home[t] == Home(db, t)
    ensures ActiveRows(rows, home) == ActiveIn(db, after, before)
    ensures NamedRows(rows, home) == WithModel(db, after, before)
    ensures forall m :: m != "" ==> ModelRows(rows, home, m) == OfModel(db, after, before, m)
    ensures forall d :: DayRows(rows, home, zone, d) == OnDay(db, after, before, zone, d)
  {
    SelectedActive(db, after, before, rows, home);
    SelectedNamed(db, after, before, rows, home);
    forall m | m != ""
      ensures ModelRows(rows, home, m) == OfModel(db, after, before, m)
    {
      SelectedModel(db, after, before, rows, home, m);
    }
    forall d
      ensures DayRows(rows, home, zone, d) == OnDay(db, after, before, zone, d)
    {
      SelectedDay(db, after, before, zone, rows, home, d);
    }
  }

  lemma SelectedActive(db: Snapshot, after: Option<int>, before: Option<int>, rows: seq<ActiveRow>, home: map<Id, Id>)
    requires Sound(db) && Selected(db, after, before, rows) && home.Keys == db.traces.Keys && forall t :: t in home ==>
      home[t] == Home(db, t)
    ensures ActiveRows(rows, home) == ActiveIn(db, after, before)
  {
    forall t | t in ActiveIn(db, after, before)
      ensures t in ActiveRows(rows, home)
    {
      var s :| s in db.seen && InRange(after, before, s.time) && Home(db, s.trace) == t;
      assert RowOfSeen(s) in rows;
    }
    forall t | t in ActiveRows(rows, home)
      ensures t in ActiveIn(db, after, before)
    {
      var r :| r in rows && r.trace in home && home[r.trace] == t;
      var s :| s in db.seen && InRange(after, before, s.time) && RowOfSeen(s) == r;
    }
  }

  lemma SelectedNamed(db: Snapshot, after: Option<int>, before: Option<int>, rows: seq<ActiveRow>, home: map<Id, Id>)
    requires Sound(db) && Selected(db, after, before, rows) && home.Keys == db.traces.Keys && forall t :: t in home ==>
      home[t] == Home(db, t)
    ensures NamedRows(rows, home) == WithModel(db, after, before)
  {
    forall t | t in WithModel(db, after, before)
      ensures t in NamedRows(rows, home)
    {
      var s :| s in db.seen && InRange(after, before, s.time) && s.model != "" && Home(db, s.trace) == t;
      assert RowOfSeen(s) in rows;
    }
    forall t | t in NamedRows(rows, home)
      ensures t in WithModel(db, after, before)
    {
      var r :| r in rows && r.trace in home && r.model != "" && home[r.trace] == t;
      var s :| s in db.seen && InRange(after, before, s.time) && RowOfSeen(s) == r;
    }
  }

  lemma SelectedModel(db: Snapshot, after: Option<int>, before: Option<int>, rows: seq<ActiveRow>, home: map<Id, Id>,
      m: string)
    requires Sound(db) && Selected(db, after, before, rows) && home.Keys == db.traces.Keys
    requires (forall t :: t in home ==> home[t] == Home(db, t)) && m != ""
    ensures ModelRows(rows, home, m) == OfModel(db, after, before, m)
  {
    forall t | t in OfModel(db, after, before, m)
      ensures t in ModelRows(rows, home, m)
    {
      var s :| s in db.seen && InRange(after, before, s.time) && s.model == m && Home(db, s.trace) == t;
      assert RowOfSeen(s) in rows;
    }
    forall t | t in ModelRows(rows, home, m)
      ensures t in OfModel(db, after, before, m)
    {
      var r :| r in rows && r.trace in home && r.model == m && home[r.trace] == t;
      var s :| s in db.seen && InRange(after, before, s.time) && RowOfSeen(s) == r;
    }
  }

  lemma SelectedDay(db: Snapshot, after: Option<int>, before: Option<int>, zone: Zone, rows: seq<ActiveRow>,
      home: map<Id, Id>, d: int)
    requires Sound(db) && Quarterly(zone) && Selected(db, after, before, rows) && home.Keys == db.traces.Keys &&
      forall t :: t in home ==> home[t] == Home(db, t)
    ensures DayRows(rows, home, zone, d) == OnDay(db, after, before, zone, d)
  {
    forall t | t in OnDay(db, after, before, zone, d)
      ensures t in DayRows(rows, home, zone, d)
    {
      var s :| s in db.seen && InRange(after, before, s.time) && s.clock.Some? &&
        LocalDay(zone, s.clock.value) == d && Home(db, s.trace) == t;
      SlotDayIsDay(zone, s.clock.value);
      assert RowOfSeen(s) in rows;
    }
    forall t | t in DayRows(rows, home, zone, d)
      ensures t in OnDay(db, after, before, zone, d)
    {
      var r :| r in rows && r.trace in home && r.slot.Some? && LocalDay(zone, r.slot.value) == d && home[r.trace] == t;
      var s :| s in db.seen && InRange(after, before, s.time) && RowOfSeen(s) == r;
      SlotDayIsDay(zone, s.clock.value);
    }
  }

  /** The counts of the home page, from the tables' rows in any order. */
  method ReadActivity(db: Snapshot, traces: seq<Id>, rows: seq<ActiveRow>, after: Option<int>, before: Option<int>,
      zone: Zone) returns (a: Activity)
    requires Sound(db) && (forall t :: t in traces <==> t in db.traces) && Selected(db, after, before, rows)
    requires Quarterly(zone)
    ensures Reports(db, after, before, zone, a)
  {
    var home, harnessOf := SessionsOf(db, traces);
    assert SessionsIn(db, db.traces.Keys) == AllSessions(db);
    forall r | r in rows
      ensures r.trace in home
    {
      var s :| s in db.seen && InRange(after, before, s.time) && RowOfSeen(s) == r;
    }
    var t := TallyRows(rows, home, zone);
    SelectedRows(db, after, before, zone, rows, home);
    var active := if after.None? && before.None? then t.active + harnessOf.Keys else t.active;
    a := CountAll(db, after, before, zone, t, active, harnessOf);
  }

  lemma ActiveAreSessions(db: Snapshot, after: Option<int>, before: Option<int>)
    requires Sound(db)
    ensures ActiveIn(db, after, before) <= AllSessions(db)
  {
    forall s | s in db.seen
      ensures Home(db, s.trace) in AllSessions(db)
    {
      HomeIs(db, s.trace);
    }
  }

  ghost predicate HarnessesAre(db: Snapshot, active: set<Id>, counts: seq<Count>) {
    Total(counts) == |active| && forall h :: Listed(counts, h, |OfHarness(db, active, h)|)
  }

  /** The harness rows. */
  method CountHarnesses(ghost db: Snapshot, active: set<Id>, harnessOf: map<Id, string>) returns (counts: seq<Count>)
    requires active <= harnessOf.Keys && forall t :: t in harnessOf ==>
      t in db.traces && harnessOf[t] == db.traces[t].harness
    ensures HarnessesAre(db, active, counts)
  {
    var sessions := Enumerate(active);
    var groups := ByHarness(sessions, harnessOf);
    assert Ids(sessions) == active;
    counts := CountSessions(groups);
    HarnessSplits(groups, active, harnessOf);
    CountsAddUp(groups, counts, active);
    forall h
      ensures Listed(counts, h, |OfHarness(db, active, h)|)
    {
      CountsList(counts, groups, h);
      HarnessAt(db, groups, active, harnessOf, h);
    }
  }

  ghost predicate ModelsAre(db: Snapshot, after: Option<int>, before: Option<int>, counts: seq<Count>) {
    forall m :: m != "" ==> Listed(counts, m, |OfModel(db, after, before, m)|)
  }

  method CountModels(ghost db: Snapshot, ghost after: Option<int>, ghost before: Option<int>, models: Groups)
      returns (counts: seq<Count>)
    requires forall m :: m != "" ==> At(models, m) == OfModel(db, after, before, m)
    requires forall m :: m in models ==> models[m] != {}
    ensures ModelsAre(db, after, before, counts)
  {
    counts := CountSessions(models);
    forall m | m != ""
      ensures Listed(counts, m, |OfModel(db, after, before, m)|)
    {
      CountsList(counts, models, m);
    }
  }

  function DayCounts(days: map<int, set<Id>>): map<int, nat> {
    map d | d in days :: |days[d]|
  }

  ghost predicate DaysAre(db: Snapshot, after: Option<int>, before: Option<int>, zone: Zone, counts: map<int, nat>) {
    forall d :: (if d in counts then counts[d] else 0) == |OnDay(db, after, before, zone, d)|
  }

  lemma DaysCounted(db: Snapshot, after: Option<int>, before: Option<int>, zone: Zone, days: map<int, set<Id>>)
    requires forall d :: DaysAt(days, d) == OnDay(db, after, before, zone, d)
    ensures DaysAre(db, after, before, zone, DayCounts(days))
  {
    forall d
      ensures (if d in DayCounts(days) then DayCounts(days)[d] else 0) == |OnDay(db, after, before, zone, d)|
    {
      assert DaysAt(days, d) == OnDay(db, after, before, zone, d);
    }
  }

  /** The maps, counted. */
  method CountAll(ghost db: Snapshot, ghost after: Option<int>, ghost before: Option<int>, ghost zone: Zone, t: Tally,
      active: set<Id>, harnessOf: map<Id, string>) returns (a: Activity)
    requires Sound(db) && active == Counted(db, after, before) && t.withModel == WithModel(db, after, before)
    requires harnessOf.Keys == AllSessions(db) && forall t :: t in harnessOf ==>
      t in db.traces && harnessOf[t] == db.traces[t].harness
    requires forall m :: m != "" ==> At(t.models, m) == OfModel(db, after, before, m)
    requires forall m :: m in t.models ==> t.models[m] != {}
    requires forall d :: DaysAt(t.days, d) == OnDay(db, after, before, zone, d)
    ensures Reports(db, after, before, zone, a)
  {
    ActiveAreSessions(db, after, before);
    var harnesses := CountHarnesses(db, active, harnessOf);
    var models := CountModels(db, after, before, t.models);
    DaysCounted(db, after, before, zone, t.days);
    WithoutModel(active, t.withModel);
    a := Activity(|active|, harnesses, models, |active| - |t.withModel|, DayCounts(t.days));
  }

  lemma WithoutModel(active: set<Id>, withModel: set<Id>)
    requires withModel <= active
    ensures |active| - |withModel| == |active - withModel|
  {
    assert active == (active - withModel) + withModel;
  }

  // ---- Each row's count is the length of the list it links to

  ghost function Any(): Cards.Test {
    text => true
  }

  ghost function List(db: Snapshot, f: Filter): Cards.Scan {
    Cards.Scan(Rows(db, f, false), Any())
  }

  /** What an activity row's filter lists. */
  predicate OnlyRange(f: Filter) {
    f == ByRange(f.harness, f.model, f.after, f.before)
  }

  lemma ListIs(db: Snapshot, f: Filter, c: nat)
    requires Sound(db) && OnlyRange(f)
    ensures c in Cards.Matching(List(db, f)) <==>
      if Browsing(f) then c in db.traces && Home(db, c) == c && TracePasses(db, f, c)
      else exists s :: s in db.seen && SeenPasses(db, f, s) && Home(db, s.trace) == c
  {
    if Browsing(f) {
      if c in db.traces && Home(db, c) == c && TracePasses(db, f, c) {
        assert RowFor(db, c, 0, []) in TraceRows(db, f);
      }
      if c in Cards.Matching(List(db, f)) {
        var r :| r in TraceRows(db, f) && r.card == c;
        var t :| t in db.traces && Home(db, t) == t && TracePasses(db, f, t) && r == RowFor(db, t, 0, []);
        HomeIs(db, t);
      }
    } else {
      SeenListIs(db, f, c);
    }
  }

  lemma SeenListIs(db: Snapshot, f: Filter, c: nat)
    requires Sound(db) && !Browsing(f) && OnlyRange(f)
    ensures c in Cards.Matching(List(db, f)) <==>
      exists s :: s in db.seen && SeenPasses(db, f, s) && Home(db, s.trace) == c
  {
    if s :| s in db.seen && SeenPasses(db, f, s) && Home(db, s.trace) == c {
      assert IsKept(db, s);
      var k :| k in db.kept && k.observation == s.observation;
      HomeIs(db, s.trace);
      assert Selects(db, f, s, k);
      assert RowFor(db, s.trace, s.event, k.text) in SeenRows(db, f);
    }
    if c in Cards.Matching(List(db, f)) {
      var r :| r in SeenRows(db, f) && r.card == c;
      var s, k :| s in db.seen && k in db.kept && Selects(db, f, s, k) && r == RowFor(db, s.trace, s.event, k.text);
      HomeIs(db, s.trace);
    }
  }

  /** The harness row of a range counts the cards listed for that harness and range. */
  lemma {:induction false} HarnessRowIsList(db: Snapshot, after: Option<int>, before: Option<int>, harness: string,
      pages: seq<Cards.Page>, limit: nat)
    requires Sound(db) && harness != ""
    requires Cards.Followed(pages, List(db, ByRange(harness, "", after, before)), None, limit)
    ensures |Cards.AllCards(pages)| == |OfHarness(db, Counted(db, after, before), harness)|
  {
    var f := ByRange(harness, "", after, before);
    WholeList(db, f, false, Any(), pages, limit);
    var ids := OfHarness(db, Counted(db, after, before), harness);
    forall c: nat
      ensures c in Cards.Matching(List(db, f)) <==> c in ids
    {
      HarnessCards(db, after, before, harness, c);
    }
    assert Cards.Matching(List(db, f)) == ids;
  }

  lemma IdsPositive(db: Snapshot, after: Option<int>, before: Option<int>)
    requires Sound(db)
    ensures forall t :: t in Counted(db, after, before) ==> t > 0 && t in db.traces
  {
    ActiveAreSessions(db, after, before);
  }

  lemma HarnessCards(db: Snapshot, after: Option<int>, before: Option<int>, harness: string, c: nat)
    requires Sound(db) && harness != ""
    ensures c in Cards.Matching(List(db, ByRange(harness, "", after, before))) <==>
      c in OfHarness(db, Counted(db, after, before), harness)
  {
    var f, ids := ByRange(harness, "", after, before), OfHarness(db, Counted(db, after, before), harness);
    ListIs(db, f, c);
    IdsPositive(db, after, before);
    if c in ids {
      if !Browsing(f) {
        var s :| s in db.seen && InRange(after, before, s.time) && Home(db, s.trace) == c;
        HomeIs(db, s.trace);
        assert SeenPasses(db, f, s);
      } else {
        ActiveAreSessions(db, after, before);
      }
    }
    if c in Cards.Matching(List(db, f)) {
      if !Browsing(f) {
        var s :| s in db.seen && SeenPasses(db, f, s) && Home(db, s.trace) == c;
        HomeIs(db, s.trace);
      }
      assert c in ids;
    }
  }

  /** The model row of a range counts the cards listed for that model and range. */
  lemma {:induction false} ModelRowIsList(db: Snapshot, after: Option<int>, before: Option<int>, model: string,
      pages: seq<Cards.Page>, limit: nat)
    requires Sound(db) && model != ""
    requires Cards.Followed(pages, List(db, ByRange("", model, after, before)), None, limit)
    ensures |Cards.AllCards(pages)| == |OfModel(db, after, before, model)|
  {
    var f := ByRange("", model, after, before);
    WholeList(db, f, false, Any(), pages, limit);
    var ids := OfModel(db, after, before, model);
    forall c: nat
      ensures c in Cards.Matching(List(db, f)) <==> c in ids
    {
      ModelCards(db, after, before, model, c);
    }
    assert Cards.Matching(List(db, f)) == ids;
  }

  lemma ModelCards(db: Snapshot, after: Option<int>, before: Option<int>, model: string, c: nat)
    requires Sound(db) && model != ""
    ensures c in Cards.Matching(List(db, ByRange("", model, after, before))) <==> c in OfModel(db, after, before, model)
  {
    var f, ids := ByRange("", model, after, before), OfModel(db, after, before, model);
    ListIs(db, f, c);
    if c in ids {
      var s :| s in db.seen && InRange(after, before, s.time) && s.model == model && Home(db, s.trace) == c;
      HomeIs(db, s.trace);
      assert SeenPasses(db, f, s);
    }
    if c in Cards.Matching(List(db, f)) {
      var s :| s in db.seen && SeenPasses(db, f, s) && Home(db, s.trace) == c;
      assert c in ids;
    }
  }
}
