/** When the order of imports decides what is preferred: only the clocks of imports without a native
    time can make it, and exactly when the contents they could bring to the top differ. */
module ImportOrder {
  import opened Utf8
  import opened Archive
  import opened ArchiveSteps
  import opened ArchiveRuns

  /** An event, as imports name it. */
  datatype Subject = Subject(harness: Text, nativeId: Text, key: Text)

  ghost predicate Concerns(s: Subject, step: Step) {
    Mentions(step, s.harness, s.nativeId, s.key)
  }

  predicate FactOn(s: Subject, f: Fact) {
    f.harness == s.harness && f.nativeId == s.nativeId && f.key == s.key
  }

  /** The archive prefers this content for the event. */
  ghost predicate Showing(db: Db, s: Subject, body: Body) {
    exists e, f :: Prefers(db, e, f) && FactOn(s, f) && f.body == body
  }

  // ---- What a set of imports could bring to the top

  /** Imports of different revisions. */
  ghost predicate Distinct(imports: seq<Step>) {
    && (forall i :: 0 <= i < |imports| ==> imports[i].Import?)
    && (forall i, j :: 0 <= i < j < |imports| ==> !SameSource(imports[i].d, imports[j].d))
  }

  predicate Untimed(step: Step) {
    step.Import? && step.d.nativeUpdatedAt.None?
  }

  ghost predicate TopOf(env: Env, n: Normalization, key: Text, body: Body) {
    forall j :: 0 <= j < |n.events| && n.events[j].key == key ==>
      !Less(BodyRank(env, 0, body), BodyRank(env, 0, n.events[j].body))
  }

  predicate Records(n: Normalization, key: Text, body: Body) {
    exists k :: 0 <= k < |n.events| && n.events[k].key == key && n.events[k].body == body
  }

  /** The content that ranks highest among those one import records for the event. */
  ghost predicate OwnBest(env: Env, n: Normalization, key: Text, body: Body) {
    Records(n, key, body) && TopOf(env, n, key, body)
  }

  ghost predicate UntimedBest(env: Env, imports: seq<Step>, s: Subject, i: nat, body: Body) {
    i < |imports| && Untimed(imports[i]) && Concerns(s, imports[i]) && OwnBest(env, imports[i].n, s.key, body)
  }

  ghost predicate TimedAt(imports: seq<Step>, i: nat, f: Fact) {
    && i < |imports| && imports[i].Import? && imports[i].d.nativeUpdatedAt.Some?
    && ImportFact(imports[i].d, imports[i].n, f)
  }

  ghost predicate TimedFact(imports: seq<Step>, s: Subject, f: Fact) {
    FactOn(s, f) && exists i :: TimedAt(imports, i, f)
  }

  ghost predicate TimedTop(env: Env, imports: seq<Step>, s: Subject, f: Fact) {
    TimedFact(imports, s, f) && forall g :: TimedFact(imports, s, g) ==> !Less(FactRank(env, f), FactRank(env, g))
  }

  /** The best content of an import without a native time, or the best of all those with one. */
  ghost predicate Candidate(env: Env, imports: seq<Step>, s: Subject, body: Body) {
    || (exists i :: UntimedBest(env, imports, s, i, body))
    || (exists f :: TimedTop(env, imports, s, f) && f.body == body)
  }

  ghost predicate Agreed(env: Env, imports: seq<Step>, s: Subject) {
    forall x: Body, y: Body :: Candidate(env, imports, s, x) && Candidate(env, imports, s, y) ==> x == y
  }

  // ---- Runs that make them

  /** The clock never goes back. */
  ghost predicate Rising(steps: seq<Step>) {
    forall i, j :: 0 <= i < j < |steps| && steps[i].Import? && steps[j].Import? ==> steps[i].d.now <= steps[j].d.now
  }

  /** The run makes exactly these imports, in any order, at any clocks and however often, and may
      rename in between. */
  ghost predicate Makes(env: Env, turns: seq<Turn>, imports: seq<Step>) {
    && AllSound(env, turns) && ImportsAndTitles(StepsOf(turns)) && SameImports(StepsOf(turns), imports)
    && Rising(StepsOf(turns))
  }

  lemma ImportOf(steps: seq<Step>, imports: seq<Step>, i: nat) returns (k: nat)
    requires Covers(steps, imports) && i < |steps| && steps[i].Import?
    ensures k < |imports| && Alike(steps[i], imports[k])
  {
    assert Made(imports, steps[i]);
    k :| 0 <= k < |imports| && Alike(steps[i], imports[k]);
  }

  lemma SameSourceAlike(steps: seq<Step>, imports: seq<Step>, i: nat, k: nat)
    requires Covers(steps, imports) && Distinct(imports) && i < |steps| && steps[i].Import? && k < |imports|
    requires SameSource(steps[i].d, imports[k].d)
    ensures Alike(steps[i], imports[k])
  {
    var l := ImportOf(steps, imports, i);
    assert l == k;
  }

  lemma MakesSame(steps: seq<Step>, imports: seq<Step>)
    requires Covers(steps, imports) && Distinct(imports)
    ensures Deterministic(steps)
  {
    forall i, j | 0 <= i < |steps| && 0 <= j < |steps| && steps[i].Import? && steps[j].Import? && SameSource(steps[i].d, steps[j].d)
      ensures steps[i].n.events == steps[j].n.events
    {
      var k := ImportOf(steps, imports, i);
      SameSourceAlike(steps, imports, j, k);
    }
  }

  /** The step that adds an import's revision is that import, at some clock. */
  lemma AddedBy(steps: seq<Step>, imports: seq<Step>, k: nat) returns (i: nat)
    requires SameImports(steps, imports) && Distinct(imports) && k < |imports|
    ensures Adds(steps, i) && Alike(steps[i], imports[k])
  {
    assert Made(steps, imports[k]);
    var m :| 0 <= m < |steps| && Alike(imports[k], steps[m]);
    i := Added(steps, m);
    SameSourceAlike(steps, imports, i, k);
  }

  lemma FactMoves(a: Step, b: Step, f: Fact)
    requires Alike(a, b) && ImportFact(a.d, a.n, f)
    ensures a.d.Time() == b.d.Time() ==> ImportFact(b.d, b.n, f)
  {
  }

  lemma LessSameTime(env: Env, time: int, a: Body, b: Body)
    ensures Less(BodyRank(env, time, a), BodyRank(env, time, b)) <==> Less(BodyRank(env, 0, a), BodyRank(env, 0, b))
  {
  }

  /** Facts an import records are its events' under its time. */
  lemma FactsOf(d: Descriptor, n: Normalization, key: Text, body: Body)
    requires Records(n, key, body)
    ensures ImportFact(d, n, Fact(d.harness, d.nativeId, d.revision, d.Time(), key, body))
  {
  }

  // ---- What is shown could be brought to the top

  lemma KnownTop(env: Env, db: Db, steps: seq<Step>, i: nat, g: Fact, body: Body)
    requires Best(env, db, g) && (forall f :: Knows(db, f) <==> Told(steps, f))
    requires Adds(steps, i) && ImportFact(steps[i].d, steps[i].n, g) && Records(steps[i].n, g.key, body)
    ensures !Less(BodyRank(env, 0, g.body), BodyRank(env, 0, body))
  {
    var d := steps[i].d;
    var h := Fact(d.harness, d.nativeId, d.revision, d.Time(), g.key, body);
    FactsOf(d, steps[i].n, g.key, body);
    assert Told(steps, h);
    LessSameTime(env, d.Time(), g.body, body);
    assert !Less(FactRank(env, g), FactRank(env, h));
  }

  lemma ShownUntimed(env: Env, db: Db, steps: seq<Step>, imports: seq<Step>, i: nat, k: nat, s: Subject, g: Fact)
    requires Best(env, db, g) && (forall f :: Knows(db, f) <==> Told(steps, f)) && FactOn(s, g)
    requires Adds(steps, i) && ImportFact(steps[i].d, steps[i].n, g) && k < |imports| && Alike(steps[i], imports[k])
    requires Untimed(steps[i])
    ensures UntimedBest(env, imports, s, k, g.body)
  {
    var n := imports[k].n;
    assert Records(n, s.key, g.body);
    forall j | 0 <= j < |n.events| && n.events[j].key == s.key
      ensures !Less(BodyRank(env, 0, g.body), BodyRank(env, 0, n.events[j].body))
    {
      assert Records(n, s.key, n.events[j].body);
      KnownTop(env, db, steps, i, g, n.events[j].body);
    }
    FactMentioned(steps[i], g);
  }

  lemma TimedIsTold(steps: seq<Step>, imports: seq<Step>, s: Subject, h: Fact)
    requires SameImports(steps, imports) && Distinct(imports) && TimedFact(imports, s, h)
    ensures Told(steps, h)
  {
    var k: nat :| TimedAt(imports, k, h);
    var i := AddedBy(steps, imports, k);
    assert Alike(imports[k], steps[i]);
    FactMoves(imports[k], steps[i], h);
  }

  lemma ShownTimed(env: Env, db: Db, steps: seq<Step>, imports: seq<Step>, i: nat, k: nat, s: Subject, g: Fact)
    requires SameImports(steps, imports) && Distinct(imports)
    requires Best(env, db, g) && (forall f :: Knows(db, f) <==> Told(steps, f)) && FactOn(s, g)
    requires i < |steps| && steps[i].Import? && ImportFact(steps[i].d, steps[i].n, g)
    requires k < |imports| && Alike(steps[i], imports[k]) && !Untimed(steps[i])
    ensures TimedTop(env, imports, s, g)
  {
    FactMoves(steps[i], imports[k], g);
    assert TimedAt(imports, k, g);
    forall h | TimedFact(imports, s, h)
      ensures !Less(FactRank(env, g), FactRank(env, h))
    {
      TimedIsTold(steps, imports, s, h);
      assert Knows(db, h) && SameKey(g, h);
    }
  }

  lemma ToldIsCandidate(env: Env, db: Db, steps: seq<Step>, imports: seq<Step>, s: Subject, g: Fact)
    requires SameImports(steps, imports) && Distinct(imports) && FactOn(s, g)
    requires Best(env, db, g) && forall f :: Knows(db, f) <==> Told(steps, f)
    ensures Candidate(env, imports, s, g.body)
  {
    assert Told(steps, g);
    var i: nat :| Adds(steps, i) && ImportFact(steps[i].d, steps[i].n, g);
    var k := ImportOf(steps, imports, i);
    if Untimed(steps[i]) {
      ShownUntimed(env, db, steps, imports, i, k, s, g);
    } else {
      ShownTimed(env, db, steps, imports, i, k, s, g);
    }
  }

  lemma {:induction false} MakesKnows(env: Env, turns: seq<Turn>, imports: seq<Step>)
    requires Makes(env, turns, imports) && Distinct(imports)
    ensures Valid(env, Run(EMPTY, turns)) && SameImports(StepsOf(turns), imports)
    ensures forall f :: Knows(Run(EMPTY, turns), f) <==> Told(StepsOf(turns), f)
  {
    MakesSame(StepsOf(turns), imports);
    RunKnows(env, turns);
  }

  lemma ShownIsBest(env: Env, db: Db, s: Subject, body: Body) returns (g: Fact)
    requires Valid(env, db) && Showing(db, s, body)
    ensures Best(env, db, g) && FactOn(s, g) && g.body == body
  {
    var e, f :| Prefers(db, e, f) && FactOn(s, f) && f.body == body;
    g := PreferredIsBest(env, db, e, f);
  }

  lemma {:induction false} ShownIsCandidate(env: Env, turns: seq<Turn>, imports: seq<Step>, s: Subject, body: Body)
    requires Makes(env, turns, imports) && Distinct(imports) && Showing(Run(EMPTY, turns), s, body)
    ensures Candidate(env, imports, s, body)
  {
    MakesKnows(env, turns, imports);
    var g := ShownIsBest(env, Run(EMPTY, turns), s, body);
    ToldIsCandidate(env, Run(EMPTY, turns), StepsOf(turns), imports, s, g);
  }

  lemma PreferredIsBest(env: Env, db: Db, e: Id, f: Fact) returns (g: Fact)
    requires Valid(env, db) && Prefers(db, e, f)
    ensures Best(env, db, g) && SameKey(f, g) && g.body == f.body
  {
    g := SettledBest(env, db, e);
  }

  lemma OneShown(env: Env, db: Db, s: Subject, x: Body, y: Body)
    requires Sound(env) && Valid(env, db) && Showing(db, s, x) && Showing(db, s, y)
    ensures x == y
  {
    var best := ShownIsBest(env, db, s, x);
    var other := ShownIsBest(env, db, s, y);
    BestIsOne(env, db, best, other);
  }

  /** A known event is shown by the best fact about it. */
  lemma SomethingShown(env: Env, db: Db, s: Subject, f: Fact) returns (g: Fact)
    requires Valid(env, db) && Knows(db, f) && FactOn(s, f)
    ensures Best(env, db, g) && FactOn(s, g) && Showing(db, s, g.body)
  {
    var e := KnownEvent(env, db, f);
    g := SettledBest(env, db, e);
    assert About(db, e, g) && About(db, e, f);
    SameAbout(env, db, e, f, g);
  }

  lemma SameAbout(env: Env, db: Db, e: Id, f: Fact, g: Fact)
    requires About(db, e, f) && About(db, e, g)
    ensures SameKey(f, g)
  {
  }

  lemma MentionedIsTold(steps: seq<Step>, imports: seq<Step>, s: Subject, k: nat) returns (f: Fact)
    requires SameImports(steps, imports) && Distinct(imports) && k < |imports| && Concerns(s, imports[k])
    ensures Told(steps, f) && FactOn(s, f)
  {
    var i := AddedBy(steps, imports, k);
    var m :| 0 <= m < |imports[k].n.events| && imports[k].n.events[m].key == s.key;
    var d := steps[i].d;
    f := Fact(d.harness, d.nativeId, d.revision, d.Time(), s.key, imports[k].n.events[m].body);
    assert Records(steps[i].n, s.key, imports[k].n.events[m].body);
    FactsOf(d, steps[i].n, s.key, imports[k].n.events[m].body);
  }

  lemma MentionedIsShown(env: Env, turns: seq<Turn>, imports: seq<Step>, s: Subject, k: nat) returns (body: Body)
    requires Makes(env, turns, imports) && Distinct(imports) && k < |imports| && Concerns(s, imports[k])
    ensures Showing(Run(EMPTY, turns), s, body)
  {
    MakesKnows(env, turns, imports);
    var f := MentionedIsTold(StepsOf(turns), imports, s, k);
    var g := SomethingShown(env, Run(EMPTY, turns), s, f);
    body := g.body;
  }

  // ---- Every candidate is shown by some run

  function AtClock(step: Step, clock: int): Step {
    if step.Import? then step.(d := step.d.(now := clock)) else step
  }

  function Reclocked(imports: seq<Step>, clock: int): (steps: seq<Step>)
    ensures |steps| == |imports| && forall i :: 0 <= i < |imports| ==> steps[i] == AtClock(imports[i], clock)
  {
    seq(|imports|, i requires 0 <= i < |imports| => AtClock(imports[i], clock))
  }

  function Turns(env: Env, steps: seq<Step>): (turns: seq<Turn>)
    ensures |turns| == |steps| && forall i :: 0 <= i < |steps| ==> turns[i] == Turn(env, steps[i])
  {
    seq(|steps|, i requires 0 <= i < |steps| => Turn(env, steps[i]))
  }

  lemma TurnsAre(env: Env, steps: seq<Step>)
    requires Sound(env)
    ensures StepsOf(Turns(env, steps)) == steps && AllSound(env, Turns(env, steps))
  {
  }

  /** No native time is above it. */
  function Ceiling(imports: seq<Step>): int {
    if imports == [] then 0
    else
      var below, last := Ceiling(imports[..|imports| - 1]), imports[|imports| - 1];
      if last.Import? && last.d.nativeUpdatedAt.Some? && last.d.nativeUpdatedAt.value > below then
        last.d.nativeUpdatedAt.value
      else below
  }

  lemma {:induction false} CeilingAbove(imports: seq<Step>, i: nat)
    requires i < |imports| && imports[i].Import? && imports[i].d.nativeUpdatedAt.Some?
    ensures imports[i].d.nativeUpdatedAt.value <= Ceiling(imports)
    decreases |imports|
  {
    if i < |imports| - 1 {
      CeilingAbove(imports[..|imports| - 1], i);
    }
  }

  /** Every native time is above it. */
  function Floor(imports: seq<Step>): int {
    if imports == [] then 0
    else
      var above, last := Floor(imports[..|imports| - 1]), imports[|imports| - 1];
      if last.Import? && last.d.nativeUpdatedAt.Some? && last.d.nativeUpdatedAt.value <= above then
        last.d.nativeUpdatedAt.value - 1
      else above
  }

  lemma {:induction false} FloorBelow(imports: seq<Step>, i: nat)
    requires i < |imports| && imports[i].Import? && imports[i].d.nativeUpdatedAt.Some?
    ensures Floor(imports) < imports[i].d.nativeUpdatedAt.value
    decreases |imports|
  {
    if i < |imports| - 1 {
      FloorBelow(imports[..|imports| - 1], i);
    }
  }

  /** Import i last, just after all the others and every native time. */
  function LastOf(imports: seq<Step>, i: nat): seq<Step>
    requires i < |imports|
  {
    Reclocked(imports[..i] + imports[i + 1..], Ceiling(imports)) + [AtClock(imports[i], Ceiling(imports) + 1)]
  }

  lemma {:induction false} LastIs(imports: seq<Step>, i: nat)
    requires Distinct(imports) && i < |imports|
    ensures var steps := LastOf(imports, i);
      && |steps| == |imports|
      && steps[|steps| - 1] == AtClock(imports[i], Ceiling(imports) + 1)
      && (forall k :: 0 <= k < i ==> steps[k] == AtClock(imports[k], Ceiling(imports)))
      && (forall k :: i < k < |imports| ==> steps[k - 1] == AtClock(imports[k], Ceiling(imports)))
  {
    var others := imports[..i] + imports[i + 1..];
    assert forall k :: 0 <= k < i ==> others[k] == imports[k];
    assert forall k :: i < k < |imports| ==> others[k - 1] == imports[k];
  }

  /** Where import k is then. */
  function Place(imports: seq<Step>, i: nat, k: nat): nat
    requires i < |imports| && k < |imports|
  {
    if k < i then k else if k == i then |imports| - 1 else k - 1
  }

  function Origin(imports: seq<Step>, i: nat, j: nat): nat
    requires i < |imports| && j < |imports|
  {
    if j == |imports| - 1 then i else if j < i then j else j + 1
  }

  lemma {:induction false} LastAt(imports: seq<Step>, i: nat, j: nat)
    requires Distinct(imports) && i < |imports| && j < |imports|
    ensures |LastOf(imports, i)| == |imports| && Origin(imports, i, j) < |imports|
    ensures LastOf(imports, i)[j] ==
      AtClock(imports[Origin(imports, i, j)], Ceiling(imports) + (if j == |imports| - 1 then 1 else 0))
  {
    LastIs(imports, i);
    assert j != |imports| - 1 && j >= i ==>
      LastOf(imports, i)[(j + 1) - 1] == AtClock(imports[j + 1], Ceiling(imports));
  }

  lemma LastCovers(imports: seq<Step>, i: nat)
    requires Distinct(imports) && i < |imports|
    ensures SameImports(LastOf(imports, i), imports)
  {
    var steps := LastOf(imports, i);
    LastIs(imports, i);
    forall j | 0 <= j < |steps| && steps[j].Import?
      ensures Made(imports, steps[j])
    {
      LastAt(imports, i, j);
      assert Alike(steps[j], imports[Origin(imports, i, j)]);
    }
    forall k | 0 <= k < |imports| && imports[k].Import?
      ensures Made(steps, imports[k])
    {
      var j := Place(imports, i, k);
      LastAt(imports, i, j);
      assert Alike(imports[k], steps[j]);
    }
  }

  lemma LastRises(imports: seq<Step>, i: nat)
    requires Distinct(imports) && i < |imports|
    ensures Rising(LastOf(imports, i)) && ImportsAndTitles(LastOf(imports, i))
  {
    var steps := LastOf(imports, i);
    LastIs(imports, i);
    forall j | 0 <= j < |steps|
      ensures steps[j].Import? && steps[j].d.now == Ceiling(imports) + (if j == |imports| - 1 then 1 else 0)
    {
      LastAt(imports, i, j);
    }
  }

  lemma LastMakes(env: Env, imports: seq<Step>, i: nat)
    requires Sound(env) && Distinct(imports) && i < |imports|
    ensures Makes(env, Turns(env, LastOf(imports, i)), imports)
  {
    TurnsAre(env, LastOf(imports, i));
    LastCovers(imports, i);
    LastRises(imports, i);
  }

  lemma ReclockedMakes(env: Env, imports: seq<Step>, clock: int)
    requires Sound(env) && Distinct(imports)
    ensures Makes(env, Turns(env, Reclocked(imports, clock)), imports)
  {
    var steps := Reclocked(imports, clock);
    TurnsAre(env, steps);
    forall j | 0 <= j < |steps| && steps[j].Import?
      ensures Made(imports, steps[j])
    {
      assert Alike(steps[j], imports[j]);
    }
    forall k | 0 <= k < |imports| && imports[k].Import?
      ensures Made(steps, imports[k])
    {
      assert Alike(imports[k], steps[k]);
    }
  }

  lemma RankIsBody(env: Env, f: Fact, g: Fact)
    requires Sound(env) && !Less(FactRank(env, f), FactRank(env, g)) && !Less(FactRank(env, g), FactRank(env, f))
    ensures f.body == g.body
  {
    TotalOrder(FactRank(env, f), FactRank(env, g));
  }

  lemma {:induction false} TopIsShown(env: Env, turns: seq<Turn>, imports: seq<Step>, s: Subject, f: Fact)
    requires Makes(env, turns, imports) && Distinct(imports) && Told(StepsOf(turns), f) && FactOn(s, f)
    requires forall g :: Told(StepsOf(turns), g) && FactOn(s, g) ==> !Less(FactRank(env, f), FactRank(env, g))
    ensures Showing(Run(EMPTY, turns), s, f.body)
  {
    MakesKnows(env, turns, imports);
    var g := SomethingShown(env, Run(EMPTY, turns), s, f);
    assert Knows(Run(EMPTY, turns), g) && SameKey(g, f);
    RankIsBody(env, f, g);
  }

  lemma {:induction false} LateOutranks(env: Env, imports: seq<Step>, i: nat, j: nat, s: Subject, f: Fact, g: Fact)
    requires Distinct(imports) && i < |imports| && Untimed(imports[i]) && j < |LastOf(imports, i)|
    requires OwnBest(env, imports[i].n, s.key, f.body) && FactOn(s, f) && f.revised == Ceiling(imports) + 1
    requires LastOf(imports, i)[j].Import? && ImportFact(LastOf(imports, i)[j].d, LastOf(imports, i)[j].n, g)
    requires FactOn(s, g)
    ensures !Less(FactRank(env, f), FactRank(env, g))
  {
    LastIs(imports, i);
    LastAt(imports, i, j);
    var k := Origin(imports, i, j);
    if j == |imports| - 1 {
      LessSameTime(env, Ceiling(imports) + 1, f.body, g.body);
    } else if imports[k].d.nativeUpdatedAt.Some? {
      CeilingAbove(imports, k);
    }
  }

  lemma LateIsTold(env: Env, imports: seq<Step>, s: Subject, i: nat, body: Body) returns (f: Fact)
    requires Distinct(imports) && UntimedBest(env, imports, s, i, body)
    ensures Told(LastOf(imports, i), f) && FactOn(s, f) && f.body == body && f.revised == Ceiling(imports) + 1
  {
    var steps := LastOf(imports, i);
    LastCovers(imports, i);
    LastIs(imports, i);
    var m := AddedBy(steps, imports, i);
    OnlyPlace(imports, i, m);
    var d := steps[m].d;
    f := Fact(d.harness, d.nativeId, d.revision, d.Time(), s.key, body);
    FactsOf(d, steps[m].n, s.key, body);
  }

  lemma {:induction false} LateIsTop(env: Env, imports: seq<Step>, s: Subject, i: nat, f: Fact, g: Fact)
    requires Distinct(imports) && UntimedBest(env, imports, s, i, f.body) && FactOn(s, f)
    requires f.revised == Ceiling(imports) + 1
    requires Told(LastOf(imports, i), g) && FactOn(s, g)
    ensures !Less(FactRank(env, f), FactRank(env, g))
  {
    var steps := LastOf(imports, i);
    var j: nat :| Adds(steps, j) && ImportFact(steps[j].d, steps[j].n, g);
    LateOutranks(env, imports, i, j, s, f, g);
  }

  lemma UntimedIsShown(env: Env, imports: seq<Step>, s: Subject, i: nat, body: Body)
    requires Sound(env) && Distinct(imports) && UntimedBest(env, imports, s, i, body)
    ensures Makes(env, Turns(env, LastOf(imports, i)), imports)
    ensures Showing(Run(EMPTY, Turns(env, LastOf(imports, i))), s, body)
  {
    LastMakes(env, imports, i);
    TurnsAre(env, LastOf(imports, i));
    var f := LateIsTold(env, imports, s, i, body);
    forall g | Told(LastOf(imports, i), g) && FactOn(s, g)
      ensures !Less(FactRank(env, f), FactRank(env, g))
    {
      LateIsTop(env, imports, s, i, f, g);
    }
    TopIsShown(env, Turns(env, LastOf(imports, i)), imports, s, f);
  }

  lemma OnlyPlace(imports: seq<Step>, i: nat, m: nat)
    requires Distinct(imports) && i < |imports| && m < |LastOf(imports, i)| && Alike(LastOf(imports, i)[m], imports[i])
    ensures m == |LastOf(imports, i)| - 1
  {
    LastIs(imports, i);
    LastAt(imports, i, m);
    assert SameSource(imports[Origin(imports, i, m)].d, imports[i].d);
  }

  lemma {:induction false} TimedIsShown(env: Env, imports: seq<Step>, s: Subject, f: Fact)
    requires Sound(env) && Distinct(imports) && TimedTop(env, imports, s, f)
    ensures Makes(env, Turns(env, Reclocked(imports, Floor(imports))), imports)
    ensures Showing(Run(EMPTY, Turns(env, Reclocked(imports, Floor(imports)))), s, f.body)
  {
    var steps := Reclocked(imports, Floor(imports));
    ReclockedMakes(env, imports, Floor(imports));
    TurnsAre(env, steps);
    TimedIsTold(steps, imports, s, f);
    forall g | Told(steps, g) && FactOn(s, g)
      ensures !Less(FactRank(env, f), FactRank(env, g))
    {
      EarlyIsLower(env, imports, s, f, g);
    }
    TopIsShown(env, Turns(env, steps), imports, s, f);
  }

  lemma {:induction false} EarlyIsLower(env: Env, imports: seq<Step>, s: Subject, f: Fact, g: Fact)
    requires Distinct(imports) && TimedTop(env, imports, s, f) && Told(Reclocked(imports, Floor(imports)), g)
    requires FactOn(s, g)
    ensures !Less(FactRank(env, f), FactRank(env, g))
  {
    var steps := Reclocked(imports, Floor(imports));
    var j: nat :| Adds(steps, j) && ImportFact(steps[j].d, steps[j].n, g);
    var k: nat :| TimedAt(imports, k, f);
    FloorBelow(imports, k);
    if imports[j].d.nativeUpdatedAt.Some? {
      assert Alike(steps[j], imports[j]);
      FactMoves(steps[j], imports[j], g);
      assert TimedAt(imports, j, g);
    }
  }

  lemma CandidateIsShown(env: Env, imports: seq<Step>, s: Subject, body: Body) returns (turns: seq<Turn>)
    requires Sound(env) && Distinct(imports) && Candidate(env, imports, s, body)
    ensures Makes(env, turns, imports) && Showing(Run(EMPTY, turns), s, body)
  {
    if i: nat :| UntimedBest(env, imports, s, i, body) {
      UntimedIsShown(env, imports, s, i, body);
      turns := Turns(env, LastOf(imports, i));
    } else {
      var f :| TimedTop(env, imports, s, f) && f.body == body;
      TimedIsShown(env, imports, s, f);
      turns := Turns(env, Reclocked(imports, Floor(imports)));
    }
  }

  // ---- The exact condition

  ghost predicate AlwaysSame(env: Env, imports: seq<Step>, s: Subject) {
    forall a: seq<Turn>, b: seq<Turn>, body: Body ::
      (Makes(env, a, imports) && Makes(env, b, imports) && Showing(Run(EMPTY, a), s, body) ==>
      Showing(Run(EMPTY, b), s, body))
  }

  lemma CandidateConcerns(env: Env, imports: seq<Step>, s: Subject, body: Body) returns (k: nat)
    requires Candidate(env, imports, s, body)
    ensures k < |imports| && Concerns(s, imports[k])
  {
    if i: nat :| UntimedBest(env, imports, s, i, body) {
      k := i;
    } else {
      var f :| TimedTop(env, imports, s, f) && f.body == body;
      k :| TimedAt(imports, k, f);
      FactMentioned(imports[k], f);
    }
  }

  /** Every run that makes the imports, in whatever order, at whatever clocks and however often,
      prefers the same content for an event, if and only if the best content of every import of it
      without a native time is the same, and the same as the best of all those with one. */
  lemma SameExactlyWhenAgreed(env: Env, imports: seq<Step>, s: Subject)
    requires Sound(env) && Distinct(imports)
    ensures AlwaysSame(env, imports, s) <==> Agreed(env, imports, s)
  {
    if Agreed(env, imports, s) {
      forall a: seq<Turn>, b: seq<Turn>, body: Body | Makes(env, a, imports) && Makes(env, b, imports) &&
        Showing(Run(EMPTY, a), s, body)
        ensures Showing(Run(EMPTY, b), s, body)
      {
        ShownIsCandidate(env, a, imports, s, body);
        var k := CandidateConcerns(env, imports, s, body);
        var other := MentionedIsShown(env, b, imports, s, k);
        ShownIsCandidate(env, b, imports, s, other);
      }
    }
    if AlwaysSame(env, imports, s) {
      forall x: Body, y: Body | Candidate(env, imports, s, x) && Candidate(env, imports, s, y)
        ensures x == y
      {
        var a := CandidateIsShown(env, imports, s, x);
        var b := CandidateIsShown(env, imports, s, y);
        MakesKnows(env, b, imports);
        OneShown(env, Run(EMPTY, b), s, x, y);
      }
    }
  }

  lemma PairAgreed(env: Env, imports: seq<Step>, s: Subject, body: Body, other: Body)
    requires Sound(env) && |imports| == 2 && Distinct(imports) && Concerns(s, imports[0]) && Concerns(s, imports[1])
    requires OwnBest(env, imports[0].n, s.key, body) && OwnBest(env, imports[1].n, s.key, other) && body != other
    ensures Agreed(env, imports, s) <==> !Untimed(imports[0]) && !Untimed(imports[1])
  {
    if !Untimed(imports[0]) && !Untimed(imports[1]) {
      AllTimedAgree(env, imports, s);
    } else {
      OneUntimed(env, imports, s, body, other);
    }
  }

  /** Two imports that bring different contents to the top for an event are safe in either order
      exactly when both carry a native time. */
  lemma OrderMattersUntimed(env: Env, imports: seq<Step>, s: Subject, body: Body, other: Body)
    requires Sound(env) && |imports| == 2 && Distinct(imports) && Concerns(s, imports[0]) && Concerns(s, imports[1])
    requires OwnBest(env, imports[0].n, s.key, body) && OwnBest(env, imports[1].n, s.key, other) && body != other
    ensures AlwaysSame(env, imports, s) <==> !Untimed(imports[0]) && !Untimed(imports[1])
  {
    PairAgreed(env, imports, s, body, other);
    SameExactlyWhenAgreed(env, imports, s);
  }

  /** Imports that all carry a native time never disagree. */
  lemma AllTimedAgree(env: Env, imports: seq<Step>, s: Subject)
    requires Sound(env) && forall i :: 0 <= i < |imports| ==> !Untimed(imports[i])
    ensures Agreed(env, imports, s)
  {
    forall a: Body, b: Body | Candidate(env, imports, s, a) && Candidate(env, imports, s, b)
      ensures a == b
    {
      TimedAgree(env, imports, s, a, b);
    }
  }

  lemma TimedAgree(env: Env, imports: seq<Step>, s: Subject, a: Body, b: Body)
    requires Sound(env) && forall i :: 0 <= i < |imports| ==> !Untimed(imports[i])
    requires Candidate(env, imports, s, a) && Candidate(env, imports, s, b)
    ensures a == b
  {
    var f :| TimedTop(env, imports, s, f) && f.body == a;
    var g :| TimedTop(env, imports, s, g) && g.body == b;
    RankIsBody(env, f, g);
  }

  /** With one of two imports timed, its best is a candidate beside the other's. */
  lemma OneUntimed(env: Env, imports: seq<Step>, s: Subject, body: Body, other: Body)
    requires Sound(env) && |imports| == 2 && Distinct(imports) && Concerns(s, imports[0]) && Concerns(s, imports[1])
    requires OwnBest(env, imports[0].n, s.key, body) && OwnBest(env, imports[1].n, s.key, other) && body != other
    requires Untimed(imports[0]) || Untimed(imports[1])
    ensures !Agreed(env, imports, s)
  {
    if Untimed(imports[0]) {
      assert UntimedBest(env, imports, s, 0, body);
    } else {
      SoleTimed(env, imports, s, 0, body);
    }
    if Untimed(imports[1]) {
      assert UntimedBest(env, imports, s, 1, other);
    } else {
      SoleTimed(env, imports, s, 1, other);
    }
    assert Candidate(env, imports, s, body) && Candidate(env, imports, s, other);
  }

  lemma SoleTimed(env: Env, imports: seq<Step>, s: Subject, i: nat, body: Body)
    requires i < |imports| && imports[i].Import? && !Untimed(imports[i]) && Concerns(s, imports[i])
    requires OwnBest(env, imports[i].n, s.key, body)
    requires forall k :: 0 <= k < |imports| && k != i ==> Untimed(imports[k])
    ensures Candidate(env, imports, s, body)
  {
    var d, n := imports[i].d, imports[i].n;
    var f := Fact(d.harness, d.nativeId, d.revision, d.Time(), s.key, body);
    FactsOf(d, n, s.key, body);
    assert TimedAt(imports, i, f);
    forall g | TimedFact(imports, s, g)
      ensures !Less(FactRank(env, f), FactRank(env, g))
    {
      var k: nat :| TimedAt(imports, k, g);
      assert k == i;
      LessSameTime(env, d.Time(), f.body, g.body);
    }
    assert TimedTop(env, imports, s, f);
  }
}
