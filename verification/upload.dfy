/** Reading the server's answer to an upload, checking it, and remembering what was accepted. */
module Upload {
  import opened Utf8
  import opened Collector

  datatype Status = Imported | Updated | Unchanged | PartiallyParsed | Unsupported | Failed | Unknown

  datatype Outcome = Outcome(key: Key, digest: string, status: Status)

  /** totals of a status the report leaves out are 0. */
  datatype Report = Report(machine: string, outcomes: seq<Outcome>, totals: map<Status, int>)

  datatype Descriptor = Descriptor(key: Key, digest: string)

  datatype Manifest = Manifest(machine: string, traces: seq<Descriptor>)

  /** A line of the response. */
  datatype Line = Malformed | Progressed | Complete(report: Option<Report>) | Refused | OtherPhase

  datatype Error = BadLine | AfterComplete | NotOneReport | ImportFailed | UnknownPhase | Unreadable | NoReport | OtherMachine | BadOutcomes

  datatype Result<T> = Ok(value: T) | Err(error: Error)

  // ---- readCompleteReport

  /** Progress, then one report, then nothing. */
  ghost predicate Completes(lines: seq<Line>, report: Report) {
    && lines != [] && lines[|lines| - 1] == Complete(Some(report))
    && forall k :: 0 <= k < |lines| - 1 ==> lines[k] == Progressed
  }

  ghost predicate ReadSoFar(lines: seq<Line>, k: nat, report: Option<Report>) {
    && k <= |lines|
    && if report.Some? then Completes(lines[..k], report.value) else forall j :: 0 <= j < k ==> lines[j] == Progressed
  }

  lemma NotComplete(lines: seq<Line>, k: nat, was: Option<Report>)
    requires k < |lines| && ReadSoFar(lines, k, was)
    requires was.Some? || (lines[k] != Progressed && !(lines[k].Complete? && lines[k].report.Some?))
    ensures forall report :: !Completes(lines, report)
  {
    forall report
      ensures !Completes(lines, report)
    {
      if was.Some? {
        assert !(lines[k - 1] == Progressed);
      }
    }
  }

  /** The report, exactly when the response is progress followed by one report and nothing else. */
  method ReadCompleteReport(lines: seq<Line>, readable: bool) returns (r: Result<Report>)
    ensures r.Ok? ==> readable && Completes(lines, r.value)
    ensures r.Err? ==> !readable || forall report :: !Completes(lines, report)
  {
    var report: Option<Report> := None;
    var k := 0;
    while k < |lines|
      invariant ReadSoFar(lines, k, report)
    {
      match lines[k] {
        case Malformed =>
          NotComplete(lines, k, report);
          return Err(BadLine);
        case Progressed =>
          if report.Some? {
            NotComplete(lines, k, report);
            return Err(AfterComplete);
          }
        case Complete(found) =>
          if report.Some? || found.None? {
            NotComplete(lines, k, report);
            return Err(NotOneReport);
          }
          assert lines[..k + 1][k] == lines[k];
          report := found;
        case Refused =>
          NotComplete(lines, k, report);
          return Err(if report.Some? then AfterComplete else ImportFailed);
        case OtherPhase =>
          NotComplete(lines, k, report);
          return Err(UnknownPhase);
      }
      k := k + 1;
    }
    assert lines[..k] == lines;
    if !readable {
      return Err(Unreadable);
    }
    if report.None? {
      return Err(NoReport);
    }
    return Ok(report.value);
  }

  // ---- validateOutcomes

  function Expected(descriptors: seq<Descriptor>): map<Key, string> {
    if descriptors == [] then map[]
    else
      var last := descriptors[|descriptors| - 1];
      Expected(descriptors[..|descriptors| - 1])[last.key := last.digest]
  }

  function Count(outcomes: seq<Outcome>, status: Status): nat {
    if outcomes == [] then 0 else Count(outcomes[..|outcomes| - 1], status) + (if outcomes[|outcomes| - 1].status == status then 1 else 0)
  }

  function Claimed(report: Report, status: Status): int {
    if status in report.totals then report.totals[status] else 0
  }

  function Keys(outcomes: seq<Outcome>): set<Key> {
    set o | o in outcomes :: o.key
  }

  /** One outcome of an archive's trace. */
  predicate OutcomeOk(expected: map<Key, string>, o: Outcome) {
    o.key in expected && expected[o.key] == o.digest && o.status != Unknown
  }

  ghost predicate OncePerKey(outcomes: seq<Outcome>) {
    forall i, j :: 0 <= i < j < |outcomes| ==> outcomes[i].key != outcomes[j].key
  }

  /** The report has exactly one outcome for each trace of the archive, of its revision, and its
      totals count them. */
  ghost predicate Answers(report: Report, descriptors: seq<Descriptor>) {
    && OncePerKey(report.outcomes)
    && (forall o :: o in report.outcomes ==> OutcomeOk(Expected(descriptors), o))
    && Keys(report.outcomes) == Expected(descriptors).Keys
    && forall s: Status :: s != Unknown ==> Count(report.outcomes, s) == Claimed(report, s)
  }

  method ExpectedOf(descriptors: seq<Descriptor>) returns (expected: map<Key, string>)
    ensures expected == Expected(descriptors)
  {
    expected := map[];
    var k := 0;
    while k < |descriptors|
      invariant 0 <= k <= |descriptors| && expected == Expected(descriptors[..k])
    {
      assert descriptors[..k + 1][..k] == descriptors[..k];
      expected := expected[descriptors[k].key := descriptors[k].digest];
      k := k + 1;
    }
    assert descriptors[..k] == descriptors;
  }

  ghost predicate Checked(outcomes: seq<Outcome>, k: nat, expected: map<Key, string>, seen: set<Key>,
      counts: map<Status, nat>)
  {
    && k <= |outcomes| && OncePerKey(outcomes[..k]) && seen == Keys(outcomes[..k])
    && (forall j :: 0 <= j < k ==> OutcomeOk(expected, outcomes[j]))
    && forall s: Status :: (if s in counts then counts[s] else 0) == Count(outcomes[..k], s)
  }

  lemma KeysSnoc(outcomes: seq<Outcome>, o: Outcome)
    ensures Keys(outcomes + [o]) == Keys(outcomes) + {o.key}
  {
    assert forall x :: x in outcomes + [o] <==> x in outcomes || x == o;
  }

  lemma CheckedMore(outcomes: seq<Outcome>, k: nat, expected: map<Key, string>, seen: set<Key>,
      counts: map<Status, nat>)
    requires k < |outcomes| && Checked(outcomes, k, expected, seen, counts)
    requires OutcomeOk(expected, outcomes[k]) && outcomes[k].key !in seen
    ensures var o := outcomes[k];
      Checked(outcomes, k + 1, expected, seen + {o.key}, counts[o.status := (if o.status in counts then counts[o.status] else 0) + 1])
  {
    var o := outcomes[k];
    assert outcomes[..k + 1] == outcomes[..k] + [o] && outcomes[..k + 1][..k] == outcomes[..k];
    KeysSnoc(outcomes[..k], o);
    forall i | 0 <= i < k
      ensures outcomes[i].key in seen
    {
      assert outcomes[..k][i] in outcomes[..k];
    }
  }

  lemma Repeated(outcomes: seq<Outcome>, k: nat)
    requires k < |outcomes| && outcomes[k].key in Keys(outcomes[..k])
    ensures !OncePerKey(outcomes)
  {
    var o :| o in outcomes[..k] && o.key == outcomes[k].key;
    var i :| 0 <= i < k && outcomes[..k][i] == o;
    assert outcomes[i].key == outcomes[k].key;
  }

  lemma AllSeen(seen: set<Key>, expected: map<Key, string>)
    requires seen <= expected.Keys
    ensures |seen| == |expected| <==> seen == expected.Keys
  {
    assert |expected| == |expected.Keys|;
    assert expected.Keys == seen + (expected.Keys - seen);
  }

  lemma {:induction false} AllChecked(outcomes: seq<Outcome>, expected: map<Key, string>, seen: set<Key>,
      counts: map<Status, nat>)
    requires Checked(outcomes, |outcomes|, expected, seen, counts)
    ensures OncePerKey(outcomes) && seen == Keys(outcomes) && seen <= expected.Keys
    ensures forall o :: o in outcomes ==> OutcomeOk(expected, o)
    ensures forall s: Status :: (if s in counts then counts[s] else 0) == Count(outcomes, s)
  {
    assert outcomes[..|outcomes|] == outcomes;
    forall o | o in outcomes
      ensures OutcomeOk(expected, o)
    {
      var j :| 0 <= j < |outcomes| && outcomes[j] == o;
    }
  }

  lemma {:induction false} BadOutcome(report: Report, descriptors: seq<Descriptor>, k: nat)
    requires k < |report.outcomes|
    requires !OutcomeOk(Expected(descriptors), report.outcomes[k]) || report.outcomes[k].key in Keys(report.outcomes[..k])
    ensures !Answers(report, descriptors)
  {
    if OutcomeOk(Expected(descriptors), report.outcomes[k]) {
      Repeated(report.outcomes, k);
    }
  }

  lemma {:induction false} AllAnswered(report: Report, descriptors: seq<Descriptor>, seen: set<Key>,
      counts: map<Status, nat>)
    requires Checked(report.outcomes, |report.outcomes|, Expected(descriptors), seen, counts)
    ensures Answers(report, descriptors) <==>
      |seen| == |Expected(descriptors)| && forall s: Status :: s != Unknown ==> TotalOk(report, counts, s)
  {
    AllChecked(report.outcomes, Expected(descriptors), seen, counts);
    AllSeen(seen, Expected(descriptors));
    assert forall s: Status :: TotalOk(report, counts, s) <==> Count(report.outcomes, s) == Claimed(report, s);
  }

  lemma CheckedStarts(outcomes: seq<Outcome>, expected: map<Key, string>)
    ensures Checked(outcomes, 0, expected, {}, map[])
  {
    assert outcomes[..0] == [];
  }

  method ValidateOutcomes(report: Report, descriptors: seq<Descriptor>) returns (ok: bool)
    ensures ok <==> Answers(report, descriptors)
  {
    var expected := ExpectedOf(descriptors);
    var seen: set<Key> := {};
    var counts: map<Status, nat> := map[];
    var k := 0;
    CheckedStarts(report.outcomes, expected);
    while k < |report.outcomes|
      invariant Checked(report.outcomes, k, expected, seen, counts)
    {
      var o := report.outcomes[k];
      if o.key !in expected || expected[o.key] != o.digest || o.key in seen || o.status == Unknown {
        BadOutcome(report, descriptors, k);
        return false;
      }
      CheckedMore(report.outcomes, k, expected, seen, counts);
      seen := seen + {o.key};
      counts := counts[o.status := (if o.status in counts then counts[o.status] else 0) + 1];
      k := k + 1;
    }
    AllAnswered(report, descriptors, seen, counts);
    var totals := TotalsMatch(report, counts);
    ok := |seen| == |expected| && totals;
  }

  predicate TotalOk(report: Report, counts: map<Status, nat>, s: Status) {
    (if s in counts then counts[s] else 0) == Claimed(report, s)
  }

  method TotalsMatch(report: Report, counts: map<Status, nat>) returns (ok: bool)
    ensures ok <==> forall s: Status :: s != Unknown ==> TotalOk(report, counts, s)
  {
    ok := TotalOk(report, counts, Imported) && TotalOk(report, counts, Updated) && TotalOk(report, counts, Unchanged)
      && TotalOk(report, counts, PartiallyParsed) && TotalOk(report, counts, Unsupported) && TotalOk(report, counts, Failed);
  }

  // ---- acknowledge

  predicate Accepts(o: Outcome) {
    o.status == Imported || o.status == Updated || o.status == Unchanged
  }

  function AcksAfter(acks: Acks, machine: string, outcomes: seq<Outcome>): Acks {
    if outcomes == [] then acks
    else
      var before, o := AcksAfter(acks, machine, outcomes[..|outcomes| - 1]), outcomes[|outcomes| - 1];
      if Accepts(o) then before[o.key := Ack(o.digest, machine)] else before
  }

  ghost predicate AckedAs(acks: Acks, machine: string, outcomes: seq<Outcome>, key: Key, after: Acks) {
    if exists o :: o in outcomes && o.key == key && Accepts(o) then key in after && exists o ::
      o in outcomes && o.key == key && Accepts(o) && after[key] == Ack(o.digest, machine)
    else (key in after <==> key in acks) && (key in acks ==> after[key] == acks[key])
  }

  lemma AckedMore(acks: Acks, machine: string, front: seq<Outcome>, last: Outcome, key: Key, after: Acks)
    requires AckedAs(acks, machine, front, key, after)
    ensures AckedAs(acks, machine, front + [last], key, if Accepts(last) then after[last.key := Ack(last.digest, machine)] else after)
  {
    var outcomes := front + [last];
    assert forall o :: o in outcomes <==> o in front || o == last;
  }

  /** What is remembered for a trace: a digest the report accepted, or what was remembered before. */
  lemma {:induction false} AcksAre(acks: Acks, machine: string, outcomes: seq<Outcome>, key: Key)
    ensures AckedAs(acks, machine, outcomes, key, AcksAfter(acks, machine, outcomes))
  {
    if outcomes != [] {
      var front, last := outcomes[..|outcomes| - 1], outcomes[|outcomes| - 1];
      assert outcomes == front + [last];
      AcksAre(acks, machine, front, key);
      AckedMore(acks, machine, front, last, key, AcksAfter(acks, machine, front));
    }
  }

  /** The collector's configuration, with its Collection State. */
  class Config {
    const machine: string
    var acks: Acks

    constructor (machine: string, acks: Acks)
      ensures this.machine == machine && this.acks == acks
    {
      this.machine, this.acks := machine, acks;
    }

    method Acknowledge(report: Report)
      modifies this
      ensures acks == AcksAfter(old(acks), machine, report.outcomes)
    {
      var k := 0;
      while k < |report.outcomes|
        invariant 0 <= k <= |report.outcomes| && acks == AcksAfter(old(acks), machine, report.outcomes[..k])
      {
        var outcome := report.outcomes[k];
        assert report.outcomes[..k + 1][..k] == report.outcomes[..k];
        if outcome.status == Imported || outcome.status == Updated || outcome.status == Unchanged {
          acks := acks[outcome.key := Ack(outcome.digest, machine)];
        }
        k := k + 1;
      }
      assert report.outcomes[..k] == report.outcomes;
    }

    /** Upload of one archive: the state changes only for a complete answer about this machine's
        archive. */
    method UploadOne(manifest: Manifest, lines: seq<Line>, readable: bool) returns (r: Result<Report>)
      modifies this
      ensures r.Ok? <==> readable && exists report :: Answered(manifest, lines, report)
      ensures r.Ok? ==> Answered(manifest, lines, r.value)
      ensures acks == if r.Ok? && manifest.machine == machine then AcksAfter(old(acks), machine, r.value.outcomes) else old(acks)
    {
      var read := ReadCompleteReport(lines, readable);
      if read.Err? {
        return read;
      }
      var report := read.value;
      assert forall other :: Completes(lines, other) ==> other == report;
      if report.machine != manifest.machine {
        return Err(OtherMachine);
      }
      var ok := ValidateOutcomes(report, manifest.traces);
      if !ok {
        return Err(BadOutcomes);
      }
      assert Answered(manifest, lines, report);
      if manifest.machine == machine {
        Acknowledge(report);
      }
      return Ok(report);
    }
  }

  /** The server's answer to an archive. */
  ghost predicate Answered(manifest: Manifest, lines: seq<Line>, report: Report) {
    Completes(lines, report) && report.machine == manifest.machine && Answers(report, manifest.traces)
  }

  // ---- Runs of collect, upload and edits

  /** A trace revision the server said it has for a machine. */
  datatype Accepted = Accepted(machine: string, key: Key, digest: string)

  datatype State = State(client: Client, stamps: Stamps, accepted: set<Accepted>)

  /** A collection may be cut short after some adapters, or fail to save its stamps; an upload may
      fail to save its state; and the machine id may be set anew. Files are edited between steps:
      that shows in what a collection finds. */
  datatype Step =
    | Collected(options: Options, found: seq<seq<Item>>, collection: Collection, saved: bool)
    | Uploaded(manifest: Manifest, lines: seq<Line>, report: Report, saved: bool)
    | NewMachine(machine: string)

  ghost predicate Fits(facts: Facts, s: State, step: Step) {
    match step
    case Collected(o, found, r, _) => Collects(facts, s.client, o, r, AllItems(found))
    case Uploaded(manifest, lines, report, _) => Answered(manifest, lines, report)
    case NewMachine(_) => true
  }

  ghost function AcceptedBy(machine: string, outcomes: seq<Outcome>): set<Accepted> {
    set o | o in outcomes && Accepts(o) :: Accepted(machine, o.key, o.digest)
  }

  ghost function After(s: State, step: Step): State {
    match step
    case Collected(_, _, r, saved) => if saved then s.(stamps := r.stamps) else s
    case Uploaded(manifest, _, report, saved) =>
      var now := s.(accepted := s.accepted + AcceptedBy(manifest.machine, report.outcomes));
      if saved && manifest.machine == s.client.machine then
        now.(client := s.client.(acks := AcksAfter(s.client.acks, s.client.machine, report.outcomes))) else now
    case NewMachine(machine) => s.(client := s.client.(machine := machine))
  }

  /** Every remembered digest was accepted, and every stamp stands for what it was taken of. */
  ghost predicate Honest(facts: Facts, s: State) {
    && StampsTrue(facts, s.stamps)
    && AcksTrue(s.client.acks, s.accepted)
  }

  ghost predicate AckTrue(acks: Acks, accepted: set<Accepted>, key: Key) {
    key in acks ==> Accepted(acks[key].machine, key, acks[key].digest) in accepted
  }

  ghost predicate AcksTrue(acks: Acks, accepted: set<Accepted>) {
    forall key: Key :: AckTrue(acks, accepted, key)
  }

  lemma StillTrue(acks: Acks, accepted: set<Accepted>, more: set<Accepted>)
    requires AcksTrue(acks, accepted)
    ensures AcksTrue(acks, accepted + more)
  {
    forall key: Key
      ensures AckTrue(acks, accepted + more, key)
    {
      assert AckTrue(acks, accepted, key);
    }
  }

  lemma {:induction false} UploadHonest(acks: Acks, accepted: set<Accepted>, machine: string, outcomes: seq<Outcome>)
    requires AcksTrue(acks, accepted)
    ensures AcksTrue(AcksAfter(acks, machine, outcomes), accepted + AcceptedBy(machine, outcomes))
  {
    forall key: Key
      ensures AckTrue(AcksAfter(acks, machine, outcomes), accepted + AcceptedBy(machine, outcomes), key)
    {
      assert AckTrue(acks, accepted, key);
      AcksAre(acks, machine, outcomes, key);
    }
  }

  lemma StepHonest(facts: Facts, s: State, step: Step)
    requires Honest(facts, s) && Fits(facts, s, step)
    ensures Honest(facts, After(s, step))
  {
    match step
    case Collected(_, _, _, _) =>
    case Uploaded(manifest, _, report, saved) =>
      UploadHonest(s.client.acks, s.accepted, s.client.machine, report.outcomes);
      StillTrue(s.client.acks, s.accepted, AcceptedBy(manifest.machine, report.outcomes));
    case NewMachine(_) =>
  }

  ghost function RunAll(s: State, steps: seq<Step>): State
    decreases |steps|
  {
    if steps == [] then s else RunAll(After(s, steps[0]), steps[1..])
  }

  ghost predicate AllFit(facts: Facts, s: State, steps: seq<Step>)
    decreases |steps|
  {
    steps == [] || (Fits(facts, s, steps[0]) && AllFit(facts, After(s, steps[0]), steps[1..]))
  }

  lemma {:induction false} RunHonest(facts: Facts, s: State, steps: seq<Step>)
    requires Honest(facts, s) && AllFit(facts, s, steps)
    ensures Honest(facts, RunAll(s, steps))
    decreases |steps|
  {
    if steps != [] {
      StepHonest(facts, s, steps[0]);
      RunHonest(facts, After(s, steps[0]), steps[1..]);
    }
  }

  /** The server accepted the trace with the digest its source has at its stamp. */
  ghost predicate AcceptedAtStamp(facts: Facts, s: State, item: Item) {
    && item.source != "" && item.stamp != ""
    && var (key, digest) := facts(item.source, item.stamp);
    Accepted(s.client.machine, key, digest) in s.accepted
  }

  /** Why a collection may leave an item out. */
  ghost predicate LeftOut(facts: Facts, s: State, r: Collection, item: Item) {
    || (item.digest.None? && (SnapshotFailed(item.key) in r.warnings || AcceptedAtStamp(facts, s, item)))
    || DuplicateTrace(item.key) in r.warnings
    || (item.digest.Some? && Accepted(s.client.machine, item.key, item.digest.value) in s.accepted)
  }

  lemma AckedIsAccepted(s: State, key: Key, digest: string)
    requires AcksTrue(s.client.acks, s.accepted) && Acked(s.client, key, digest) && digest != ""
    ensures Accepted(s.client.machine, key, digest) in s.accepted
  {
    assert AckTrue(s.client.acks, s.accepted, key);
  }

  /** After any run of collections, uploads and edits, a collection leaves a source out only when it
      says so, as a repeat or a failed copy, or when the server accepted that trace with exactly its
      current digest for this machine. */
  lemma {:induction false} LeftOutIsAccepted(facts: Facts, steps: seq<Step>, machine: string, o: Options, r: Collection,
      found: set<Item>, item: Item)
    requires var begun := State(Client(machine, map[]), map[], {});
      AllFit(facts, begun, steps) && Collects(facts, RunAll(begun, steps).client, o, r, found)
    requires item in found && item !in r.inputs && (item.digest.Some? ==> item.digest.value != "")
    ensures LeftOut(facts, RunAll(State(Client(machine, map[]), map[], {}), steps), r, item)
  {
    var start := State(Client(machine, map[]), map[], {});
    var s := RunAll(start, steps);
    RunHonest(facts, start, steps);
    assert Accounted(facts, s.client, o, r, item);
    if item.digest.None? && AckedAtStamp(facts, s.client, item) {
      var (key, digest) := facts(item.source, item.stamp);
      AckedIsAccepted(s, key, digest);
    } else if item.digest.Some? && Acked(s.client, item.key, item.digest.value) {
      AckedIsAccepted(s, item.key, item.digest.value);
    }
  }

  /** A repeat is reported only beside an item of its trace that was passed on, or accepted. */
  lemma RepeatHasFirst(facts: Facts, s: State, o: Options, r: Collection, found: set<Item>, key: Key)
      returns (item: Item)
    requires Honest(facts, s) && Collects(facts, s.client, o, r, found) && DuplicateTrace(key) in r.warnings
    ensures item in found && item.key == key && item.digest.Some?
    ensures item in r.inputs || item.digest.value == "" || Accepted(s.client.machine, key, item.digest.value) in s.accepted
  {
    assert WarningTrue(r, DuplicateTrace(key), found);
    assert HasFirst(s.client, o, r, key, found);
    item :| item in found && First(s.client, o, r, key, item);
    assert AckTrue(s.client.acks, s.accepted, key);
  }
}
