/** Content-addressed source objects: files on disk, their rows, and the revisions that use them.
    A file step and a database step are never one step, and the process may die between any two. */
module Objects {
  import opened Utf8

  type Digest = string
  type Content = seq<Byte>

  const DIGEST_LENGTH := 64
  const BATCH := 100

  /** SHA-256 in hexadecimal. */
  type Hash = Content -> Digest

  /** A row of revision_objects. */
  datatype Ref = Ref(revision: nat, path: string)

  /** Who holds the writer lock. A crash releases it. */
  datatype Phase = Idle | Importing(stored: set<Digest>) | Collecting

  datatype State = State(files: map<Digest, Content>, rows: set<Digest>, refs: map<Ref, Digest>, phase: Phase)

  /** Digests some revision uses. */
  function Used(s: State): set<Digest> {
    s.refs.Values
  }

  // ---- Atomic steps

  datatype Step =
    | BeginImport
    | StoreFile(digest: Digest, content: Content)
    | Commit(objects: map<Ref, Digest>)
    | EndImport
    | BeginCollect
    | DropRefs(revisions: set<nat>)
    | RemoveFile(digest: Digest)
    | DeleteRow(digest: Digest)
    | RemoveStray(digest: Digest)
    | EndCollect
    | Crash

  predicate Enabled(hash: Hash, s: State, step: Step) {
    match step
    case BeginImport => s.phase.Idle?
    case StoreFile(d, c) => s.phase.Importing? && hash(c) == d
    case Commit(objects) => s.phase.Importing? && objects.Values <= s.phase.stored && objects.Keys !! s.refs.Keys
    case EndImport => s.phase.Importing?
    case BeginCollect => s.phase.Idle?
    case DropRefs(_) => s.phase.Collecting?
    case RemoveFile(d) => s.phase.Collecting? && d in s.rows && d !in Used(s)
    case DeleteRow(d) => s.phase.Collecting?
    case RemoveStray(d) => s.phase.Collecting? && d !in s.rows
    case EndCollect => s.phase.Collecting?
    case Crash => true
  }

  function Apply(s: State, step: Step): State {
    match step
    case BeginImport => s.(phase := Importing({}))
    case StoreFile(d, c) =>
      s.(files := if d in s.files then s.files else s.files[d := c],
         phase := if s.phase.Importing? then Importing(s.phase.stored + {d}) else s.phase)
    case Commit(objects) => s.(rows := s.rows + objects.Values, refs := s.refs + objects)
    case EndImport => s.(phase := Idle)
    case BeginCollect => s.(phase := Collecting)
    case DropRefs(revisions) => s.(refs := map r | r in s.refs && r.revision !in revisions :: s.refs[r])
    case RemoveFile(d) => s.(files := s.files - {d})
    case DeleteRow(d) => s.(rows := if d in Used(s) then s.rows else s.rows - {d})
    case RemoveStray(d) => s.(files := s.files - {d})
    case EndCollect => s.(phase := Idle)
    case Crash => s.(phase := Idle)
  }

  // ---- What every step keeps

  predicate Honest(hash: Hash, files: map<Digest, Content>) {
    forall d :: d in files ==> hash(files[d]) == d
  }

  /** Every object a revision uses has a row, and a file whose content hashes to its name. */
  predicate Safe(hash: Hash, s: State) {
    && Honest(hash, s.files)
    && Used(s) <= s.rows && Used(s) <= s.files.Keys
    && (s.phase.Importing? ==> s.phase.stored <= s.files.Keys)
  }

  lemma CommitKeeps(hash: Hash, s: State, objects: map<Ref, Digest>)
    requires Safe(hash, s) && Enabled(hash, s, Commit(objects))
    ensures Safe(hash, Apply(s, Commit(objects)))
  {
    var after := Apply(s, Commit(objects));
    forall d | d in Used(after)
      ensures d in after.rows && d in after.files
    {
      var r :| r in after.refs && after.refs[r] == d;
      if r in objects {
        assert objects[r] in objects.Values;
      } else {
        assert s.refs[r] in s.refs.Values;
      }
    }
  }

  lemma DropKeeps(hash: Hash, s: State, revisions: set<nat>)
    requires Safe(hash, s)
    ensures Safe(hash, Apply(s, DropRefs(revisions)))
    ensures Used(Apply(s, DropRefs(revisions))) <= Used(s)
  {
    var after := Apply(s, DropRefs(revisions));
    forall d | d in Used(after)
      ensures d in Used(s)
    {
      var r :| r in after.refs && after.refs[r] == d;
      assert s.refs[r] in s.refs.Values;
    }
  }

  lemma StepKeeps(hash: Hash, s: State, step: Step)
    requires Safe(hash, s) && Enabled(hash, s, step)
    ensures Safe(hash, Apply(s, step))
  {
    match step
    case Commit(objects) => CommitKeeps(hash, s, objects);
    case DropRefs(revisions) => DropKeeps(hash, s, revisions);
    case _ =>
  }

  ghost predicate Reaches(hash: Hash, s: State, steps: seq<Step>, after: State)
    decreases |steps|
  {
    if steps == [] then s == after
    else Enabled(hash, s, steps[0]) && Reaches(hash, Apply(s, steps[0]), steps[1..], after)
  }

  /** Whatever is imported, deleted and collected, and wherever the process dies, no revision loses
      an object. */
  lemma {:induction false} RunKeeps(hash: Hash, s: State, steps: seq<Step>, after: State)
    requires Safe(hash, s) && Reaches(hash, s, steps, after)
    ensures Safe(hash, after)
    decreases |steps|
  {
    if steps != [] {
      StepKeeps(hash, s, steps[0]);
      RunKeeps(hash, Apply(s, steps[0]), steps[1..], after);
    }
  }

  /** Some revision uses the object before and after every step. */
  ghost predicate UsedThroughout(s: State, steps: seq<Step>, d: Digest)
    decreases |steps|
  {
    d in Used(s) && (steps == [] || UsedThroughout(Apply(s, steps[0]), steps[1..], d))
  }

  lemma StepLeaves(hash: Hash, s: State, step: Step, d: Digest)
    requires Safe(hash, s) && Enabled(hash, s, step) && d in Used(s)
    ensures d in Apply(s, step).files && Apply(s, step).files[d] == s.files[d]
  {
  }

  /** As long as an object is used its file is never removed or replaced, whatever runs and wherever
      the process dies. */
  lemma {:induction false} ContentStays(hash: Hash, s: State, steps: seq<Step>, after: State, d: Digest)
    requires Safe(hash, s) && Reaches(hash, s, steps, after) && UsedThroughout(s, steps, d)
    ensures d in s.files && d in after.files && after.files[d] == s.files[d]
    decreases |steps|
  {
    if steps != [] {
      StepLeaves(hash, s, steps[0], d);
      StepKeeps(hash, s, steps[0]);
      ContentStays(hash, Apply(s, steps[0]), steps[1..], after, d);
    }
  }

  lemma {:induction false} ReachesSnoc(hash: Hash, s: State, steps: seq<Step>, before: State, step: Step)
    requires Reaches(hash, s, steps, before) && Enabled(hash, before, step)
    ensures Reaches(hash, s, steps + [step], Apply(before, step))
    decreases |steps|
  {
    if steps == [] {
      assert [step][1..] == [] && steps + [step] == [step];
    } else {
      assert (steps + [step])[1..] == steps[1..] + [step];
      ReachesSnoc(hash, Apply(s, steps[0]), steps[1..], before, step);
    }
  }

  // ---- The store

  datatype Written = Written(digest: Digest) | InvalidDigest | StoredSizeMismatch | DigestMismatch | SizeMismatch

  class ObjectStore {
    const hash: Hash
    var files: map<Digest, Content>
    var rows: set<Digest>
    var refs: map<Ref, Digest>
    ghost var phase: Phase
    ghost var history: seq<Step>
    ghost const initial: State

    ghost function Here(): State
      reads this
    {
      State(files, rows, refs, phase)
    }

    /** The store has got here by atomic steps, between any two of which the process might have died. */
    ghost predicate Valid()
      reads this
    {
      Safe(hash, initial) && Reaches(hash, initial, history, Here())
    }

    constructor (hash: Hash)
      ensures Valid() && this.hash == hash && Here() == State(map[], {}, map[], Idle)
    {
      this.hash := hash;
      files, rows, refs, phase := map[], {}, map[], Idle;
      history, initial := [], State(map[], {}, map[], Idle);
    }

    ghost method Take(step: Step)
      requires Valid() && Enabled(hash, Here(), step)
      requires Apply(Here(), step) == Here().(phase := Apply(Here(), step).phase)
      modifies `phase, `history
      ensures Valid() && Here() == Apply(old(Here()), step) && history == old(history) + [step]
    {
      ReachesSnoc(hash, initial, history, Here(), step);
      phase, history := Apply(Here(), step).phase, history + [step];
    }

    lemma IsSafe()
      requires Valid()
      ensures Safe(hash, Here())
    {
      RunKeeps(hash, initial, history, Here());
    }

    /** writeObject; the temporary file it copies through is not an object. */
    method WriteObject(source: Content, expected: Digest, expectedSize: nat) returns (outcome: Written)
      requires Valid() && phase.Importing?
      modifies this
      ensures Valid() && rows == old(rows) && refs == old(refs) && phase.Importing? && old(phase).stored <= phase.stored
      ensures !outcome.Written? ==> files == old(files)
      ensures outcome.Written? ==>
        outcome.digest == expected && expected in phase.stored && expected in files && |files[expected]| == expectedSize
      ensures outcome.Written? <==>
        |expected| == DIGEST_LENGTH && if expected in old(files) then |old(files)[expected]| == expectedSize
          else hash(source) == expected && |source| == expectedSize
    {
      if |expected| != DIGEST_LENGTH {
        return InvalidDigest;
      }
      IsSafe();
      if expected in files {
        if |files[expected]| != expectedSize {
          return StoredSizeMismatch;
        }
        Take(StoreFile(expected, files[expected]));
        return Written(expected);
      }
      if hash(source) != expected {
        return DigestMismatch;
      }
      if |source| != expectedSize {
        return SizeMismatch;
      }
      ReachesSnoc(hash, initial, history, Here(), StoreFile(expected, source));
      files := files[expected := source];
      phase, history := Importing(phase.stored + {expected}), history + [StoreFile(expected, source)];
      return Written(expected);
    }

    ghost predicate Unused(d: Digest)
      reads this
    {
      d in rows && d !in refs.Values
    }

    /** SELECT ... WHERE NOT EXISTS(...) LIMIT 100. */
    method SelectUnused() returns (batch: seq<Digest>)
      ensures forall n :: 0 <= n < |batch| ==> Unused(batch[n])
      ensures forall m, n :: 0 <= m < n < |batch| ==> batch[m] != batch[n]
      ensures |batch| <= BATCH
      ensures |batch| < BATCH ==> forall d :: Unused(d) ==> d in batch
    {
      batch := [];
      var unused := rows - refs.Values;
      while unused != {} && |batch| < BATCH
        invariant unused <= rows - refs.Values && |batch| <= BATCH
        invariant forall d :: Unused(d) <==> d in unused || d in batch
        invariant forall n :: 0 <= n < |batch| ==> batch[n] !in unused
        invariant forall m, n :: 0 <= m < n < |batch| ==> batch[m] != batch[n]
      {
        var d :| d in unused;
        unused := unused - {d};
        batch := batch + [d];
      }
    }

    /** The file goes first, then the row: a crash between the two leaves an unused row. */
    method RemoveUnused(d: Digest)
      requires Valid() && phase.Collecting? && Unused(d)
      modifies this
      ensures Valid() && phase.Collecting? && refs == old(refs)
      ensures rows == old(rows) - {d} && files == old(files) - {d}
    {
      ReachesSnoc(hash, initial, history, Here(), RemoveFile(d));
      history := history + [RemoveFile(d)];
      files := files - {d};
      ReachesSnoc(hash, initial, history, Here(), DeleteRow(d));
      history := history + [DeleteRow(d)];
      rows := rows - {d};
    }

    method DeleteStray(d: Digest)
      requires Valid() && phase.Collecting? && d !in rows
      modifies this
      ensures Valid() && phase.Collecting? && refs == old(refs) && rows == old(rows) && files == old(files) - {d}
    {
      ReachesSnoc(hash, initial, history, Here(), RemoveStray(d));
      history := history + [RemoveStray(d)];
      files := files - {d};
    }

    method RemoveBatch(batch: seq<Digest>)
      requires Valid() && phase.Collecting?
      requires forall n :: 0 <= n < |batch| ==> Unused(batch[n])
      requires forall m, n :: 0 <= m < n < |batch| ==> batch[m] != batch[n]
      modifies this
      ensures Valid() && phase.Collecting? && refs == old(refs)
      ensures rows == old(rows) - (set d | d in batch) && files == old(files) - (set d | d in batch)
    {
      var k := 0;
      while k < |batch|
        invariant k <= |batch| && Valid() && phase.Collecting? && refs == old(refs)
        invariant rows == old(rows) - (set d | d in batch[..k]) && files == old(files) - (set d | d in batch[..k])
        invariant forall n :: k <= n < |batch| ==> Unused(batch[n])
      {
        RemoveUnused(batch[k]);
        assert batch[..k + 1] == batch[..k] + [batch[k]];
        k := k + 1;
      }
      assert batch[..k] == batch;
    }

    /** The loop over batches of unused rows. */
    method RemoveAllUnused()
      requires Valid() && phase.Collecting?
      modifies this
      ensures Valid() && phase.Collecting? && refs == old(refs)
      ensures rows <= old(rows) && forall d :: d in rows ==> d in refs.Values
      ensures forall d :: d in refs.Values && d in old(files) ==> d in files && files[d] == old(files)[d]
    {
      while true
        invariant Valid() && phase.Collecting? && refs == old(refs) && rows <= old(rows)
        invariant forall d :: d in refs.Values && d in old(files) ==> d in files && files[d] == old(files)[d]
        decreases |rows|
      {
        var batch := SelectUnused();
        ghost var before := rows;
        RemoveBatch(batch);
        if |batch| < BATCH {
          return;
        }
        Shrinks(before, rows, batch[0]);
      }
    }

    /** gc: finished, it leaves exactly the used rows and exactly their files. */
    method CollectGarbage()
      requires Valid() && phase.Collecting?
      modifies this
      ensures Valid() && phase.Collecting? && refs == old(refs)
      ensures rows == refs.Values && files.Keys == refs.Values
      ensures forall d :: d in refs.Values ==> d in old(files) && files[d] == old(files)[d]
    {
      IsSafe();
      RemoveAllUnused();
      IsSafe();
      WalkObjects();
    }

    /** The walk over the object directory removes every file without a row. */
    method WalkObjects()
      requires Valid() && phase.Collecting? && rows <= files.Keys
      modifies this
      ensures Valid() && phase.Collecting? && refs == old(refs) && rows == old(rows)
      ensures files.Keys == rows && forall d :: d in rows ==> files[d] == old(files)[d]
    {
      var paths := files.Keys;
      while paths != {}
        invariant Valid() && phase.Collecting? && refs == old(refs) && rows == old(rows)
        invariant rows <= files.Keys && forall d :: d in rows ==> files[d] == old(files)[d]
        invariant paths <= files.Keys && files.Keys <= rows + paths
        decreases |paths|
      {
        var d :| d in paths;
        paths := paths - {d};
        if d !in rows {
          DeleteStray(d);
        }
      }
    }

    static lemma Shrinks(before: set<Digest>, after: set<Digest>, gone: Digest)
      requires after <= before && gone in before && gone !in after
      ensures |after| < |before|
    {
      assert after <= before - {gone};
      Fewer(after, before - {gone});
    }

    static lemma Fewer(a: set<Digest>, b: set<Digest>)
      requires a <= b
      ensures |a| <= |b|
    {
      assert b == a + (b - a);
    }

    /** DeleteTrace: the trace's revisions lose their objects, then unused ones are collected. */
    method DeleteRevisions(revisions: set<nat>)
      requires Valid() && phase.Idle?
      modifies this
      ensures Valid() && phase.Idle?
      ensures refs == map r | r in old(refs) && r.revision !in revisions :: old(refs)[r]
      ensures rows == refs.Values && files.Keys == refs.Values
    {
      Take(BeginCollect);
      ReachesSnoc(hash, initial, history, Here(), DropRefs(revisions));
      history := history + [DropRefs(revisions)];
      refs := map r | r in refs && r.revision !in revisions :: refs[r];
      CollectGarbage();
      Take(EndCollect);
    }

    /** storeObjects. */
    method StoreObjects(sources: seq<Source>) returns (stored: bool)
      requires Valid() && phase.Importing?
      modifies this
      ensures Valid() && phase.Importing? && refs == old(refs) && rows == old(rows)
      ensures stored ==> forall n :: 0 <= n < |sources| ==> sources[n].digest in phase.stored
    {
      var k := 0;
      while k < |sources|
        invariant k <= |sources| && Valid() && phase.Importing? && refs == old(refs) && rows == old(rows)
        invariant forall n :: 0 <= n < k ==> sources[n].digest in phase.stored
      {
        var outcome := WriteObject(sources[k].content, sources[k].digest, sources[k].size);
        if !outcome.Written? {
          return false;
        }
        k := k + 1;
      }
      stored := true;
    }

    method CommitObjects(objects: map<Ref, Digest>)
      requires Valid() && phase.Importing? && objects.Values <= phase.stored && objects.Keys !! refs.Keys
      modifies this
      ensures Valid() && phase.Importing? && refs == old(refs) + objects && rows == old(rows) + objects.Values
      ensures files == old(files)
    {
      ReachesSnoc(hash, initial, history, Here(), Commit(objects));
      history := history + [Commit(objects)];
      rows, refs := rows + objects.Values, refs + objects;
    }

    /** importTrace with its object files: nothing is committed unless every file was stored and
        no path is given twice. */
    method ImportObjects(revision: nat, sources: seq<Source>) returns (committed: bool)
      requires Valid() && phase.Importing? && forall r :: r in refs ==> r.revision != revision
      modifies this
      ensures Valid() && phase.Importing?
      ensures !committed ==> refs == old(refs) && rows == old(rows)
      ensures committed ==>
        refs == old(refs) + ObjectsOf(revision, sources) && |ObjectsOf(revision, sources)| == |sources|
    {
      committed := StoreObjects(sources);
      if committed {
        var objects := ObjectsOf(revision, sources);
        if |objects| < |sources| {
          return false;
        }
        ObjectsAre(revision, sources, phase.stored);
        CommitObjects(objects);
      }
    }
  }

  /** A file of a descriptor as the archive holds it, with what the manifest says of it. */
  datatype Source = Source(path: string, content: Content, digest: Digest, size: nat)

  /** The revision_objects rows a descriptor's files ask for. */
  function ObjectsOf(revision: nat, sources: seq<Source>): map<Ref, Digest> {
    if sources == [] then map[]
    else
      var last := sources[|sources| - 1];
      ObjectsOf(revision, sources[..|sources| - 1])[Ref(revision, last.path) := last.digest]
  }

  lemma {:induction false} ObjectsAre(revision: nat, sources: seq<Source>, stored: set<Digest>)
    requires forall n :: 0 <= n < |sources| ==> sources[n].digest in stored
    ensures |ObjectsOf(revision, sources)| <= |sources|
    ensures forall r :: r in ObjectsOf(revision, sources) ==> r.revision == revision
    ensures ObjectsOf(revision, sources).Values <= stored
    decreases |sources|
  {
    if sources != [] {
      var before := ObjectsOf(revision, sources[..|sources| - 1]);
      var last := sources[|sources| - 1];
      ObjectsAre(revision, sources[..|sources| - 1], stored);
      assert before[Ref(revision, last.path) := last.digest].Keys == before.Keys + {Ref(revision, last.path)};
    }
  }
}
