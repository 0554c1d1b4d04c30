/** The digest of a revision: it depends on the names and bytes of its source files, not on their
    order, and on nothing else. */
module RevisionDigest {
  import PG = ParentGraph
  import opened Pi

  /** The bytes of a file by their SHA-256 in hex. */
  datatype File = File(path: string, sha: string)

  const NUL: char := 0 as char

  predicate Plain(s: string) {
    NUL !in s
  }

  ghost predicate PlainFiles(files: seq<File>) {
    forall k :: 0 <= k < |files| ==> Plain(files[k].path) && Plain(files[k].sha)
  }

  /** What is hashed: each path and hash, each ended by a NUL. */
  function Written(files: seq<File>): string {
    if files == [] then [] else Written(files[..|files| - 1]) + Entry(files[|files| - 1])
  }

  function Entry(file: File): string {
    file.path + [NUL] + file.sha + [NUL]
  }

  ghost predicate Sorted(files: seq<File>) {
    forall i, j :: 0 <= i < j < |files| ==> StringLess(files[i].path, files[j].path)
  }

  /** RevisionDigest over the sorted copy; hash is SHA-256. */
  method Digest(ordered: seq<File>, hash: string -> int) returns (digest: int)
    ensures digest == hash(Written(ordered))
  {
    var written: string := [];
    var k := 0;
    while k < |ordered|
      invariant 0 <= k <= |ordered| && written == Written(ordered[..k])
    {
      assert ordered[..k + 1][..k] == ordered[..k];
      written := written + Entry(ordered[k]);
      k := k + 1;
    }
    assert ordered[..k] == ordered;
    digest := hash(written);
  }

  // ---- What was written tells the files

  /** Texts without a NUL, each ended by one, can be told apart. */
  lemma LastText(a: string, x: string, b: string, y: string)
    requires Plain(x) && Plain(y) && a + [NUL] + x == b + [NUL] + y
    ensures a == b && x == y
  {
    var s := a + [NUL] + x;
    assert s[|a|] == NUL && s[|b|] == NUL;
    assert forall k :: |a| < k < |s| ==> s[k] == x[k - |a| - 1];
    assert forall k :: |b| < k < |s| ==> s[k] == y[k - |b| - 1];
    assert |a| == |b|;
    assert a == s[..|a|] && b == s[..|b|];
    assert x == s[|a| + 1..] && y == s[|b| + 1..];
  }

  /** A written file and what comes before it, which ends with a NUL or is empty. */
  lemma LastFile(a: string, f: File, b: string, g: File)
    requires Plain(f.path) && Plain(f.sha) && Plain(g.path) && Plain(g.sha)
    requires a + Entry(f) == b + Entry(g) && Ended(a) && Ended(b)
    ensures a == b && f == g
  {
    assert a + f.path + [NUL] + f.sha == (a + Entry(f))[..|a + Entry(f)| - 1];
    assert b + g.path + [NUL] + g.sha == (b + Entry(g))[..|b + Entry(g)| - 1];
    LastText(a + f.path, f.sha, b + g.path, g.sha);
    LastEnded(a, f.path, b, g.path);
  }

  predicate Ended(a: string) {
    a == [] || a[|a| - 1] == NUL
  }

  lemma LastEnded(a: string, x: string, b: string, y: string)
    requires Plain(x) && Plain(y) && Ended(a) && Ended(b) && a + x == b + y
    ensures a == b && x == y
  {
    var s := a + x;
    assert forall k :: |a| <= k < |s| ==> s[k] == x[k - |a|];
    assert forall k :: |b| <= k < |s| ==> s[k] == y[k - |b|];
    assert a != [] ==> s[|a| - 1] == NUL;
    assert b != [] ==> s[|b| - 1] == NUL;
    assert |a| == |b|;
    assert a == s[..|a|] && b == s[..|b|] && x == s[|a|..] && y == s[|b|..];
  }

  lemma {:induction false} WrittenEnds(files: seq<File>)
    ensures Ended(Written(files)) && (Written(files) == [] ==> files == [])
  {
  }

  lemma {:induction false} WrittenOnce(a: seq<File>, b: seq<File>)
    requires PlainFiles(a) && PlainFiles(b) && Written(a) == Written(b)
    ensures a == b
    decreases |a|
  {
    WrittenEnds(a);
    WrittenEnds(b);
    if a != [] && b != [] {
      var m, n := |a| - 1, |b| - 1;
      WrittenEnds(a[..m]);
      WrittenEnds(b[..n]);
      LastFile(Written(a[..m]), a[m], Written(b[..n]), b[n]);
      WrittenOnce(a[..m], b[..n]);
      assert a == a[..m] + [a[m]] && b == b[..n] + [b[n]];
    }
  }

  // ---- Sorting does not matter

  function Paths(files: seq<File>): (paths: seq<string>)
    ensures |paths| == |files| && forall k :: 0 <= k < |files| ==> paths[k] == files[k].path
  {
    seq(|files|, k requires 0 <= k < |files| => files[k].path)
  }

  ghost predicate SameFiles(a: seq<File>, b: seq<File>) {
    forall f: File :: f in a <==> f in b
  }

  lemma PathsSame(a: seq<File>, b: seq<File>)
    requires SameFiles(a, b)
    ensures forall x :: x in Paths(a) ==> x in Paths(b)
  {
    forall x | x in Paths(a)
      ensures x in Paths(b)
    {
      var k :| 0 <= k < |a| && Paths(a)[k] == x;
      assert a[k] in b;
      var n :| 0 <= n < |b| && b[n] == a[k];
      assert Paths(b)[n] == x;
    }
  }

  lemma OneOrder(a: seq<File>, b: seq<File>)
    requires Sorted(a) && Sorted(b) && SameFiles(a, b)
    ensures a == b
  {
    PathsSame(a, b);
    PathsSame(b, a);
    assert Ascending(Paths(a)) && Ascending(Paths(b));
    assert PG.Elements(Paths(a)) == PG.Elements(Paths(b));
    SortedOnce(Paths(a), Paths(b));
    forall k | 0 <= k < |a|
      ensures a[k] == b[k]
    {
      assert a[k] in b;
      var n :| 0 <= n < |b| && b[n] == a[k];
      assert Paths(a)[k] == Paths(b)[k] && Paths(b)[n] == Paths(a)[k];
      NotLessItself(Paths(b)[k]);
      assert n == k;
    }
  }

  /** Two revisions have one digest exactly when they have the same files: the order in which files
      are listed does not matter, and a renamed or changed file always does. */
  lemma {:induction false} DigestIsContent(a: seq<File>, b: seq<File>, hash: string -> int)
    requires Sorted(a) && Sorted(b) && PlainFiles(a) && PlainFiles(b)
    requires forall s: string, t: string :: hash(s) == hash(t) ==> s == t
    ensures hash(Written(a)) == hash(Written(b)) <==> SameFiles(a, b)
  {
    if SameFiles(a, b) {
      OneOrder(a, b);
    }
    if hash(Written(a)) == hash(Written(b)) {
      WrittenOnce(a, b);
    }
  }
}
