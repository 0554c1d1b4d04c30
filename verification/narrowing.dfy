/** Narrowing an exact or regular expression search with the trigram index
    (regexTrigramQuery and trigramCandidate in internal/store/search.go) never loses a text the
    expression matches, although the index sees one chunk at a time. */
module Narrowing {
  import opened Utf8
  import opened Regex
  import opened TrigramQuery
  import C = Chunking
  import T = TextChunks

  const CANDIDATE_BYTES := 512
  const MAX_TRIGRAM_PHRASES := 256

  // ---- The part of a literal the index looks for

  /** The longest start of a text within CANDIDATE_BYTES bytes. */
  function Start(text: seq<Rune>): (start: seq<Rune>)
    ensures start <= text && |Encode(start)| <= CANDIDATE_BYTES
    ensures start != text ==> |start| < |text| && |Encode(text[..|start| + 1])| > CANDIDATE_BYTES
  {
    if |Encode(text)| <= CANDIDATE_BYTES then text
    else
      var start := Start(text[..|text| - 1]);
      assert start != text[..|text| - 1] ==> text[..|text| - 1][..|start| + 1] == text[..|start| + 1];
      assert text[..|text|] == text;
      start
  }

  /** trigramCandidate; empty for a text too short to look up. */
  function Candidate(text: seq<Rune>): (candidate: seq<Rune>)
    ensures candidate <= text && |Encode(candidate)| <= CANDIDATE_BYTES
    ensures |text| >= 3 ==> |candidate| >= 3
    ensures |text| < 3 ==> candidate == []
  {
    if |text| < 3 then []
    else
      var start := Start(text);
      EncodeLength(text[..if start == text then 0 else |start| + 1]);
      start
  }

  lemma StartUnique(text: seq<Rune>, k: nat)
    requires k <= |text| && |Encode(text[..k])| <= CANDIDATE_BYTES
    requires k < |text| ==> |Encode(text[..k + 1])| > CANDIDATE_BYTES
    ensures Start(text) == text[..k]
  {
    var n := |Start(text)|;
    assert Start(text) == text[..n] && text[..|text|] == text;
    if n < k {
      T.OffsetsOrdered(text, k, n + 1);
      EncodeSplit(text, n + 1, k);
    } else if k < n {
      EncodeSplit(text, k + 1, n);
    }
  }

  /** trigramCandidate as the source computes it, on the bytes of a text. */
  method TrigramCandidate(value: seq<Byte>, text: seq<Rune>) returns (candidate: seq<Byte>)
    requires value == Encode(text)
    ensures candidate == Encode(Candidate(text))
  {
    if |text| < 3 {
      return [];
    }
    var end := |value|;
    assert text[..|text|] == text;
    if CANDIDATE_BYTES < |value| {
      C.EncodedShortRuns(text);
      end := C.BackUp(value, CANDIDATE_BYTES);
      ghost var k := RuneAt(text, end);
      if k < |text| {
        RuneBoundary(text, k + 1);
        EncodeSplit(text, k, k + 1);
        EncodeLength(text[k..k + 1]);
      }
      StartUnique(text, k);
      EncodeSplit(text, 0, k);
    } else {
      StartUnique(text, |text|);
    }
    candidate := value[..end];
  }

  // ---- lowerFoldedLiterals

  /** Case-insensitive ASCII literals become lower-case case-sensitive ones. */
  function LowerFoldedLiterals(re: Regexp): Regexp {
    match re
    case Literal(runes, fold) => if fold && AllAscii(runes) then Literal(AsciiLower(runes), false) else re
    case Capture(sub) => Capture(LowerFoldedLiterals(sub))
    case Star(sub) => Star(LowerFoldedLiterals(sub))
    case Plus(sub) => Plus(LowerFoldedLiterals(sub))
    case Quest(sub) => Quest(LowerFoldedLiterals(sub))
    case Repeat(sub, min, max) => Repeat(LowerFoldedLiterals(sub), min, max)
    case Concat(subs) => Concat(LowerAll(subs))
    case Alternate(subs) => Alternate(LowerAll(subs))
    case _ => re
  }

  function LowerAll(subs: seq<Regexp>): (lowered: seq<Regexp>)
    ensures |lowered| == |subs|
    ensures forall k :: 0 <= k < |subs| ==> lowered[k] == LowerFoldedLiterals(subs[k])
  {
    if subs == [] then [] else [LowerFoldedLiterals(subs[0])] + LowerAll(subs[1..])
  }

  /** Two texts the index cannot tell apart. */
  ghost predicate Alike(u: Unicode, a: seq<Rune>, b: seq<Rune>) {
    |a| == |b| && forall k :: 0 <= k < |a| ==> u.indexFold(a[k]) == u.indexFold(b[k])
  }

  ghost predicate SameSpan(a: seq<Rune>, i: nat, j: nat, b: seq<Rune>, i': nat) {
    i <= j <= |a| && i' + (j - i) <= |b| && forall k :: i <= k < j ==> a[k] == b[k - i + i']
  }

  /** Without anchors a match depends only on the characters it spans. */
  lemma {:induction false} MatchMoves(u: Unicode, re: Regexp, a: seq<Rune>, i: nat, j: nat, b: seq<Rune>, i': nat)
    requires SameSpan(a, i, j, b, i') && Matches(Unanchored(u), re, a, i, j)
    ensures Matches(Unanchored(u), re, b, i', i' + (j - i))
    decreases re, 0, 0
  {
    var v, j' := Unanchored(u), i' + (j - i);
    match re
    case Literal(runes, fold) =>
      assert forall k {:trigger runes[k]} :: 0 <= k < |runes| ==> b[i' + k] == a[i + k];
    case CharClass(_) | AnyChar | AnyCharNotNL => assert a[i] == b[i'];
    case Capture(sub) => MatchMoves(u, sub, a, i, j, b, i');
    case Quest(sub) =>
      if i != j {
        MatchMoves(u, sub, a, i, j, b, i');
      }
    case Star(sub) =>
      var n: nat :| Times(v, sub, n, a, i, j);
      TimesMove(u, sub, n, a, i, j, b, i');
    case Plus(sub) =>
      var n: nat :| n > 0 && Times(v, sub, n, a, i, j);
      TimesMove(u, sub, n, a, i, j, b, i');
    case Repeat(sub, min, max) =>
      var n: nat :| min <= n && (max < 0 || n <= max) && Times(v, sub, n, a, i, j);
      TimesMove(u, sub, n, a, i, j, b, i');
    case Concat(subs) => InOrderMoves(u, subs, a, i, j, b, i');
    case Alternate(subs) =>
      var k :| 0 <= k < |subs| && Matches(v, subs[k], a, i, j);
      MatchMoves(u, subs[k], a, i, j, b, i');
    case _ =>
  }

  lemma {:induction false} InOrderMoves(u: Unicode, subs: seq<Regexp>, a: seq<Rune>, i: nat, j: nat, b: seq<Rune>,
      i': nat)
    requires SameSpan(a, i, j, b, i') && InOrder(Unanchored(u), subs, a, i, j)
    ensures InOrder(Unanchored(u), subs, b, i', i' + (j - i))
    decreases subs, 0, 0
  {
    if subs != [] {
      var k :| i <= k <= j && Matches(Unanchored(u), subs[0], a, i, k) && InOrder(Unanchored(u), subs[1..], a, k, j);
      MatchMoves(u, subs[0], a, i, k, b, i');
      InOrderMoves(u, subs[1..], a, k, j, b, i' + (k - i));
    }
  }

  lemma {:induction false} TimesMove(u: Unicode, sub: Regexp, n: nat, a: seq<Rune>, i: nat, j: nat, b: seq<Rune>,
      i': nat)
    requires SameSpan(a, i, j, b, i') && Times(Unanchored(u), sub, n, a, i, j)
    ensures Times(Unanchored(u), sub, n, b, i', i' + (j - i))
    decreases sub, 1, n
  {
    if n > 0 {
      var k :| i <= k <= j && Matches(Unanchored(u), sub, a, i, k) && Times(Unanchored(u), sub, n - 1, a, k, j);
      MatchMoves(u, sub, a, i, k, b, i');
      TimesMove(u, sub, n - 1, a, k, j, b, i' + (k - i));
    }
  }

  /** Two alike texts glued at k. */
  lemma Glue(u: Unicode, text: seq<Rune>, a: seq<Rune>, b: seq<Rune>, i: nat, k: nat, j: nat) returns (glued: seq<Rune>)
    requires Alike(u, a, text) && Alike(u, b, text) && i <= k <= j <= |text|
    ensures Alike(u, glued, text) && SameSpan(a, i, k, glued, i) && SameSpan(b, k, j, glued, k)
  {
    glued := a[..k] + b[k..];
  }

  lemma LoweredLiteral(u: Unicode, runes: seq<Rune>, text: seq<Rune>, i: nat) returns (alike: seq<Rune>)
    requires Standard(u) && AllAscii(runes) && LiteralAt(u, runes, true, text, i)
    ensures Alike(u, alike, text) && LiteralAt(Unanchored(u), AsciiLower(runes), false, alike, i)
  {
    var lower := AsciiLower(runes);
    alike := seq(|text|, k requires 0 <= k < |text| => if i <= k < i + |runes| then lower[k - i] else text[k]);
    forall k | 0 <= k < |text|
      ensures u.indexFold(alike[k]) == u.indexFold(text[k])
    {
      if i <= k < i + |runes| {
        assert SameRune(u, true, runes[k - i], text[i + (k - i)]);
      }
    }
  }

  /** For every match there is a text alike that the rewritten expression matches. */
  lemma {:induction false} LoweredMatches(u: Unicode, re: Regexp, text: seq<Rune>, i: nat, j: nat)
      returns (alike: seq<Rune>)
    requires Standard(u) && i <= j <= |text| && Matches(u, re, text, i, j)
    ensures Alike(u, alike, text) && Matches(Unanchored(u), LowerFoldedLiterals(re), alike, i, j)
    decreases re, 0, 0
  {
    alike := text;
    match re
    case Literal(runes, fold) =>
      if fold && AllAscii(runes) {
        alike := LoweredLiteral(u, runes, text, i);
      }
    case Capture(sub) => alike := LoweredMatches(u, sub, text, i, j);
    case Quest(sub) =>
      if i != j {
        alike := LoweredMatches(u, sub, text, i, j);
      }
    case Star(sub) =>
      var n: nat :| Times(u, sub, n, text, i, j);
      alike := LoweredTimes(u, sub, n, text, i, j);
    case Plus(sub) =>
      var n: nat :| n > 0 && Times(u, sub, n, text, i, j);
      alike := LoweredTimes(u, sub, n, text, i, j);
    case Repeat(sub, min, max) =>
      var n: nat :| min <= n && (max < 0 || n <= max) && Times(u, sub, n, text, i, j);
      alike := LoweredTimes(u, sub, n, text, i, j);
    case Concat(subs) => alike := LoweredInOrder(u, subs, text, i, j);
    case Alternate(subs) =>
      var k :| 0 <= k < |subs| && Matches(u, subs[k], text, i, j);
      alike := LoweredMatches(u, subs[k], text, i, j);
      assert LowerAll(subs)[k] == LowerFoldedLiterals(subs[k]);
    case _ =>
  }

  lemma {:induction false} LoweredInOrder(u: Unicode, subs: seq<Regexp>, text: seq<Rune>, i: nat, j: nat)
      returns (alike: seq<Rune>)
    requires Standard(u) && i <= j <= |text| && InOrder(u, subs, text, i, j)
    ensures Alike(u, alike, text) && InOrder(Unanchored(u), LowerAll(subs), alike, i, j)
    decreases subs, 0, 0
  {
    alike := text;
    if subs != [] {
      var k :| i <= k <= j && Matches(u, subs[0], text, i, k) && InOrder(u, subs[1..], text, k, j);
      var first := LoweredMatches(u, subs[0], text, i, k);
      var rest := LoweredInOrder(u, subs[1..], text, k, j);
      alike := Glue(u, text, first, rest, i, k, j);
      MatchMoves(u, LowerFoldedLiterals(subs[0]), first, i, k, alike, i);
      InOrderMoves(u, LowerAll(subs[1..]), rest, k, j, alike, k);
      assert LowerAll(subs)[1..] == LowerAll(subs[1..]);
    }
  }

  lemma {:induction false} LoweredTimes(u: Unicode, sub: Regexp, n: nat, text: seq<Rune>, i: nat, j: nat)
      returns (alike: seq<Rune>)
    requires Standard(u) && i <= j <= |text| && Times(u, sub, n, text, i, j)
    ensures Alike(u, alike, text) && Times(Unanchored(u), LowerFoldedLiterals(sub), n, alike, i, j)
    decreases sub, 1, n
  {
    alike := text;
    if n > 0 {
      var k :| i <= k <= j && Matches(u, sub, text, i, k) && Times(u, sub, n - 1, text, k, j);
      var first := LoweredMatches(u, sub, text, i, k);
      var rest := LoweredTimes(u, sub, n - 1, text, k, j);
      alike := Glue(u, text, first, rest, i, k, j);
      MatchMoves(u, LowerFoldedLiterals(sub), first, i, k, alike, i);
      TimesMove(u, LowerFoldedLiterals(sub), n - 1, rest, k, j, alike, k);
    }
  }

  // ---- regexTrigramQuery

  /** The contract of codesearch's RegexpQuery for one expression: every string the expression
      can match, anchors aside, satisfies the query. */
  ghost predicate Codesearch(u: Unicode, re: Regexp, q: Query) {
    forall m: seq<Rune> :: Matches(Unanchored(u), re, m, 0, |m|) ==> Satisfies(q, Encode(m))
  }

  predicate FitsOverlap(re: Regexp) {
    0 <= MaxMatchBytes(re) <= C.CHUNK_OVERLAP - UTF_MAX
  }

  /** The index query for an expression, as parts that must all hold; q is what codesearch gives
      for the rewritten expression. No parts: the index cannot narrow the search. */
  ghost function RegexTrigramQuery(re: Regexp, q: Query): seq<Fts> {
    var literal := Candidate(RequiredLiteral(re).text);
    var trigrams := if FitsOverlap(re) then FtsQuery(q, AsciiLower(literal)) else None;
    (if trigrams.Some? && trigrams.value.1 <= MAX_TRIGRAM_PHRASES then [trigrams.value.0] else []) +
    (if literal != [] then [Phrase(literal)] else [])
  }

  /** A chunk the index returns for a query. */
  ghost predicate ChunkMatches(u: Unicode, query: seq<Fts>, chunk: seq<Byte>) {
    exists text: seq<Rune> :: Encode(text) == chunk && forall k :: 0 <= k < |query| ==> Holds(u, query[k], text)
  }

  /** Some chunk of the text is returned. */
  ghost predicate Found(u: Unicode, query: seq<Fts>, text: seq<Rune>) {
    exists k :: 0 <= k < |T.Chunks(text)| && ChunkMatches(u, query, T.Chunks(text)[k])
  }

  lemma {:induction false} HoldsInWhole(u: Unicode, f: Fts, part: seq<Rune>, whole: seq<Rune>)
    requires Holds(u, f, part) && FoldedWithin(u, part, whole)
    ensures Holds(u, f, whole)
  {
    match f
    case Phrase(text) => FoldedShift(u, text, part, whole);
    case Group(anyOf, parts) =>
      if anyOf {
        var k :| 0 <= k < |parts| && Holds(u, parts[k], part);
        HoldsInWhole(u, parts[k], part, whole);
      } else {
        forall k | 0 <= k < |parts| {
          HoldsInWhole(u, parts[k], part, whole);
        }
      }
  }

  lemma FoldedInSlice(u: Unicode, part: seq<Rune>, text: seq<Rune>, k: nat, from: nat, to: nat)
    requires FoldedAt(u, part, text, k) && from <= k && k + |part| <= to <= |text|
    ensures FoldedWithin(u, part, text[from..to])
  {
    var slice := text[from..to];
    forall n | 0 <= n < |part|
      ensures u.indexFold(part[n]) == u.indexFold(slice[k - from + n])
    {
      assert slice[k - from + n] == text[k + n];
    }
    assert FoldedAt(u, part, slice, k - from);
  }

  lemma {:induction false} QueryWidens(u: Unicode, q: Query, literal: seq<Rune>, m: seq<Rune>)
    requires Standard(u) && Satisfies(q, Encode(m)) && FtsQuery(q, literal).Some?
    ensures Holds(u, FtsQuery(q, literal).value.0, m)
  {
    SatisfiedFolds(u, q, m);
    FtsQueryMeans(u, q, literal, m, false);
  }

  /** A match is alike to a string that satisfies the codesearch query. */
  lemma MatchSatisfies(u: Unicode, re: Regexp, q: Query, text: seq<Rune>, i: nat, j: nat) returns (m: seq<Rune>)
    requires Standard(u) && Codesearch(u, LowerFoldedLiterals(re), q)
    requires i <= j <= |text| && Matches(u, re, text, i, j)
    ensures Satisfies(q, Encode(m)) && FoldedAt(u, m, text, i) && |m| == j - i
  {
    var alike := LoweredMatches(u, re, text, i, j);
    m := alike[i..j];
    MatchMoves(u, LowerFoldedLiterals(re), alike, i, j, m, 0);
    assert forall k :: 0 <= k < |m| ==> m[k] == alike[i + k];
  }

  /** The trigram part holds in any text around the match. */
  lemma {:induction false} TrigramPartHolds(u: Unicode, re: Regexp, q: Query, text: seq<Rune>, i: nat, j: nat,
      literal: seq<Rune>, from: nat, to: nat)
    requires Standard(u) && Codesearch(u, LowerFoldedLiterals(re), q)
    requires from <= i <= j <= to <= |text| && Matches(u, re, text, i, j) && FtsQuery(q, literal).Some?
    ensures Holds(u, FtsQuery(q, literal).value.0, text[from..to])
  {
    var m := MatchSatisfies(u, re, q, text, i, j);
    QueryWidens(u, q, literal, m);
    FoldedInSlice(u, m, text, i, from, to);
    HoldsInWhole(u, FtsQuery(q, literal).value.0, m, text[from..to]);
  }

  lemma LiteralFolds(u: Unicode, required: Required, text: seq<Rune>, k: nat)
    requires Standard(u) && LiteralAt(u, required.text, required.folded, text, k)
    requires required.folded ==> AllAscii(required.text)
    ensures FoldedAt(u, required.text, text, k)
  {
    forall n | 0 <= n < |required.text|
      ensures u.indexFold(required.text[n]) == u.indexFold(text[k + n])
    {
      assert SameRune(u, required.folded, required.text[n], text[k + n]);
    }
  }

  // ---- How wide an occurrence of a case-insensitive literal can be

  /** The widest character (?i) takes for an ASCII one. */
  function Widest(r: Rune): Rune {
    if Lower(r) == 0x6B then KELVIN else if Lower(r) == 0x73 then LONG_S else r
  }

  function WidestText(text: seq<Rune>): (wide: seq<Rune>)
    ensures |wide| == |text| && forall k :: 0 <= k < |text| ==> wide[k] == Widest(text[k])
  {
    seq(|text|, k requires 0 <= k < |text| => Widest(text[k]))
  }

  function ButLast<T>(s: seq<T>): seq<T>
    requires s != []
  {
    s[..|s| - 1]
  }

  /** What a caller can check before a search: the trigram part fits a chunk, the literal is case
      sensitive, or at its widest the literal fits the chunk overlap but for its last character. */
  predicate Safe(re: Regexp) {
    var required := RequiredLiteral(re);
    var literal := Candidate(required.text);
    FitsOverlap(re) || !required.folded || literal == [] || |Encode(WidestText(ButLast(literal)))| <= C.CHUNK_OVERLAP
  }

  lemma {:induction false} NotWider(u: Unicode, want: seq<Rune>, have: seq<Rune>)
    requires Standard(u) && AllAscii(want) && |want| == |have|
    requires forall k :: 0 <= k < |want| ==> u.sameFold(want[k], have[k])
    ensures |Encode(have)| <= |Encode(WidestText(want))|
  {
    if want != [] {
      NotWider(u, want[1..], have[1..]);
      assert u.sameFold(want[0], have[0]);
      assert WidestText(want)[1..] == WidestText(want[1..]);
    }
  }

  lemma FoldedIsShort(u: Unicode, literal: seq<Rune>, text: seq<Rune>, k: nat)
    requires Standard(u) && AllAscii(literal) && LiteralAt(u, literal, true, text, k)
    requires literal != [] && |Encode(WidestText(ButLast(literal)))| <= C.CHUNK_OVERLAP
    ensures T.ShortSpan(text, k, k + |literal|)
  {
    var last := |literal| - 1;
    var have := text[k..k + last];
    forall n | 0 <= n < last
      ensures u.sameFold(ButLast(literal)[n], have[n])
    {
      assert SameRune(u, true, literal[n], text[k + n]);
    }
    NotWider(u, ButLast(literal), have);
    assert k + |literal| - 1 == k + last;
  }

  lemma {:induction false} ExactIsShort(u: Unicode, literal: seq<Rune>, text: seq<Rune>, k: nat)
    requires LiteralAt(u, literal, false, text, k) && |Encode(literal)| <= CANDIDATE_BYTES
    ensures T.ShortSpan(text, k, k + |literal|)
  {
    forall n | 0 <= n < |literal|
      ensures text[k..k + |literal|][n] == literal[n]
    {
      assert SameRune(u, false, literal[n], text[k + n]);
    }
    assert text[k..k + |literal|] == literal;
  }

  lemma CandidateAt(u: Unicode, wanted: seq<Rune>, start: seq<Rune>, fold: bool, text: seq<Rune>, k: nat)
    requires start <= wanted && LiteralAt(u, wanted, fold, text, k)
    ensures LiteralAt(u, start, fold, text, k) && (AllAscii(wanted) ==> AllAscii(start))
  {
    forall n | 0 <= n < |start|
      ensures SameRune(u, fold, start[n], text[k + n])
    {
      assert SameRune(u, fold, wanted[n], text[k + n]);
    }
  }

  lemma {:induction false} LiteralIsShort(u: Unicode, required: Required, literal: seq<Rune>, text: seq<Rune>, k: nat)
    requires Standard(u) && LiteralAt(u, required.text, required.folded, text, k)
    requires required.folded ==> AllAscii(required.text)
    requires literal <= required.text && |Encode(literal)| <= CANDIDATE_BYTES
    requires !required.folded || literal == [] || |Encode(WidestText(ButLast(literal)))| <= C.CHUNK_OVERLAP
    ensures T.ShortSpan(text, k, k + |literal|)
  {
    CandidateAt(u, required.text, literal, required.folded, text, k);
    if !required.folded {
      ExactIsShort(u, literal, text, k);
    } else if literal != [] {
      FoldedIsShort(u, literal, text, k);
    }
  }

  /** A chunk around the required literal, and around the whole match when the query has a
      trigram part, satisfies the whole query. */
  lemma {:induction false} QueryHolds(u: Unicode, re: Regexp, q: Query, text: seq<Rune>, i: nat, j: nat, k: nat,
      from: nat, to: nat, p: nat)
    requires Standard(u) && Codesearch(u, LowerFoldedLiterals(re), q)
    requires i <= j <= |text| && Matches(u, re, text, i, j) && from <= to <= |text|
    requires FitsOverlap(re) ==> from <= i && j <= to
    requires FoldedAt(u, Candidate(RequiredLiteral(re).text), text, k) && from <= k
    requires k + |Candidate(RequiredLiteral(re).text)| <= to
    requires p < |RegexTrigramQuery(re, q)|
    ensures Holds(u, RegexTrigramQuery(re, q)[p], text[from..to])
  {
    var literal := Candidate(RequiredLiteral(re).text);
    if RegexTrigramQuery(re, q)[p] == Phrase(literal) {
      FoldedInSlice(u, literal, text, k, from, to);
    } else {
      TrigramPartHolds(u, re, q, text, i, j, AsciiLower(literal), from, to);
    }
  }

  lemma {:induction false} ChunkFound(u: Unicode, query: seq<Fts>, text: seq<Rune>, n: nat, chunk: seq<Rune>)
    requires n < |T.Chunks(text)| && T.Chunks(text)[n] == Encode(chunk)
    requires forall p :: 0 <= p < |query| ==> Holds(u, query[p], chunk)
    ensures Found(u, query, text)
  {
    assert ChunkMatches(u, query, T.Chunks(text)[n]);
  }

  lemma RequiredAt(u: Unicode, re: Regexp, text: seq<Rune>, i: nat, j: nat) returns (k: nat)
    requires Standard(u) && i <= j <= |text| && Matches(u, re, text, i, j)
    ensures i <= k && k + |RequiredLiteral(re).text| <= j
    ensures LiteralAt(u, RequiredLiteral(re).text, RequiredLiteral(re).folded, text, k)
    ensures RequiredLiteral(re).folded ==> AllAscii(RequiredLiteral(re).text)
  {
    MatchContainsRequired(u, re, text, i, j);
    k :| i <= k && k + |RequiredLiteral(re).text| <= j && LiteralAt(u, RequiredLiteral(re).text, RequiredLiteral(re).folded, text, k);
  }

  lemma CandidateFolded(u: Unicode, required: Required, text: seq<Rune>, k: nat)
    requires Standard(u) && LiteralAt(u, required.text, required.folded, text, k)
    requires required.folded ==> AllAscii(required.text)
    ensures FoldedAt(u, Candidate(required.text), text, k) && |Candidate(required.text)| <= |required.text|
  {
    var literal := Candidate(required.text);
    CandidateAt(u, required.text, literal, required.folded, text, k);
    LiteralFolds(u, Required(literal, required.folded), text, k);
  }

  /** Where a match has the literal the index looks for, and characters a to b that a chunk must hold. */
  lemma Occurrence(u: Unicode, re: Regexp, text: seq<Rune>, i: nat, j: nat) returns (k: nat, a: nat, b: nat)
    requires Standard(u) && Safe(re)
    requires i <= j <= |text| && Matches(u, re, text, i, j)
    ensures var literal := Candidate(RequiredLiteral(re).text);
      FoldedAt(u, literal, text, k) && a <= k && k + |literal| <= b
    ensures FitsOverlap(re) ==> a == i && b == j
    ensures T.ShortSpan(text, a, b)
  {
    k := RequiredAt(u, re, text, i, j);
    CandidateFolded(u, RequiredLiteral(re), text, k);
    if FitsOverlap(re) {
      MatchIsShort(u, re, text, i, j);
      a, b := i, j;
    } else {
      LiteralIsShort(u, RequiredLiteral(re), Candidate(RequiredLiteral(re).text), text, k);
      a, b := k, k + |Candidate(RequiredLiteral(re).text)|;
    }
  }

  /** No match is lost: some single chunk of a text the expression matches satisfies the whole
      index query, its trigram part and its literal together. */
  lemma {:induction false} NarrowingKeepsMatches(u: Unicode, re: Regexp, q: Query, text: seq<Rune>, i: nat, j: nat)
    requires Standard(u) && Codesearch(u, LowerFoldedLiterals(re), q) && Safe(re)
    requires text != [] && i <= j <= |text| && Matches(u, re, text, i, j)
    ensures Found(u, RegexTrigramQuery(re, q), text)
  {
    var k, a, b := Occurrence(u, re, text, i, j);
    var n, from, to := T.RunesInOneChunk(text, a, b);
    var query := RegexTrigramQuery(re, q);
    forall p | 0 <= p < |query|
      ensures Holds(u, query[p], text[from..to])
    {
      QueryHolds(u, re, q, text, i, j, k, from, to, p);
    }
    ChunkFound(u, query, text, n, text[from..to]);
  }

  /** The same for an exact search, whose index query is the phrase of its candidate. */
  lemma ExactKeepsMatches(u: Unicode, wanted: seq<Rune>, text: seq<Rune>)
    requires Within(wanted, text) && Candidate(wanted) != []
    ensures Found(u, [Phrase(Candidate(wanted))], text)
  {
    var literal := Candidate(wanted);
    var k: nat :| OccursAt(wanted, text, k);
    SliceStart(text, k, |wanted|, literal);
    var n, from, to := T.RunesInOneChunk(text, k, k + |literal|);
    FoldedInSlice(u, literal, text, k, from, to);
    ChunkFound(u, [Phrase(literal)], text, n, text[from..to]);
  }

  lemma SliceStart(text: seq<Rune>, k: nat, length: nat, start: seq<Rune>)
    requires k + length <= |text| && start <= text[k..k + length]
    ensures |start| <= length && text[k..k + |start|] == start
    ensures forall n :: 0 <= n < |start| ==> text[k + n] == start[n]
  {
    assert text[k..k + |start|] == text[k..k + length][..|start|];
    assert forall n :: 0 <= n < |start| ==> text[k..k + |start|][n] == start[n];
  }

  // ---- When the index does lose a match

  lemma {:induction false} AsciiBytes(text: seq<Rune>)
    requires AllAscii(text)
    ensures |Encode(text)| == |text|
  {
    if text != [] {
      AsciiBytes(text[1..]);
    }
  }

  function Padding(first: Rune, length: nat): (padding: seq<Rune>)
    requires Ascii(first)
    ensures |padding| == length && AllAscii(padding)
    ensures forall k :: 0 <= k < length ==> Lower(padding[k]) != Lower(first)
  {
    seq(length, k => if Lower(first) == 0x61 then 0x62 else 0x61)
  }

  function Before(start: seq<Rune>): nat
    requires start != [] && |Encode(WidestText(ButLast(start)))| <= C.CHUNK_BYTES
  {
    C.CHUNK_BYTES - |Encode(WidestText(ButLast(start)))|
  }

  /** The start of a literal that is looked for, too wide for the overlap at its widest. */
  ghost predicate TooWide(start: seq<Rune>, literal: seq<Rune>) {
    && start != [] && start <= literal && AllAscii(literal)
    && C.CHUNK_OVERLAP < |Encode(WidestText(ButLast(start)))| <= C.CHUNK_BYTES
  }

  /** The start comes nowhere else in the literal. */
  ghost predicate OnceIn(start: seq<Rune>, literal: seq<Rune>) {
    forall y: nat {:trigger DifferAt(start, literal, y)} :: 0 < y && y + |start| <= |literal| ==>
      DifferAt(start, literal, y)
  }

  ghost predicate DifferAt(start: seq<Rune>, literal: seq<Rune>, y: nat) {
    exists n :: 0 <= n < |start| && y + n < |literal| && Lower(start[n]) != Lower(literal[y + n])
  }

  /** A text that matches a case-insensitive literal at its widest, its start across the end of the
      first chunk. */
  function Straddling(start: seq<Rune>, literal: seq<Rune>): seq<Rune>
    requires start != [] && start <= literal && AllAscii(literal)
    requires |Encode(WidestText(ButLast(start)))| <= C.CHUNK_BYTES
  {
    Padding(start[0], Before(start)) + WidestText(literal)
  }

  lemma StraddlingRunes(start: seq<Rune>, literal: seq<Rune>, k: nat)
    requires TooWide(start, literal)
    ensures var text, p := Straddling(start, literal), Before(start);
      && |text| == p + |literal|
      && (k < p ==> Ascii(text[k]) && Lower(text[k]) != Lower(start[0])) && (k < |literal| ==>
        text[p + k] == Widest(literal[k]))
  {
  }

  lemma {:induction false} StraddlingMatches(u: Unicode, start: seq<Rune>, literal: seq<Rune>)
    requires Standard(u) && TooWide(start, literal)
    ensures var text := Straddling(start, literal);
      text != [] && Matches(u, Literal(literal, true), text, Before(start), |text|)
  {
    var text, p := Straddling(start, literal), Before(start);
    StraddlingRunes(start, literal, 0);
    forall k: nat | k < |literal|
      ensures SameRune(u, true, literal[k], text[p + k])
    {
      StraddlingRunes(start, literal, k);
      WidestIsSame(u, literal[k]);
    }
  }

  lemma WidestIsSame(u: Unicode, r: Rune)
    requires Standard(u) && Ascii(r)
    ensures SameRune(u, true, r, Widest(r))
  {
  }

  lemma StraddlingBytes(start: seq<Rune>, literal: seq<Rune>)
    requires TooWide(start, literal)
    ensures var text, p := Straddling(start, literal), Before(start);
      && p + |start| <= |text| && |Encode(text[..p])| == p && |Encode(text[..p + |start| - 1])| == C.CHUNK_BYTES
      && C.CHUNK_BYTES < |Encode(text[..p + |start|])| <= |Encode(text)|
  {
    var text, p := Straddling(start, literal), Before(start);
    var padding, head := Padding(start[0], p), WidestText(ButLast(start));
    AsciiBytes(padding);
    assert text[..p] == padding;
    assert text[..p + |start| - 1] == padding + head;
    EncodeConcat(padding, head);
    T.RuneBytes(text, p + |start| - 1);
  }

  lemma {:induction false} LaterStarts(bytes: seq<Byte>, k: nat)
    requires C.ShortRuns(bytes) && 0 < k < |C.ChunkSpans(bytes)|
    requires C.ChunkSpans(bytes)[0].end >= C.CHUNK_BYTES
    ensures C.ChunkSpans(bytes)[k].start >= C.CHUNK_BYTES - C.CHUNK_OVERLAP
  {
    var spans := C.ChunkSpans(bytes);
    assert C.Follows(bytes, spans[k - 1], spans[k]);
    if k > 1 {
      LaterStarts(bytes, k - 1);
      assert C.Follows(bytes, spans[k - 2], spans[k - 1]);
    }
  }

  lemma NotFoldedAt(u: Unicode, part: seq<Rune>, text: seq<Rune>, y: nat, n: nat)
    requires n < |part| && y + n < |text| && u.indexFold(part[n]) != u.indexFold(text[y + n])
    ensures !FoldedAt(u, part, text, y)
  {
  }

  lemma NotInPadding(u: Unicode, start: seq<Rune>, literal: seq<Rune>, y: nat)
    requires Standard(u) && TooWide(start, literal) && y < Before(start)
    ensures !FoldedAt(u, start, Straddling(start, literal), y)
  {
    StraddlingRunes(start, literal, y);
    NotFoldedAt(u, start, Straddling(start, literal), y, 0);
  }

  lemma DifferWhere(start: seq<Rune>, literal: seq<Rune>, z: nat) returns (n: nat)
    requires OnceIn(start, literal) && 0 < z && z + |start| <= |literal|
    ensures n < |start| && Lower(start[n]) != Lower(literal[z + n])
  {
    assert DifferAt(start, literal, z);
    n :| 0 <= n < |start| && z + n < |literal| && Lower(start[n]) != Lower(literal[z + n]);
  }

  lemma RuneDiffers(u: Unicode, start: seq<Rune>, literal: seq<Rune>, z: nat, n: nat)
    requires Standard(u) && TooWide(start, literal) && n < |start| && z + n < |literal|
    requires Lower(start[n]) != Lower(literal[z + n])
    ensures var text, at := Straddling(start, literal), Before(start) + z;
      at + n < |text| && u.indexFold(start[n]) != u.indexFold(text[at + n])
  {
    StraddlingRunes(start, literal, z + n);
    WidestFolds(u, literal[z + n]);
    assert Ascii(start[n]);
  }

  lemma NotLater(u: Unicode, start: seq<Rune>, literal: seq<Rune>, z: nat)
    requires Standard(u) && TooWide(start, literal) && OnceIn(start, literal) && 0 < z
    ensures !FoldedAt(u, start, Straddling(start, literal), Before(start) + z)
  {
    if z + |start| <= |literal| {
      var n := DifferWhere(start, literal, z);
      RuneDiffers(u, start, literal, z, n);
      NotFoldedAt(u, start, Straddling(start, literal), Before(start) + z, n);
    } else {
      StraddlingRunes(start, literal, 0);
    }
  }

  /** Only the one occurrence is there. */
  lemma OnlyOccurrence(u: Unicode, start: seq<Rune>, literal: seq<Rune>, y: nat)
    requires Standard(u) && TooWide(start, literal) && OnceIn(start, literal)
    requires FoldedAt(u, start, Straddling(start, literal), y)
    ensures y == Before(start)
  {
    if y < Before(start) {
      NotInPadding(u, start, literal, y);
    } else if y > Before(start) {
      NotLater(u, start, literal, y - Before(start));
    }
  }

  lemma WidestFolds(u: Unicode, r: Rune)
    requires Standard(u) && Ascii(r)
    ensures u.indexFold(Widest(r)) == Lower(r)
  {
  }

  /** No chunk reaches from before the occurrence to its last character. */
  lemma NoChunkReaches(start: seq<Rune>, literal: seq<Rune>, k: nat)
    requires TooWide(start, literal)
    requires C.ShortRuns(Encode(Straddling(start, literal))) && k < |C.ChunkSpans(Encode(Straddling(start, literal)))|
    requires Before(start) + |start| <= |Straddling(start, literal)|
    ensures var text := Straddling(start, literal);
      var span := C.ChunkSpans(Encode(text))[k];
      span.start > Before(start) || span.end < |Encode(text[..Before(start) + |start|])|
  {
    var text := Straddling(start, literal);
    StraddlingBytes(start, literal);
    RuneBoundary(text, Before(start) + |start| - 1);
    if k > 0 {
      LaterStarts(Encode(text), k);
    }
  }

  lemma ChunkReach(text: seq<Rune>, p: nat, e: nat, k: nat) returns (from: nat, to: nat)
    requires C.ShortRuns(Encode(text)) && p <= |text| && e <= |text| && k < |T.Chunks(text)|
    requires C.ChunkSpans(Encode(text))[k].start > |Encode(text[..p])| ||
      C.ChunkSpans(Encode(text))[k].end < |Encode(text[..e])|
    ensures from <= to <= |text| && T.Chunks(text)[k] == Encode(text[from..to])
    ensures from > p || to < e
  {
    from, to := T.ChunkIsText(text, k);
    if from <= p {
      EncodeSplit(text, from, p);
      if e <= to {
        EncodeSplit(text, e, to);
      }
    }
  }

  lemma NoChunkHolds(u: Unicode, start: seq<Rune>, literal: seq<Rune>, k: nat)
    requires Standard(u) && TooWide(start, literal) && OnceIn(start, literal)
    requires k < |T.Chunks(Straddling(start, literal))|
    ensures !ChunkMatches(u, [Phrase(start)], T.Chunks(Straddling(start, literal))[k])
  {
    var text := Straddling(start, literal);
    C.EncodedShortRuns(text);
    StraddlingBytes(start, literal);
    NoChunkReaches(start, literal, k);
    var from, to := ChunkReach(text, Before(start), Before(start) + |start|, k);
    if ChunkMatches(u, [Phrase(start)], T.Chunks(text)[k]) {
      PhraseInChunk(u, start, text, from, to);
      OccurrenceReaches(u, start, literal, from, to);
    }
  }

  lemma OccurrenceReaches(u: Unicode, start: seq<Rune>, literal: seq<Rune>, from: nat, to: nat)
    requires Standard(u) && TooWide(start, literal) && OnceIn(start, literal)
    requires from <= to <= |Straddling(start, literal)| && FoldedWithin(u, start, Straddling(start, literal)[from..to])
    ensures from <= Before(start) && Before(start) + |start| <= to
  {
    var text := Straddling(start, literal);
    var x: nat :| FoldedAt(u, start, text[from..to], x);
    FoldedFromSlice(u, start, text, x, from, to);
    OnlyOccurrence(u, start, literal, from + x);
  }

  lemma PhraseInChunk(u: Unicode, literal: seq<Rune>, text: seq<Rune>, from: nat, to: nat)
    requires from <= to <= |text| && ChunkMatches(u, [Phrase(literal)], Encode(text[from..to]))
    ensures FoldedWithin(u, literal, text[from..to])
  {
    var query := [Phrase(literal)];
    var chunk: seq<Rune> :|
      Encode(chunk) == Encode(text[from..to]) && forall n :: 0 <= n < |query| ==> Holds(u, query[n], chunk);
    EncodeInjective(chunk, text[from..to]);
    assert Holds(u, query[0], chunk);
  }

  lemma FoldedFromSlice(u: Unicode, part: seq<Rune>, text: seq<Rune>, x: nat, from: nat, to: nat)
    requires from <= to <= |text| && FoldedAt(u, part, text[from..to], x)
    ensures FoldedAt(u, part, text, from + x) && from + x + |part| <= to
  {
    forall n | 0 <= n < |part|
      ensures u.indexFold(part[n]) == u.indexFold(text[from + x + n])
    {
      assert u.indexFold(part[n]) == u.indexFold(text[from..to][x + n]);
    }
  }

  lemma WidestIsSmall(literal: seq<Rune>)
    requires |literal| <= CANDIDATE_BYTES
    ensures |Encode(WidestText(literal))| <= C.CHUNK_BYTES
  {
    EncodeLength(WidestText(literal));
  }

  ghost predicate LosesNothing(u: Unicode, re: Regexp, q: Query) {
    forall text: seq<Rune>, i: nat, j: nat :: text != [] && i <= j <= |text| && Matches(u, re, text, i, j) ==>
      Found(u, RegexTrigramQuery(re, q), text)
  }

  /** An unsafe literal is looked for by its start alone. */
  lemma PhraseOnly(literal: seq<Rune>, q: Query)
    requires AllAscii(literal) && 3 <= |literal| && !Safe(Literal(literal, true))
    ensures RegexTrigramQuery(Literal(literal, true), q) == [Phrase(Candidate(literal))]
    ensures TooWide(Candidate(literal), literal)
  {
    var start := Candidate(literal);
    AsciiBytes(start);
    WidestIsSmall(ButLast(start));
  }

  lemma LiteralIsLost(u: Unicode, start: seq<Rune>, literal: seq<Rune>)
    requires Standard(u) && TooWide(start, literal) && OnceIn(start, literal)
    ensures !Found(u, [Phrase(start)], Straddling(start, literal))
  {
    var text := Straddling(start, literal);
    forall k | 0 <= k < |T.Chunks(text)|
      ensures !ChunkMatches(u, [Phrase(start)], T.Chunks(text)[k])
    {
      NoChunkHolds(u, start, literal, k);
    }
  }

  /** For a case-insensitive literal whose start, as far as the index looks for it, comes but once in
      it, Safe is exact: it fails just when some text loses its match. A literal of at most 512
      characters is looked for whole. */
  lemma LiteralNarrowingExact(u: Unicode, literal: seq<Rune>, q: Query)
    requires Standard(u) && AllAscii(literal) && 3 <= |literal| && OnceIn(Candidate(literal), literal)
    requires Codesearch(u, LowerFoldedLiterals(Literal(literal, true)), q)
    ensures LosesNothing(u, Literal(literal, true), q) <==> Safe(Literal(literal, true))
  {
    var re := Literal(literal, true);
    if Safe(re) {
      forall text: seq<Rune>, i: nat, j: nat | text != [] && i <= j <= |text| && Matches(u, re, text, i, j)
        ensures Found(u, RegexTrigramQuery(re, q), text)
      {
        NarrowingKeepsMatches(u, re, q, text, i, j);
      }
    } else {
      PhraseOnly(literal, q);
      StraddlingMatches(u, Candidate(literal), literal);
      LiteralIsLost(u, Candidate(literal), literal);
    }
  }

  /** A literal the index looks for whole. */
  lemma WholeCandidate(literal: seq<Rune>)
    requires AllAscii(literal) && 3 <= |literal| <= CANDIDATE_BYTES
    ensures Candidate(literal) == literal && OnceIn(Candidate(literal), literal)
  {
    AsciiBytes(literal);
  }

  lemma {:induction false} KelvinBytes(n: nat)
    ensures |Encode(WidestText(seq(n, k => 0x6B)))| == 3 * n
  {
    var wide := WidestText(seq(n, k => 0x6B));
    if n > 0 {
      KelvinBytes(n - 1);
      assert wide[1..] == WidestText(seq(n - 1, k => 0x6B));
      assert |EncodeRune(KELVIN)| == 3;
    }
  }

  /** A concrete expression that loses a match: (?i) and 343 letters k, in a text of Kelvin signs. */
  lemma KelvinRunIsLost(u: Unicode, q: Query)
    requires Standard(u)
    requires Codesearch(u, LowerFoldedLiterals(Literal(seq(343, k => 0x6B), true)), q)
    ensures !LosesNothing(u, Literal(seq(343, k => 0x6B), true), q)
  {
    var literal: seq<Rune> := seq(343, k => 0x6B);
    WholeCandidate(literal);
    KelvinBytes(342);
    assert ButLast(literal) == seq(342, k => 0x6B);
    LiteralNarrowingExact(u, literal, q);
  }
}
