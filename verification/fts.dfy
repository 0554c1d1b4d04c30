/** The index query built from a codesearch query (ftsQuery in internal/store/search.go), and
    what both mean. */
module TrigramQuery {
  import opened Utf8
  import opened Regex

  datatype Op = QAll | QNone | QAnd | QOr

  /** codesearch's index.Query: trigrams are three bytes each. */
  datatype Query = Query(op: Op, trigrams: seq<seq<Byte>>, subs: seq<Query>)

  /** An FTS5 expression over the trigram index. A group of one part has no operator, so anyOf is
      false for it; two expressions are then equal exactly when they are written alike. */
  datatype Fts = Phrase(text: seq<Rune>) | Group(anyOf: bool, parts: seq<Fts>)

  // ---- Meaning

  /** A byte string satisfies a codesearch query. */
  ghost predicate Satisfies(q: Query, bytes: seq<Byte>) {
    match q.op
    case QAll => true
    case QNone => false
    case QAnd => (forall k :: 0 <= k < |q.trigrams| ==>
      Within(q.trigrams[k], bytes)) && (forall k :: 0 <= k < |q.subs| ==> Satisfies(q.subs[k], bytes))
    case QOr => (exists k :: 0 <= k < |q.trigrams| && Within(q.trigrams[k], bytes)) || (exists k ::
      0 <= k < |q.subs| && Satisfies(q.subs[k], bytes))
  }

  ghost predicate FoldedAt(u: Unicode, part: seq<Rune>, whole: seq<Rune>, i: nat) {
    && i + |part| <= |whole|
    && forall k :: 0 <= k < |part| ==> u.indexFold(part[k]) == u.indexFold(whole[i + k])
  }

  /** The trigram phrase match: a substring up to the index's case fold. */
  ghost predicate FoldedWithin(u: Unicode, part: seq<Rune>, whole: seq<Rune>) {
    exists i: nat :: FoldedAt(u, part, whole, i)
  }

  ghost predicate Holds(u: Unicode, f: Fts, chunk: seq<Rune>) {
    match f
    case Phrase(text) => FoldedWithin(u, text, chunk)
    case Group(anyOf, parts) =>
      if anyOf then exists k :: 0 <= k < |parts| && Holds(u, parts[k], chunk)
      else forall k :: 0 <= k < |parts| ==> Holds(u, parts[k], chunk)
  }

  // ---- ftsQuery

  /** What the loops have added so far; a part already written is not added again. */
  datatype Terms = Terms(parts: seq<Fts>, phrases: nat) {
    function Add(part: Fts, count: nat): Terms {
      if part in parts then this else Terms(parts + [part], phrases + count)
    }
  }

  ghost predicate ThreeCharacters(trigram: seq<Byte>) {
    TextOf(trigram).Some? && |TextOf(trigram).value| == 3
  }

  /** A trigram the loop leaves out: it cannot be looked up, or the literal already requires it. */
  ghost predicate Skipped(trigram: seq<Byte>, literal: seq<Rune>) {
    !ThreeCharacters(trigram) || Within(AsciiLower(TextOf(trigram).value), literal)
  }

  ghost function TrigramTerms(q: Query, literal: seq<Rune>, k: nat, terms: Terms): Option<Terms>
    requires k <= |q.trigrams|
    decreases |q.trigrams| - k
  {
    if k == |q.trigrams| then Some(terms)
    else if Skipped(q.trigrams[k], literal) then
      if q.op == QOr then None else TrigramTerms(q, literal, k + 1, terms)
    else TrigramTerms(q, literal, k + 1, terms.Add(Phrase(AsciiLower(TextOf(q.trigrams[k]).value)), 1))
  }

  ghost function SubTerms(op: Op, subs: seq<Query>, literal: seq<Rune>, terms: Terms): Option<Terms>
    decreases subs, 0
  {
    if subs == [] then Some(terms)
    else match FtsQuery(subs[0], literal)
      case None => if op == QOr then None else SubTerms(op, subs[1..], literal, terms)
      case Some((part, count)) => SubTerms(op, subs[1..], literal, terms.Add(part, count))
  }

  /** ftsQuery: None where the source returns "", a query that narrows nothing. */
  ghost function FtsQuery(q: Query, literal: seq<Rune>): Option<(Fts, nat)>
    decreases q, 1
  {
    if q.op == QAll || q.op == QNone then None
    else match TrigramTerms(q, literal, 0, Terms([], 0))
      case None => None
      case Some(first) =>
        match SubTerms(q.op, q.subs, literal, first)
        case None => None
        case Some(terms) =>
          if terms.parts == [] then None
          else Some((Group(q.op == QOr && |terms.parts| > 1, terms.parts), terms.phrases))
  }

  // ---- What the index query asks for

  /** Some part holds, or without or: all parts hold. */
  ghost predicate Combined(u: Unicode, or: bool, parts: seq<Fts>, chunk: seq<Rune>) {
    if or then exists k :: 0 <= k < |parts| && Holds(u, parts[k], chunk)
    else forall k :: 0 <= k < |parts| ==> Holds(u, parts[k], chunk)
  }

  lemma CombinedSingle(u: Unicode, parts: seq<Fts>, chunk: seq<Rune>)
    requires |parts| == 1
    ensures Combined(u, true, parts, chunk) <==> Combined(u, false, parts, chunk)
  {
    assert Combined(u, true, parts, chunk) <==> Holds(u, parts[0], chunk);
  }

  predicate Join(or: bool, a: bool, b: bool) {
    if or then a || b else a && b
  }

  lemma {:induction false} CombinedAdd(u: Unicode, or: bool, terms: Terms, part: Fts, count: nat, chunk: seq<Rune>)
    ensures Combined(u, or, terms.Add(part, count).parts, chunk) <==>
      Join(or, Combined(u, or, terms.parts, chunk), Holds(u, part, chunk))
  {
    var parts := terms.Add(part, count).parts;
    if part in terms.parts {
      var k :| 0 <= k < |terms.parts| && terms.parts[k] == part;
    } else {
      assert forall k :: 0 <= k < |terms.parts| ==> parts[k] == terms.parts[k];
      assert parts[|terms.parts|] == part;
    }
  }

  /** The trigram in the index's terms: its characters, up to case. One that is not three whole
      characters cannot be asked for. */
  ghost predicate TrigramFolded(u: Unicode, trigram: seq<Byte>, chunk: seq<Rune>) {
    ThreeCharacters(trigram) ==> FoldedWithin(u, TextOf(trigram).value, chunk)
  }

  ghost predicate TrigramsFolded(u: Unicode, q: Query, k: nat, chunk: seq<Rune>)
    requires k <= |q.trigrams|
    decreases |q.trigrams| - k
  {
    if k == |q.trigrams| then q.op != QOr
    else Join(q.op == QOr, TrigramFolded(u, q.trigrams[k], chunk), TrigramsFolded(u, q, k + 1, chunk))
  }

  ghost predicate SubsFolded(u: Unicode, op: Op, subs: seq<Query>, chunk: seq<Rune>)
    decreases subs, 0
  {
    if subs == [] then op != QOr
    else Join(op == QOr, FoldSatisfies(u, subs[0], chunk), SubsFolded(u, op, subs[1..], chunk))
  }

  /** The codesearch query read on characters and up to case, as the index reads it. */
  ghost predicate FoldSatisfies(u: Unicode, q: Query, chunk: seq<Rune>)
    decreases q, 1
  {
    match q.op
    case QAll => true
    case QNone => false
    case _ => Join(q.op == QOr, TrigramsFolded(u, q, 0, chunk), SubsFolded(u, q.op, q.subs, chunk))
  }

  lemma FoldedShift(u: Unicode, part: seq<Rune>, middle: seq<Rune>, whole: seq<Rune>)
    requires FoldedWithin(u, part, middle) && FoldedWithin(u, middle, whole)
    ensures FoldedWithin(u, part, whole)
  {
    var i: nat :| FoldedAt(u, part, middle, i);
    var j: nat :| FoldedAt(u, middle, whole, j);
    forall k | 0 <= k < |part|
      ensures u.indexFold(part[k]) == u.indexFold(whole[j + i + k])
    {
      assert u.indexFold(middle[i + k]) == u.indexFold(whole[j + (i + k)]);
    }
    assert FoldedAt(u, part, whole, j + i);
  }

  lemma WithinFolded(u: Unicode, part: seq<Rune>, whole: seq<Rune>)
    requires Within(part, whole)
    ensures FoldedWithin(u, part, whole)
  {
    var i: nat :| OccursAt(part, whole, i);
    assert forall k :: 0 <= k < |part| ==> whole[i..i + |part|][k] == part[k];
    assert FoldedAt(u, part, whole, i);
  }

  lemma LowerFolds(u: Unicode, text: seq<Rune>, chunk: seq<Rune>)
    requires Standard(u)
    ensures FoldedWithin(u, AsciiLower(text), chunk) <==> FoldedWithin(u, text, chunk)
  {
    assert forall k :: 0 <= k < |text| ==> u.indexFold(Lower(text[k])) == u.indexFold(text[k]);
    forall i: nat
      ensures FoldedAt(u, AsciiLower(text), chunk, i) <==> FoldedAt(u, text, chunk, i)
    {
    }
  }

  lemma SkippedIsRequired(u: Unicode, trigram: seq<Byte>, literal: seq<Rune>, chunk: seq<Rune>)
    requires Standard(u) && Skipped(trigram, literal) && FoldedWithin(u, literal, chunk)
    ensures TrigramFolded(u, trigram, chunk)
  {
    if ThreeCharacters(trigram) {
      var text := TextOf(trigram).value;
      WithinFolded(u, AsciiLower(text), literal);
      FoldedShift(u, AsciiLower(text), literal, chunk);
      LowerFolds(u, text, chunk);
    }
  }

  /** The conditions under which nothing is lost: no node matches nothing or is empty, and every
      trigram can be looked up. */
  ghost predicate Regular(q: Query) {
    && q.op != QNone
    && (q.op == QAll || q.trigrams != [] || q.subs != [])
    && (forall k :: 0 <= k < |q.trigrams| ==> ThreeCharacters(q.trigrams[k]))
    && (forall k :: 0 <= k < |q.subs| ==> Regular(q.subs[k]))
  }

  lemma {:induction false} TrigramTermsMean(u: Unicode, q: Query, literal: seq<Rune>, k: nat, terms: Terms,
      chunk: seq<Rune>, exact: bool)
    requires Standard(u) && k <= |q.trigrams| && (q.op == QAnd || q.op == QOr)
    requires exact ==> Regular(q) && FoldedWithin(u, literal, chunk)
    ensures var or := q.op == QOr;
      match TrigramTerms(q, literal, k, terms)
      case None => or && (exact ==> TrigramsFolded(u, q, k, chunk))
      case Some(result) =>
        && (or && (terms.parts != [] || k < |q.trigrams|) ==> result.parts != [])
        && (Join(or, Combined(u, or, terms.parts, chunk), TrigramsFolded(u, q, k, chunk)) ==>
          Combined(u, or, result.parts, chunk))
        && (exact && Combined(u, or, result.parts, chunk) ==>
          Join(or, Combined(u, or, terms.parts, chunk), TrigramsFolded(u, q, k, chunk)))
    decreases |q.trigrams| - k
  {
    if k < |q.trigrams| {
      var trigram := q.trigrams[k];
      if Skipped(trigram, literal) {
        if exact {
          SkippedIsRequired(u, trigram, literal, chunk);
        }
        if q.op == QAnd {
          TrigramTermsMean(u, q, literal, k + 1, terms, chunk, exact);
        }
      } else {
        var part := Phrase(AsciiLower(TextOf(trigram).value));
        LowerFolds(u, TextOf(trigram).value, chunk);
        CombinedAdd(u, q.op == QOr, terms, part, 1, chunk);
        TrigramTermsMean(u, q, literal, k + 1, terms.Add(part, 1), chunk, exact);
      }
    }
  }

  lemma {:induction false} SubTermsMean(u: Unicode, op: Op, subs: seq<Query>, literal: seq<Rune>, terms: Terms,
      chunk: seq<Rune>, exact: bool)
    requires Standard(u) && (op == QAnd || op == QOr)
    requires exact ==> FoldedWithin(u, literal, chunk) && forall k :: 0 <= k < |subs| ==> Regular(subs[k])
    ensures var or := op == QOr;
      match SubTerms(op, subs, literal, terms)
      case None => or && (exact ==> SubsFolded(u, op, subs, chunk))
      case Some(result) =>
        && (or && (terms.parts != [] || subs != []) ==> result.parts != [])
        && (Join(or, Combined(u, or, terms.parts, chunk), SubsFolded(u, op, subs, chunk)) ==>
          Combined(u, or, result.parts, chunk))
        && (exact && Combined(u, or, result.parts, chunk) ==>
          Join(or, Combined(u, or, terms.parts, chunk), SubsFolded(u, op, subs, chunk)))
    decreases subs, 0
  {
    if subs != [] {
      FtsQueryMeans(u, subs[0], literal, chunk, exact);
      match FtsQuery(subs[0], literal)
      case None =>
        if op == QAnd {
          SubTermsMean(u, op, subs[1..], literal, terms, chunk, exact);
        }
      case Some((part, count)) =>
        CombinedAdd(u, op == QOr, terms, part, count, chunk);
        SubTermsMean(u, op, subs[1..], literal, terms.Add(part, count), chunk, exact);
    }
  }

  /** ftsQuery only widens the codesearch query; where the literal is found anyway and the query
      is regular, it asks for exactly as much. */
  lemma {:induction false} FtsQueryMeans(u: Unicode, q: Query, literal: seq<Rune>, chunk: seq<Rune>, exact: bool)
    requires Standard(u)
    requires exact ==> Regular(q) && FoldedWithin(u, literal, chunk)
    ensures match FtsQuery(q, literal)
      case None => exact ==> FoldSatisfies(u, q, chunk)
      case Some((f, _)) =>
        && (FoldSatisfies(u, q, chunk) ==> Holds(u, f, chunk))
        && (exact && Holds(u, f, chunk) ==> FoldSatisfies(u, q, chunk))
    decreases q, 1
  {
    if q.op == QAnd || q.op == QOr {
      var none := Terms([], 0);
      TrigramTermsMean(u, q, literal, 0, none, chunk, exact);
      match TrigramTerms(q, literal, 0, none)
      case None =>
      case Some(first) =>
        SubTermsMean(u, q.op, q.subs, literal, first, chunk, exact);
        match SubTerms(q.op, q.subs, literal, first)
        case None =>
        case Some(terms) =>
          if terms.parts != [] {
            var or := q.op == QOr;
            if |terms.parts| == 1 {
              CombinedSingle(u, terms.parts, chunk);
            }
            assert Holds(u, Group(or && |terms.parts| > 1, terms.parts), chunk) <==>
              Combined(u, or, terms.parts, chunk);
          }
    }
  }

  // ---- Bytes to characters

  lemma {:induction false} SubsSatisfied(u: Unicode, op: Op, subs: seq<Query>, chunk: seq<Rune>)
    requires op == QAnd || op == QOr
    requires if op == QOr then exists k :: 0 <= k < |subs| && Satisfies(subs[k], Encode(chunk))
             else forall k :: 0 <= k < |subs| ==> Satisfies(subs[k], Encode(chunk))
    ensures SubsFolded(u, op, subs, chunk)
    decreases subs, 0
  {
    if subs != [] {
      if Satisfies(subs[0], Encode(chunk)) {
        SatisfiedFolds(u, subs[0], chunk);
      }
      if op == QAnd || !Satisfies(subs[0], Encode(chunk)) {
        if op == QOr {
          var k :| 0 <= k < |subs| && Satisfies(subs[k], Encode(chunk));
          assert subs[1..][k - 1] == subs[k];
        }
        SubsSatisfied(u, op, subs[1..], chunk);
      }
    }
  }

  lemma {:induction false} TrigramsSatisfied(u: Unicode, q: Query, k: nat, chunk: seq<Rune>)
    requires k <= |q.trigrams|
    requires if q.op == QOr then exists n :: k <= n < |q.trigrams| && Within(q.trigrams[n], Encode(chunk))
             else forall n :: k <= n < |q.trigrams| ==> Within(q.trigrams[n], Encode(chunk))
    ensures TrigramsFolded(u, q, k, chunk)
    decreases |q.trigrams| - k
  {
    if k < |q.trigrams| {
      var trigram := q.trigrams[k];
      if Within(trigram, Encode(chunk)) && ThreeCharacters(trigram) {
        OccursAsRunes(TextOf(trigram).value, chunk);
        WithinFolded(u, TextOf(trigram).value, chunk);
      }
      if q.op != QOr || !Within(trigram, Encode(chunk)) {
        TrigramsSatisfied(u, q, k + 1, chunk);
      }
    }
  }

  /** A text whose bytes satisfy the codesearch query satisfies it on characters. */
  lemma {:induction false} SatisfiedFolds(u: Unicode, q: Query, chunk: seq<Rune>)
    requires Satisfies(q, Encode(chunk))
    ensures FoldSatisfies(u, q, chunk)
    decreases q, 1
  {
    if q.op == QAnd || (q.op == QOr && exists k :: 0 <= k < |q.trigrams| && Within(q.trigrams[k], Encode(chunk))) {
      TrigramsSatisfied(u, q, 0, chunk);
    }
    if q.op == QAnd || (q.op == QOr && exists k :: 0 <= k < |q.subs| && Satisfies(q.subs[k], Encode(chunk))) {
      SubsSatisfied(u, q.op, q.subs, chunk);
    }
  }
}
