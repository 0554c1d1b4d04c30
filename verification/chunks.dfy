/** internal/search/text.go: cutting a searchable text into overlapping index chunks. */
module Chunking {
  import opened Utf8

  const CHUNK_BYTES := 16 * 1024
  const CHUNK_OVERLAP := 1024

  datatype Span = Span(start: nat, end: nat)

  predicate StartNear(text: seq<Byte>, k: nat)
    requires k + UTF_MAX <= |text|
  {
    RuneStart(text[k]) || RuneStart(text[k + 1]) || RuneStart(text[k + 2]) || RuneStart(text[k + 3])
  }

  /** No run of more than three continuation bytes: true of all valid UTF-8. On longer runs the
      source's loops leave the string. */
  ghost predicate ShortRuns(text: seq<Byte>) {
    forall k: nat :: k + UTF_MAX <= |text| ==> StartNear(text, k)
  }

  lemma {:induction false} EncodedShortRuns(text: seq<Rune>)
    ensures ShortRuns(Encode(text))
  {
    if text != [] {
      EncodedShortRuns(text[1..]);
      EncodeLength(text[1..]);
      var bytes, width := Encode(text), |EncodeRune(text[0])|;
      forall k: nat | k + UTF_MAX <= |bytes|
        ensures StartNear(bytes, k)
      {
        if k >= width {
          assert StartNear(Encode(text[1..]), k - width);
        } else if k > 0 {
          assert bytes[width] == Encode(text[1..])[0];
        }
      }
    }
  }

  /** The last boundary at or before limit. */
  ghost function CutBefore(text: seq<Byte>, limit: nat): (cut: nat)
    requires ShortRuns(text) && UTF_MAX <= limit <= |text|
    ensures limit - 3 <= cut <= limit && Boundary(text, cut)
    ensures forall k :: cut < k <= limit ==> !Boundary(text, k)
  {
    assert StartNear(text, limit - 4);
    if Boundary(text, limit) then limit
    else if Boundary(text, limit - 1) then limit - 1
    else if Boundary(text, limit - 2) then limit - 2
    else
      assert limit < |text| && (limit + 1 <= |text| ==> StartNear(text, limit - 3));
      limit - 3
  }

  /** The first boundary at or after limit. */
  ghost function CutAfter(text: seq<Byte>, limit: nat): (cut: nat)
    requires ShortRuns(text) && limit + UTF_MAX <= |text|
    ensures limit <= cut <= limit + 3 && Boundary(text, cut)
    ensures forall k :: limit <= k < cut ==> !Boundary(text, k)
  {
    assert StartNear(text, limit);
    if Boundary(text, limit) then limit
    else if Boundary(text, limit + 1) then limit + 1
    else if Boundary(text, limit + 2) then limit + 2
    else limit + 3
  }

  ghost function ChunkEnd(text: seq<Byte>, start: nat): (end: nat)
    requires ShortRuns(text) && start < |text|
    ensures start < end <= |text| && end <= start + CHUNK_BYTES && Boundary(text, end)
    ensures end < |text| ==> start + CHUNK_BYTES - UTF_MAX < end
  {
    if start + CHUNK_BYTES < |text| then CutBefore(text, start + CHUNK_BYTES) else |text|
  }

  predicate Inside(text: seq<Byte>, spans: seq<Span>) {
    forall k :: 0 <= k < |spans| ==> spans[k].start <= spans[k].end <= |text|
  }

  /** One chunk after another: each as long as a rune start within CHUNK_BYTES allows, the next
      starting CHUNK_OVERLAP bytes before its end, moved forward to a rune start. */
  ghost predicate Chain(text: seq<Byte>, spans: seq<Span>)
    requires ShortRuns(text)
  {
    && Inside(text, spans)
    && (forall k :: 0 <= k < |spans| ==> spans[k].start < |text| && spans[k].end == ChunkEnd(text, spans[k].start))
    && (|spans| > 0 ==> spans[0].start == 0)
    && (forall k :: 0 < k < |spans| ==> Follows(text, spans[k - 1], spans[k]))
  }

  ghost predicate Follows(text: seq<Byte>, before: Span, after: Span)
    requires ShortRuns(text)
  {
    CHUNK_OVERLAP <= before.end < |text| && after.start == CutAfter(text, before.end - CHUNK_OVERLAP)
  }

  /** The spans Chunks cuts a text into. */
  ghost predicate IsChunking(text: seq<Byte>, spans: seq<Span>)
    requires ShortRuns(text)
  {
    && Chain(text, spans)
    && if text == [] then spans == [] else |spans| > 0 && spans[|spans| - 1].end == |text|
  }

  lemma ChainSnoc(text: seq<Byte>, spans: seq<Span>, next: Span)
    requires ShortRuns(text) && Chain(text, spans)
    requires next.start < |text| && next.end == ChunkEnd(text, next.start)
    requires if spans == [] then next.start == 0 else Follows(text, spans[|spans| - 1], next)
    ensures Chain(text, spans + [next])
  {
    var longer := spans + [next];
    assert forall k :: 0 <= k < |spans| ==> longer[k] == spans[k];
    assert longer[|spans|] == next;
  }

  lemma ChunkingExists(text: seq<Byte>) returns (spans: seq<Span>)
    requires ShortRuns(text)
    ensures IsChunking(text, spans)
  {
    spans := [];
    if text != [] {
      spans := [Span(0, ChunkEnd(text, 0))];
      while spans[|spans| - 1].end < |text|
        invariant |spans| > 0 && Chain(text, spans)
        decreases |text| - spans[|spans| - 1].end
      {
        var last := spans[|spans| - 1];
        var start := CutAfter(text, last.end - CHUNK_OVERLAP);
        ChainSnoc(text, spans, Span(start, ChunkEnd(text, start)));
        spans := spans + [Span(start, ChunkEnd(text, start))];
      }
    }
  }

  lemma {:induction false} ChainUnique(text: seq<Byte>, a: seq<Span>, b: seq<Span>, k: nat)
    requires ShortRuns(text) && Chain(text, a) && Chain(text, b)
    requires k < |a| && k < |b|
    ensures a[k] == b[k]
  {
    if k > 0 {
      ChainUnique(text, a, b, k - 1);
      assert Follows(text, a[k - 1], a[k]) && Follows(text, b[k - 1], b[k]);
    }
  }

  lemma ChunkingUnique(text: seq<Byte>, a: seq<Span>, b: seq<Span>)
    requires ShortRuns(text) && IsChunking(text, a) && IsChunking(text, b)
    ensures a == b
  {
    forall k | 0 <= k < |a| && k < |b| {
      ChainUnique(text, a, b, k);
    }
    assert |a| < |b| && a != [] ==> !Follows(text, b[|a| - 1], b[|a|]);
    assert |b| < |a| && b != [] ==> !Follows(text, a[|b| - 1], a[|b|]);
  }

  ghost function ChunkSpans(text: seq<Byte>): (spans: seq<Span>)
    requires ShortRuns(text)
    ensures IsChunking(text, spans)
  {
    assert exists spans :: IsChunking(text, spans) by {
      var spans := ChunkingExists(text);
    }
    var spans :| IsChunking(text, spans);
    spans
  }

  ghost function Cut(text: seq<Byte>, spans: seq<Span>): (chunks: seq<seq<Byte>>)
    requires Inside(text, spans)
  {
    seq(|spans|, k requires 0 <= k < |spans| => text[spans[k].start..spans[k].end])
  }

  lemma CutSnoc(text: seq<Byte>, spans: seq<Span>, next: Span)
    requires Inside(text, spans) && next.start <= next.end <= |text|
    ensures Inside(text, spans + [next])
    ensures Cut(text, spans + [next]) == Cut(text, spans) + [text[next.start..next.end]]
  {
    assert forall k :: 0 <= k < |spans| ==> (spans + [next])[k] == spans[k];
    assert (spans + [next])[|spans|] == next;
  }

  /** The chunk rows written for a searchable text. */
  ghost function ChunksOf(text: seq<Byte>): seq<seq<Byte>>
    requires ShortRuns(text)
  {
    Cut(text, ChunkSpans(text))
  }

  /** The loop that moves an end back to a rune start. */
  method BackUp(text: seq<Byte>, limit: nat) returns (end: nat)
    requires ShortRuns(text) && UTF_MAX <= limit <= |text|
    ensures end == CutBefore(text, limit)
  {
    end := limit;
    while end < |text| && !RuneStart(text[end])
      invariant CutBefore(text, limit) <= end <= limit
      decreases end
    {
      end := end - 1;
    }
  }

  /** The loop that moves a start forward to a rune start. */
  method MoveUp(text: seq<Byte>, limit: nat) returns (start: nat)
    requires ShortRuns(text) && limit + UTF_MAX <= |text|
    ensures start == CutAfter(text, limit)
  {
    start := limit;
    while start < |text| && !RuneStart(text[start])
      invariant limit <= start <= CutAfter(text, limit)
    {
      start := start + 1;
    }
  }

  /** The loop of Chunks terminates, and cuts the text at ChunkSpans. */
  method Chunks(text: seq<Byte>) returns (chunks: seq<seq<Byte>>)
    requires ShortRuns(text)
    ensures chunks == ChunksOf(text)
  {
    chunks := [];
    ghost var spans: seq<Span> := [];
    var start: nat := 0;
    while start < |text|
      invariant text != [] ==> start < |text|
      invariant spans == [] ==> start == 0
      invariant spans != [] ==> Follows(text, spans[|spans| - 1], Span(start, |text|))
      invariant Chain(text, spans)
      invariant chunks == Cut(text, spans)
      decreases |text| - start
    {
      var end := |text|;
      if start + CHUNK_BYTES < |text| {
        end := BackUp(text, start + CHUNK_BYTES);
      }
      ChainSnoc(text, spans, Span(start, end));
      CutSnoc(text, spans, Span(start, end));
      chunks := chunks + [text[start..end]];
      spans := spans + [Span(start, end)];
      if end == |text| {
        break;
      }
      start := MoveUp(text, end - (if CHUNK_OVERLAP < end - start then CHUNK_OVERLAP else end - start));
    }
    ChunkingUnique(text, spans, ChunkSpans(text));
  }

  /** A span of whole runes [a, b) whose last rune starts at last. */
  ghost predicate WholeRunes(text: seq<Byte>, a: nat, last: nat, b: nat) {
    && a <= last < b <= |text|
    && Boundary(text, a)
    && forall k :: last < k < b ==> !Boundary(text, k)
  }

  /** A span lies whole in one chunk when it has at most CHUNK_OVERLAP - UTF_MAX bytes; a span of
      whole runes also when those before its last rune fill at most the overlap. */
  lemma SpanInOneChunk(text: seq<Byte>, a: nat, last: nat, b: nat) returns (k: nat)
    requires ShortRuns(text) && a <= b <= |text| && text != []
    requires b - a <= CHUNK_OVERLAP - UTF_MAX || (WholeRunes(text, a, last, b) && last - a <= CHUNK_OVERLAP)
    ensures k < |ChunkSpans(text)|
    ensures ChunkSpans(text)[k].start <= a && b <= ChunkSpans(text)[k].end
  {
    var spans := ChunkSpans(text);
    k := 0;
    while k + 1 < |spans| && spans[k + 1].start <= a
      invariant k < |spans| && spans[k].start <= a
    {
      k := k + 1;
    }
    if k + 1 < |spans| {
      assert Follows(text, spans[k], spans[k + 1]);
    }
  }
}

/** Chunks of a text in characters. */
module TextChunks {
  import opened Utf8
  import opened Chunking

  ghost function Chunks(text: seq<Rune>): seq<seq<Byte>> {
    EncodedShortRuns(text);
    ChunksOf(Encode(text))
  }

  ghost predicate ShortSpan(text: seq<Rune>, a: nat, b: nat) {
    && a <= b <= |text|
    && (|Encode(text[a..b])| <= CHUNK_OVERLAP - UTF_MAX || (a < b && |Encode(text[a..b - 1])| <= CHUNK_OVERLAP))
  }

  lemma OffsetsOrdered(text: seq<Rune>, p: nat, q: nat)
    requires p <= |text| && q <= |text| && |Encode(text[..p])| <= |Encode(text[..q])|
    ensures p <= q
  {
    if q < p {
      EncodeSplit(text, q, p);
      EncodeLength(text[q..p]);
    }
  }

  lemma RuneBytes(text: seq<Rune>, k: nat)
    requires k < |text|
    ensures |Encode(text[..k])| < |Encode(text[..k + 1])| <= |Encode(text)|
    ensures Encode(text)[|Encode(text[..k])|..|Encode(text[..k + 1])|] == EncodeRune(text[k])
  {
    EncodeSplit(text, k, k + 1);
    assert text[k..k + 1] == [text[k]];
    assert Encode([text[k]]) == EncodeRune(text[k]) + Encode([]);
  }

  lemma OneRuneStart(bytes: seq<Byte>, from: nat, to: nat, r: Rune)
    requires from <= to <= |bytes| && bytes[from..to] == EncodeRune(r)
    ensures forall k :: from < k < to ==> !Boundary(bytes, k)
  {
    var rune := EncodeRune(r);
    forall k | from < k < to
      ensures !Boundary(bytes, k)
    {
      assert bytes[k] == bytes[from..to][k - from] == rune[k - from];
    }
  }

  lemma LastRune(text: seq<Rune>, a: nat, b: nat)
    requires a < b <= |text|
    ensures WholeRunes(Encode(text), |Encode(text[..a])|, |Encode(text[..b - 1])|, |Encode(text[..b])|)
  {
    assert |Encode(text[..a])| <= |Encode(text[..b - 1])| by { EncodeSplit(text, a, b - 1); }
    RuneBoundary(text, a);
    RuneBytes(text, b - 1);
    OneRuneStart(Encode(text), |Encode(text[..b - 1])|, |Encode(text[..b])|, text[b - 1]);
  }

  /** A chunk holds whole characters. */
  lemma ChunkIsText(text: seq<Rune>, k: nat) returns (p: nat, q: nat)
    requires ShortRuns(Encode(text)) && k < |ChunkSpans(Encode(text))|
    ensures p <= q <= |text| && Chunks(text)[k] == Encode(text[p..q])
    ensures |Encode(text[..p])| == ChunkSpans(Encode(text))[k].start
    ensures |Encode(text[..q])| == ChunkSpans(Encode(text))[k].end
  {
    var span := ChunkSpans(Encode(text))[k];
    EncodeLength(text);
    assert k > 0 ==> Follows(Encode(text), ChunkSpans(Encode(text))[k - 1], span);
    p := RuneAt(text, span.start);
    q := RuneAt(text, span.end);
    OffsetsOrdered(text, p, q);
    EncodeSplit(text, p, q);
  }

  /** Characters a up to b lie whole in one chunk when they are short, or short but for the last. */
  lemma RunesInOneChunk(text: seq<Rune>, a: nat, b: nat) returns (k: nat, p: nat, q: nat)
    requires text != [] && ShortSpan(text, a, b)
    ensures k < |Chunks(text)| && p <= a && b <= q <= |text| && Chunks(text)[k] == Encode(text[p..q])
  {
    var bytes := Encode(text);
    EncodedShortRuns(text);
    EncodeLength(text);
    EncodeSplit(text, a, b);
    var last := 0;
    if a < b {
      LastRune(text, a, b);
      EncodeSplit(text, a, b - 1);
      last := |Encode(text[..b - 1])|;
    }
    k := SpanInOneChunk(bytes, |Encode(text[..a])|, last, |Encode(text[..b])|);
    p, q := ChunkIsText(text, k);
    OffsetsOrdered(text, p, a);
    OffsetsOrdered(text, b, q);
  }
}
