/** Go's regexp/syntax tree and what it matches, with the two measures internal/store/search.go
    takes of an expression: the most bytes a match can span, and a text every match contains. */
module Regex {
  import opened Utf8

  datatype AnchorKind = BeginLine | EndLine | BeginText | EndText | WordBoundary | NoWordBoundary

  datatype Regexp =
    | NoMatch
    | EmptyMatch
    | Literal(runes: seq<Rune>, foldCase: bool)
    | CharClass(ranges: seq<(Rune, Rune)>)
    | AnyCharNotNL
    | AnyChar
    | Anchor(kind: AnchorKind)
    | Capture(sub: Regexp)
    | Star(sub: Regexp)
    | Plus(sub: Regexp)
    | Quest(sub: Regexp)
    | Repeat(sub: Regexp, min: nat, max: int)  // max < 0: no limit
    | Concat(subs: seq<Regexp>)
    | Alternate(subs: seq<Regexp>)

  /** What the expression engine and the index take from Unicode: which characters (?i) treats
      as one, how the trigram index folds case, and where an anchor holds. */
  datatype Unicode = Unicode(
    sameFold: (Rune, Rune) -> bool,
    indexFold: Rune -> Rune,
    anchor: (AnchorKind, seq<Rune>, int) -> bool)

  const KELVIN: Rune := 0x212A
  const LONG_S: Rune := 0x17F
  const NEWLINE: Rune := 0x0A

  predicate Ascii(r: Rune) {
    r < RUNE_SELF
  }

  function Lower(r: Rune): Rune {
    if 0x41 <= r <= 0x5A then r + 0x20 else r
  }

  function AsciiLower(text: seq<Rune>): (lower: seq<Rune>)
    ensures |lower| == |text| && forall k :: 0 <= k < |text| ==> lower[k] == Lower(text[k])
  {
    seq(|text|, k requires 0 <= k < |text| => Lower(text[k]))
  }

  /** The facts about ASCII the source relies on: (?i) adds only the other case, the Kelvin sign
      for k and the long s for s, and the index folds exactly those together. */
  ghost predicate Standard(u: Unicode) {
    && (forall r: Rune, s: Rune :: Ascii(r) ==>
          (u.sameFold(r, s) <==>
            ((Ascii(s) && Lower(s) == Lower(r)) || (Lower(r) == 0x6B && s == KELVIN) || (Lower(r) == 0x73 && s == LONG_S))))
    && (forall r: Rune :: Ascii(r) ==> u.indexFold(r) == Lower(r))
    && u.indexFold(KELVIN) == 0x6B && u.indexFold(LONG_S) == 0x73
  }

  /** The same reading of characters with every anchor allowed everywhere. */
  ghost function Unanchored(u: Unicode): Unicode {
    u.(anchor := (kind, text, at) => true)
  }

  ghost predicate SameRune(u: Unicode, fold: bool, want: Rune, have: Rune) {
    if fold then u.sameFold(want, have) else want == have
  }

  ghost predicate LiteralAt(u: Unicode, runes: seq<Rune>, fold: bool, text: seq<Rune>, i: nat) {
    && i + |runes| <= |text|
    && forall k :: 0 <= k < |runes| ==> SameRune(u, fold, runes[k], text[i + k])
  }

  ghost predicate InRanges(ranges: seq<(Rune, Rune)>, r: Rune) {
    exists k :: 0 <= k < |ranges| && ranges[k].0 <= r <= ranges[k].1
  }

  /** The expression matches the characters from i up to j. */
  ghost predicate Matches(u: Unicode, re: Regexp, text: seq<Rune>, i: nat, j: nat)
    requires i <= j <= |text|
    decreases re, 0, 0
  {
    match re
    case NoMatch => false
    case EmptyMatch => i == j
    case Literal(runes, fold) => j == i + |runes| && LiteralAt(u, runes, fold, text, i)
    case CharClass(ranges) => j == i + 1 && InRanges(ranges, text[i])
    case AnyCharNotNL => j == i + 1 && text[i] != NEWLINE
    case AnyChar => j == i + 1
    case Anchor(kind) => i == j && u.anchor(kind, text, i)
    case Capture(sub) => Matches(u, sub, text, i, j)
    case Star(sub) => exists n: nat :: Times(u, sub, n, text, i, j)
    case Plus(sub) => exists n: nat :: n > 0 && Times(u, sub, n, text, i, j)
    case Quest(sub) => i == j || Matches(u, sub, text, i, j)
    case Repeat(sub, min, max) => exists n: nat :: min <= n && (max < 0 || n <= max) && Times(u, sub, n, text, i, j)
    case Concat(subs) => InOrder(u, subs, text, i, j)
    case Alternate(subs) => exists k :: 0 <= k < |subs| && Matches(u, subs[k], text, i, j)
  }

  ghost predicate InOrder(u: Unicode, subs: seq<Regexp>, text: seq<Rune>, i: nat, j: nat)
    requires i <= j <= |text|
    decreases subs, 0, 0
  {
    if subs == [] then i == j
    else exists k :: i <= k <= j && Matches(u, subs[0], text, i, k) && InOrder(u, subs[1..], text, k, j)
  }

  ghost predicate Times(u: Unicode, sub: Regexp, n: nat, text: seq<Rune>, i: nat, j: nat)
    requires i <= j <= |text|
    decreases sub, 1, n
  {
    if n == 0 then i == j
    else exists k :: i <= k <= j && Matches(u, sub, text, i, k) && Times(u, sub, n - 1, text, k, j)
  }

  // ---- The most bytes one match can span

  /** maxMatchBytes: -1 when there is no limit. */
  function MaxMatchBytes(re: Regexp): (longest: int)
    ensures longest >= -1
  {
    match re
    case NoMatch | EmptyMatch | Anchor(_) => 0
    case Literal(runes, _) => |runes| * UTF_MAX
    case CharClass(_) | AnyChar | AnyCharNotNL => UTF_MAX
    case Capture(sub) => MaxMatchBytes(sub)
    case Quest(sub) => MaxMatchBytes(sub)
    case Repeat(sub, _, max) =>
      var longest := MaxMatchBytes(sub);
      if max >= 0 && longest >= 0 then Product(longest, max) else -1
    case Concat(subs) => TotalBytes(subs)
    case Alternate(subs) => WidestBytes(subs)
    case Star(_) | Plus(_) => -1
  }

  function Product(longest: nat, times: nat): nat {
    longest * times
  }

  function TotalBytes(subs: seq<Regexp>): (total: int)
    ensures total >= -1
  {
    if subs == [] then 0
    else
      var longest, rest := MaxMatchBytes(subs[0]), TotalBytes(subs[1..]);
      if longest < 0 || rest < 0 then -1 else longest + rest
  }

  function WidestBytes(subs: seq<Regexp>): (widest: int)
    ensures widest >= -1
  {
    if subs == [] then 0
    else
      var longest, rest := MaxMatchBytes(subs[0]), WidestBytes(subs[1..]);
      if longest < 0 || rest < 0 then -1 else if longest > rest then longest else rest
  }

  ghost function Bytes(text: seq<Rune>, i: nat, j: nat): nat
    requires i <= j <= |text|
  {
    |Encode(text[i..j])|
  }

  lemma BytesAdd(text: seq<Rune>, i: nat, k: nat, j: nat)
    requires i <= k <= j <= |text|
    ensures Bytes(text, i, j) == Bytes(text, i, k) + Bytes(text, k, j)
  {
    assert text[i..j] == text[i..k] + text[k..j];
    EncodeConcat(text[i..k], text[k..j]);
  }

  /** No match is longer than maxMatchBytes says. */
  lemma {:induction false} MatchIsShort(u: Unicode, re: Regexp, text: seq<Rune>, i: nat, j: nat)
    requires i <= j <= |text| && Matches(u, re, text, i, j) && MaxMatchBytes(re) >= 0
    ensures Bytes(text, i, j) <= MaxMatchBytes(re)
    decreases re, 0, 0
  {
    EncodeLength(text[i..j]);
    match re
    case Capture(sub) => MatchIsShort(u, sub, text, i, j);
    case Quest(sub) =>
      if i != j {
        MatchIsShort(u, sub, text, i, j);
      }
    case Repeat(sub, _, max) =>
      var n: nat :| n <= max && Times(u, sub, n, text, i, j);
      TimesAreShort(u, sub, n, text, i, j);
      assert Product(MaxMatchBytes(sub), n) <= Product(MaxMatchBytes(sub), max) by {
        ProductGrows(MaxMatchBytes(sub), n, max);
      }
    case Concat(subs) => InOrderIsShort(u, subs, text, i, j);
    case Alternate(subs) =>
      var k :| 0 <= k < |subs| && Matches(u, subs[k], text, i, j);
      WidestCovers(subs, k);
      MatchIsShort(u, subs[k], text, i, j);
    case _ =>
  }

  lemma ProductGrows(longest: nat, n: nat, max: nat)
    requires n <= max
    ensures Product(longest, n) <= Product(longest, max)
  {
    assert longest * max == longest * n + longest * (max - n);
  }

  lemma {:induction false} WidestCovers(subs: seq<Regexp>, k: nat)
    requires k < |subs| && WidestBytes(subs) >= 0
    ensures 0 <= MaxMatchBytes(subs[k]) <= WidestBytes(subs)
  {
    if k > 0 {
      WidestCovers(subs[1..], k - 1);
    }
  }

  lemma {:induction false} InOrderIsShort(u: Unicode, subs: seq<Regexp>, text: seq<Rune>, i: nat, j: nat)
    requires i <= j <= |text| && InOrder(u, subs, text, i, j) && TotalBytes(subs) >= 0
    ensures Bytes(text, i, j) <= TotalBytes(subs)
    decreases subs, 0, 0
  {
    if subs != [] {
      var k :| i <= k <= j && Matches(u, subs[0], text, i, k) && InOrder(u, subs[1..], text, k, j);
      MatchIsShort(u, subs[0], text, i, k);
      InOrderIsShort(u, subs[1..], text, k, j);
      BytesAdd(text, i, k, j);
    }
  }

  lemma {:induction false} TimesAreShort(u: Unicode, sub: Regexp, n: nat, text: seq<Rune>, i: nat, j: nat)
    requires i <= j <= |text| && Times(u, sub, n, text, i, j) && MaxMatchBytes(sub) >= 0
    ensures Bytes(text, i, j) <= Product(MaxMatchBytes(sub), n)
    decreases sub, 1, n
  {
    if n > 0 {
      var k :| i <= k <= j && Matches(u, sub, text, i, k) && Times(u, sub, n - 1, text, k, j);
      MatchIsShort(u, sub, text, i, k);
      TimesAreShort(u, sub, n - 1, text, k, j);
      BytesAdd(text, i, k, j);
      assert MaxMatchBytes(sub) * n == MaxMatchBytes(sub) * (n - 1) + MaxMatchBytes(sub);
    }
  }

  // ---- The longest text every match contains

  /** A required text, and whether the literal it came from ignores case. The source keeps only
      the text. */
  datatype Required = Required(text: seq<Rune>, folded: bool)

  const NOTHING := Required([], false)

  predicate AllAscii(runes: seq<Rune>) {
    forall k :: 0 <= k < |runes| ==> Ascii(runes[k])
  }

  /** requiredLiteral: a case-insensitive literal qualifies only when it is ASCII. */
  function RequiredLiteral(re: Regexp): Required {
    match re
    case Literal(runes, fold) => if fold && !AllAscii(runes) then NOTHING else Required(runes, fold)
    case Capture(sub) => RequiredLiteral(sub)
    case Plus(sub) => RequiredLiteral(sub)
    case Repeat(sub, min, _) => if min > 0 then RequiredLiteral(sub) else NOTHING
    case Concat(subs) => LongestRequired(subs, NOTHING)
    case _ => NOTHING
  }

  /** The loop over a concatenation: the first of the longest texts. */
  function LongestRequired(subs: seq<Regexp>, longest: Required): Required {
    if subs == [] then longest
    else
      var literal := RequiredLiteral(subs[0]);
      LongestRequired(subs[1..], if |literal.text| > |longest.text| then literal else longest)
  }

  ghost predicate OccursBetween(u: Unicode, required: Required, text: seq<Rune>, i: nat, j: nat) {
    exists k: nat :: i <= k && k + |required.text| <= j && LiteralAt(u, required.text, required.folded, text, k)
  }

  /** Every match contains the required literal, character for character or up to (?i). */
  lemma {:induction false} MatchContainsRequired(u: Unicode, re: Regexp, text: seq<Rune>, i: nat, j: nat)
    requires i <= j <= |text| && Matches(u, re, text, i, j)
    ensures OccursBetween(u, RequiredLiteral(re), text, i, j)
    ensures RequiredLiteral(re).folded ==> AllAscii(RequiredLiteral(re).text)
    decreases re, 0, 0
  {
    assert LiteralAt(u, NOTHING.text, NOTHING.folded, text, i);
    match re
    case Capture(sub) => MatchContainsRequired(u, sub, text, i, j);
    case Plus(sub) =>
      var n: nat :| n > 0 && Times(u, sub, n, text, i, j);
      FirstContainsRequired(u, sub, n, text, i, j);
    case Repeat(sub, min, max) =>
      if min > 0 {
        var n: nat :| min <= n && Times(u, sub, n, text, i, j);
        FirstContainsRequired(u, sub, n, text, i, j);
      }
    case Concat(subs) => InOrderContainsRequired(u, subs, NOTHING, text, i, i, j);
    case _ =>
  }

  lemma {:induction false} FirstContainsRequired(u: Unicode, sub: Regexp, n: nat, text: seq<Rune>, i: nat, j: nat)
    requires i <= j <= |text| && n > 0 && Times(u, sub, n, text, i, j)
    ensures OccursBetween(u, RequiredLiteral(sub), text, i, j)
    ensures RequiredLiteral(sub).folded ==> AllAscii(RequiredLiteral(sub).text)
    decreases sub, 1, n
  {
    var k :| i <= k <= j && Matches(u, sub, text, i, k) && Times(u, sub, n - 1, text, k, j);
    MatchContainsRequired(u, sub, text, i, k);
  }

  lemma {:induction false} InOrderContainsRequired(u: Unicode, subs: seq<Regexp>, longest: Required, text: seq<Rune>,
      from: nat, i: nat, j: nat)
    requires from <= i <= j <= |text| && InOrder(u, subs, text, i, j)
    requires OccursBetween(u, longest, text, from, j) && (longest.folded ==> AllAscii(longest.text))
    ensures OccursBetween(u, LongestRequired(subs, longest), text, from, j)
    ensures LongestRequired(subs, longest).folded ==> AllAscii(LongestRequired(subs, longest).text)
    decreases subs, 0, 0
  {
    if subs != [] {
      var k :| i <= k <= j && Matches(u, subs[0], text, i, k) && InOrder(u, subs[1..], text, k, j);
      MatchContainsRequired(u, subs[0], text, i, k);
      var literal := RequiredLiteral(subs[0]);
      InOrderContainsRequired(u, subs[1..], if |literal.text| > |longest.text| then literal else longest, text, from, k, j);
    }
  }
}
