/** UTF-8 as RFC 3629 section 3 defines it, over unbounded integers. Go strings that hold
    valid UTF-8 are byte sequences of the form Encode(text). */
module Utf8 {
  datatype Option<+T> = None | Some(value: T)

  // A Unicode scalar value: surrogates have no encoding.
  type Rune = r: int | 0 <= r < 0xD800 || 0xE000 <= r <= 0x10FFFF
  type Byte = b: int | 0 <= b < 0x100

  const UTF_MAX := 4
  const RUNE_SELF := 0x80

  /** utf8.RuneStart: b & 0xC0 != 0x80. */
  predicate RuneStart(b: Byte) {
    b < 0x80 || 0xC0 <= b
  }

  /** A continuation byte holding the low six bits of n. */
  function Tail(n: nat): (b: Byte)
    ensures !RuneStart(b)
  {
    0x80 + n % 0x40
  }

  /** Appends a continuation byte's six bits. */
  function Extend(n: int, b: Byte): int {
    n * 0x40 + (b as int - 0x80)
  }

  function EncodeRune(r: Rune): (bytes: seq<Byte>)
    ensures 1 <= |bytes| <= UTF_MAX
    ensures RuneStart(bytes[0]) && forall k :: 1 <= k < |bytes| ==> !RuneStart(bytes[k])
  {
    if r < 0x80 then [r]
    else if r < 0x800 then [0xC0 + r / 0x40, Tail(r)]
    else if r < 0x10000 then [0xE0 + r / 0x40 / 0x40, Tail(r / 0x40), Tail(r)]
    else [0xF0 + r / 0x40 / 0x40 / 0x40, Tail(r / 0x40 / 0x40), Tail(r / 0x40), Tail(r)]
  }

  function Encode(text: seq<Rune>): seq<Byte> {
    if text == [] then [] else EncodeRune(text[0]) + Encode(text[1..])
  }

  lemma TailRoundTrip(n: nat, b: Byte)
    requires !RuneStart(b)
    ensures Extend(n / 0x40, Tail(n)) == n
    ensures Extend(n, b) / 0x40 == n && Tail(Extend(n, b)) == b
  {
  }

  lemma RunePrefixFree(r: Rune, s: Rune, rest: seq<Byte>, more: seq<Byte>)
    requires EncodeRune(r) + rest == EncodeRune(s) + more
    ensures r == s && rest == more
  {
    var a, b := EncodeRune(r), EncodeRune(s);
    assert a[0] == (a + rest)[0] == (b + more)[0] == b[0];
    assert |a| == |b|;
    assert forall k :: 0 <= k < |a| ==> a[k] == (a + rest)[k] && b[k] == (b + more)[k];
    assert rest == (a + rest)[|a|..] && more == (b + more)[|b|..];
    TailRoundTrip(r, 0x80);
    TailRoundTrip(r / 0x40, 0x80);
    TailRoundTrip(r / 0x40 / 0x40, 0x80);
    TailRoundTrip(s, 0x80);
    TailRoundTrip(s / 0x40, 0x80);
    TailRoundTrip(s / 0x40 / 0x40, 0x80);
  }

  lemma {:induction false} EncodeConcat(a: seq<Rune>, b: seq<Rune>)
    ensures Encode(a + b) == Encode(a) + Encode(b)
  {
    if a == [] {
      assert a + b == b;
    } else {
      assert (a + b)[1..] == a[1..] + b;
      EncodeConcat(a[1..], b);
    }
  }

  lemma {:induction false} EncodeSplit(text: seq<Rune>, i: nat, j: nat)
    requires i <= j <= |text|
    ensures |Encode(text[..i])| <= |Encode(text[..j])| <= |Encode(text)|
    ensures Encode(text)[|Encode(text[..i])|..|Encode(text[..j])|] == Encode(text[i..j])
    ensures |Encode(text[..j])| == |Encode(text[..i])| + |Encode(text[i..j])|
  {
    assert text[..j] == text[..i] + text[i..j];
    assert text == text[..j] + text[j..];
    EncodeConcat(text[..i], text[i..j]);
    EncodeConcat(text[..j], text[j..]);
  }

  lemma {:induction false} EncodeSuffix(text: seq<Rune>, k: nat)
    requires k <= |text|
    ensures |Encode(text[..k])| <= |Encode(text)|
    ensures Encode(text)[|Encode(text[..k])|..] == Encode(text[k..])
  {
    EncodeSplit(text, k, |text|);
    assert text[k..|text|] == text[k..] && text[..|text|] == text;
  }

  lemma {:induction false} EncodeLength(text: seq<Rune>)
    ensures |text| <= |Encode(text)| <= UTF_MAX * |text|
    ensures text != [] ==> RuneStart(Encode(text)[0])
  {
    if text != [] {
      EncodeLength(text[1..]);
    }
  }

  /** Byte offset where a rune starts, or the end of the text. */
  predicate Boundary(bytes: seq<Byte>, offset: nat) {
    offset == |bytes| || (offset < |bytes| && RuneStart(bytes[offset]))
  }

  /** Rune starts are exactly the offsets between runes. */
  lemma {:induction false} RuneAt(text: seq<Rune>, offset: nat) returns (k: nat)
    requires Boundary(Encode(text), offset)
    ensures k <= |text| && |Encode(text[..k])| == offset
  {
    if offset == 0 {
      k := 0;
    } else {
      EncodeLength(text);
      var width := |EncodeRune(text[0])|;
      assert width <= offset;
      var rest := RuneAt(text[1..], offset - width);
      k := rest + 1;
      assert text[..k][1..] == text[1..][..rest];
    }
  }

  lemma {:induction false} RuneBoundary(text: seq<Rune>, k: nat)
    requires k <= |text|
    ensures |Encode(text[..k])| <= |Encode(text)| && Boundary(Encode(text), |Encode(text[..k])|)
  {
    EncodeSuffix(text, k);
    EncodeLength(text[k..]);
    if k < |text| {
      assert Encode(text)[|Encode(text[..k])|] == Encode(text[k..])[0];
    }
  }

  ghost predicate Within<T(!new)>(part: seq<T>, whole: seq<T>) {
    exists k :: OccursAt(part, whole, k)
  }

  predicate OccursAt<T(==)>(part: seq<T>, whole: seq<T>, k: nat) {
    k + |part| <= |whole| && whole[k..k + |part|] == part
  }

  lemma {:induction false} PrefixRunes(part: seq<Rune>, text: seq<Rune>, rest: seq<Byte>)
    requires Encode(part) + rest == Encode(text)
    ensures part <= text
  {
    if part != [] {
      EncodeLength(part);
      assert text != [];
      var a, b := EncodeRune(part[0]), EncodeRune(text[0]);
      assert a + (Encode(part[1..]) + rest) == b + Encode(text[1..]);
      RunePrefixFree(part[0], text[0], Encode(part[1..]) + rest, Encode(text[1..]));
      PrefixRunes(part[1..], text[1..], rest);
      assert part == [part[0]] + part[1..];
      assert text == [text[0]] + text[1..];
    }
  }

  lemma {:induction false} EncodeInjective(a: seq<Rune>, b: seq<Rune>)
    requires Encode(a) == Encode(b)
    ensures a == b
  {
    PrefixRunes(a, b, []);
    PrefixRunes(b, a, []);
  }

  /** The characters of a valid UTF-8 string; None where utf8.ValidString is false. */
  ghost function TextOf(bytes: seq<Byte>): (text: Option<seq<Rune>>)
    ensures text.Some? ==> Encode(text.value) == bytes
    ensures text.None? ==> forall t: seq<Rune> :: Encode(t) != bytes
  {
    if t: seq<Rune> :| Encode(t) == bytes then Some(t) else None
  }

  /** UTF-8 is self-synchronising: a text found inside another as bytes is found as characters. */
  lemma {:induction false} OccursAsRunes(part: seq<Rune>, text: seq<Rune>)
    requires part != [] && Within(Encode(part), Encode(text))
    ensures Within(part, text)
  {
    var p, t := Encode(part), Encode(text);
    var offset: nat :| OccursAt(p, t, offset);
    EncodeLength(part);
    assert t[offset] == t[offset..offset + |p|][0] == p[0];
    var k := RuneAt(text, offset);
    EncodeSuffix(text, k);
    assert p + t[offset..][|p|..] == t[offset..];
    PrefixRunes(part, text[k..], t[offset..][|p|..]);
    assert text[k..][..|part|] == text[k..k + |part|];
    assert OccursAt(part, text, k);
  }
}
