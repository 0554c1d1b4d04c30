/** How Write splits traces over archives: in order, each archive as full as the limit allows. */
module ArchiveSplit {
  type Sizes = seq<nat>

  function Total(sizes: Sizes): nat {
    if sizes == [] then 0 else Total(sizes[..|sizes| - 1]) + sizes[|sizes| - 1]
  }

  /** The bytes of the traces from first to last but one. */
  function Between(sizes: Sizes, first: nat, last: nat): nat
    requires first <= last <= |sizes|
  {
    Total(sizes[first..last])
  }

  lemma BetweenSnoc(sizes: Sizes, first: nat, last: nat)
    requires first <= last < |sizes|
    ensures Between(sizes, first, last + 1) == Between(sizes, first, last) + sizes[last]
  {
    assert sizes[first..last + 1][..last - first] == sizes[first..last];
    assert sizes[first..last + 1][last - first] == sizes[last];
  }

  lemma {:induction false} BetweenSplit(sizes: Sizes, first: nat, middle: nat, last: nat)
    requires first <= middle <= last <= |sizes|
    ensures Between(sizes, first, last) == Between(sizes, first, middle) + Between(sizes, middle, last)
    decreases last - middle
  {
    if middle < last {
      BetweenSplit(sizes, first, middle, last - 1);
      BetweenSnoc(sizes, first, last - 1);
      BetweenSnoc(sizes, middle, last - 1);
    }
  }

  /** An archive holds a trace at least, and more only within the limit. */
  predicate Fits(sizes: Sizes, limit: nat, first: nat, last: nat) {
    first < last <= |sizes| && (last == first + 1 || Between(sizes, first, last) <= limit)
  }

  /** No further trace would have fit. */
  predicate Full(sizes: Sizes, limit: nat, first: nat, last: nat) {
    first < last <= |sizes| && (last < |sizes| ==> Between(sizes, first, last + 1) > limit)
  }

  /** Where archive k starts: where the one before ends. */
  function Start(ends: seq<nat>, k: nat): nat
    requires k <= |ends|
  {
    if k == 0 then 0 else ends[k - 1]
  }

  ghost predicate FitsAt(sizes: Sizes, limit: nat, ends: seq<nat>, k: nat)
    requires k < |ends|
  {
    Fits(sizes, limit, Start(ends, k), ends[k])
  }

  ghost predicate FullAt(sizes: Sizes, limit: nat, ends: seq<nat>, k: nat)
    requires k < |ends|
  {
    Full(sizes, limit, Start(ends, k), ends[k])
  }

  /** Archives in order, by where they end, from the first trace to the last. */
  ghost predicate Splits(sizes: Sizes, limit: nat, ends: seq<nat>) {
    && (forall k {:trigger FitsAt(sizes, limit, ends, k)} :: 0 <= k < |ends| ==> FitsAt(sizes, limit, ends, k))
    && Start(ends, |ends|) == |sizes|
  }

  ghost predicate Filled(sizes: Sizes, limit: nat, ends: seq<nat>) {
    && (forall k {:trigger FitsAt(sizes, limit, ends, k)} :: 0 <= k < |ends| ==> FitsAt(sizes, limit, ends, k))
    && (forall k {:trigger FullAt(sizes, limit, ends, k)} :: 0 <= k < |ends| ==> FullAt(sizes, limit, ends, k))
  }

  // ---- The greedy split

  /** The inner loop: fills one archive. */
  method Fill(sizes: Sizes, splitBytes: nat, first: nat) returns (last: nat)
    requires first < |sizes|
    ensures Fits(sizes, splitBytes, first, last) && Full(sizes, splitBytes, first, last)
  {
    last := first;
    var size := 0;
    while last < |sizes|
      invariant first <= last <= |sizes| && size == Between(sizes, first, last)
      invariant last > first ==> Fits(sizes, splitBytes, first, last)
      decreases |sizes| - last
    {
      BetweenSnoc(sizes, first, last);
      if last > first && sizes[last] > splitBytes - size {
        break;
      }
      size := size + sizes[last];
      last := last + 1;
    }
  }

  lemma FilledMore(sizes: Sizes, limit: nat, ends: seq<nat>, last: nat)
    requires Filled(sizes, limit, ends)
    requires Fits(sizes, limit, Start(ends, |ends|), last) && Full(sizes, limit, Start(ends, |ends|), last)
    ensures Filled(sizes, limit, ends + [last])
  {
    forall k: nat | k < |ends| + 1
      ensures FitsAt(sizes, limit, ends + [last], k) && FullAt(sizes, limit, ends + [last], k)
    {
      if k < |ends| {
        assert FitsAt(sizes, limit, ends, k) && FullAt(sizes, limit, ends, k);
      }
    }
  }

  /** The split keeps to the limit, and no split of the traces in order has fewer archives. */
  ghost predicate IsLeast(sizes: Sizes, limit: nat, ends: seq<nat>) {
    Splits(sizes, limit, ends) && forall other :: Splits(sizes, limit, other) ==> |ends| <= |other|
  }

  /** The outer loop of Write; without a limit of its own it is two billion bytes. */
  method Write(sizes: Sizes, limit: int) returns (ends: seq<nat>)
    ensures limit > 0 ==> IsLeast(sizes, limit, ends)
    ensures limit <= 0 ==> IsLeast(sizes, 2_000_000_000, ends)
  {
    var splitBytes: nat := if limit <= 0 then 2_000_000_000 else limit;
    ends := [];
    var first := 0;
    while first < |sizes|
      invariant first == Start(ends, |ends|) <= |sizes| && Filled(sizes, splitBytes, ends)
      decreases |sizes| - first
    {
      var last := Fill(sizes, splitBytes, first);
      FilledMore(sizes, splitBytes, ends, last);
      ends := ends + [last];
      first := last;
    }
    forall other | Splits(sizes, splitBytes, other)
      ensures |ends| <= |other|
    {
      GreedyIsLeast(sizes, splitBytes, ends, other);
    }
  }

  lemma BetweenGrows(sizes: Sizes, a: nat, b: nat, c: nat, d: nat)
    requires a <= b <= c <= d <= |sizes|
    ensures Between(sizes, b, c) <= Between(sizes, a, d)
  {
    BetweenSplit(sizes, a, b, d);
    BetweenSplit(sizes, b, c, d);
  }

  /** A full archive ends no earlier than any that starts no later. */
  lemma FullReaches(sizes: Sizes, limit: nat, first: nat, last: nat, from: nat, to: nat)
    requires Full(sizes, limit, first, last) && Fits(sizes, limit, from, to) && from <= first
    ensures to <= last
  {
    if last < to {
      BetweenGrows(sizes, from, first, last + 1, to);
    }
  }

  /** After k archives the greedy split is at least as far as any other. */
  lemma {:induction false} GreedyIsAhead(sizes: Sizes, limit: nat, ends: seq<nat>, other: seq<nat>, k: nat)
    requires Filled(sizes, limit, ends) && Splits(sizes, limit, other) && k <= |ends| && k <= |other|
    ensures Start(other, k) <= Start(ends, k)
    decreases k
  {
    if k > 0 {
      GreedyIsAhead(sizes, limit, ends, other, k - 1);
      assert FullAt(sizes, limit, ends, k - 1) && FitsAt(sizes, limit, other, k - 1);
      FullReaches(sizes, limit, Start(ends, k - 1), ends[k - 1], Start(other, k - 1), other[k - 1]);
    }
  }

  lemma StartsInside(sizes: Sizes, limit: nat, ends: seq<nat>, k: nat)
    requires Filled(sizes, limit, ends) && k < |ends|
    ensures Start(ends, k) < |sizes|
  {
    assert FitsAt(sizes, limit, ends, k);
  }

  lemma GreedyIsLeast(sizes: Sizes, limit: nat, ends: seq<nat>, other: seq<nat>)
    requires Filled(sizes, limit, ends) && Splits(sizes, limit, other)
    ensures |ends| <= |other|
  {
    if |other| < |ends| {
      StartsInside(sizes, limit, ends, |other|);
      GreedyIsAhead(sizes, limit, ends, other, |other|);
    }
  }

  lemma {:induction false} StartsRise(sizes: Sizes, limit: nat, ends: seq<nat>, m: nat, k: nat)
    requires Splits(sizes, limit, ends) && m <= k <= |ends|
    ensures Start(ends, m) <= Start(ends, k)
    decreases k
  {
    if m < k {
      StartsRise(sizes, limit, ends, m, k - 1);
      assert FitsAt(sizes, limit, ends, k - 1);
    }
  }

  predicate Holds(ends: seq<nat>, n: nat, t: nat) {
    n < |ends| && Start(ends, n) <= t < ends[n]
  }

  lemma {:induction false} HeldBefore(sizes: Sizes, limit: nat, ends: seq<nat>, t: nat, k: nat) returns (n: nat)
    requires Splits(sizes, limit, ends) && k <= |ends| && t < Start(ends, k)
    ensures Holds(ends, n, t)
    decreases k
  {
    if t < Start(ends, k - 1) {
      n := HeldBefore(sizes, limit, ends, t, k - 1);
    } else {
      n := k - 1;
    }
  }

  /** Every trace lands in exactly one archive. */
  lemma EachTraceOnce(sizes: Sizes, limit: nat, ends: seq<nat>, t: nat) returns (n: nat)
    requires Splits(sizes, limit, ends) && t < |sizes|
    ensures Holds(ends, n, t) && forall m :: Holds(ends, m, t) ==> m == n
  {
    n := HeldBefore(sizes, limit, ends, t, |ends|);
    forall m: nat | Holds(ends, m, t)
      ensures m == n
    {
      if m < n {
        StartsRise(sizes, limit, ends, m + 1, n);
      } else if n < m {
        StartsRise(sizes, limit, ends, n + 1, m);
      }
    }
  }
}
