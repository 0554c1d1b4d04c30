/** Every trace a collection passes on lands in exactly one archive. */
module CollectedArchives {
  import opened Collector
  import opened ArchiveSplit

  /** Inputs are sorted before they are split: any order of them will do. */
  ghost predicate Reordered(inputs: seq<Item>, sorted: seq<Item>) {
    DistinctKeys(sorted) && forall i: Item :: i in sorted <==> i in inputs
  }

  /** The archive holds an item of the trace. */
  ghost predicate InArchive(sorted: seq<Item>, ends: seq<nat>, n: nat, key: Key) {
    exists t: nat :: t < |sorted| && Holds(ends, n, t) && sorted[t].key == key
  }

  lemma EachInputOnce(inputs: seq<Item>, sorted: seq<Item>, sizes: Sizes, limit: nat, ends: seq<nat>, item: Item)
      returns (n: nat)
    requires Reordered(inputs, sorted) && |sizes| == |sorted| && Splits(sizes, limit, ends) && item in inputs
    ensures exists t: nat :: t < |sorted| && Holds(ends, n, t) && sorted[t] == item
    ensures forall m: nat :: InArchive(sorted, ends, m, item.key) ==> m == n
  {
    var t :| 0 <= t < |sorted| && sorted[t] == item;
    n := EachTraceOnce(sizes, limit, ends, t);
    forall m: nat | InArchive(sorted, ends, m, item.key)
      ensures m == n
    {
      var u: nat :| u < |sorted| && Holds(ends, m, u) && sorted[u].key == item.key;
      assert u == t;
    }
  }
}
