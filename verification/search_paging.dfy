/** Reading search results in batches: one page of Search, and following its cursors. */
module SearchPaging {
  import opened Utf8

  type Text = seq<Rune>

  /** What a search statement returns for one observation: rows with equal columns are one row. */
  datatype Row = Row(event: nat, observation: nat, text: Text)

  type Test = Text -> bool

  datatype Page = Page(results: seq<Row>, next: Option<nat>, partial: bool)

  /** The rows a search ranges over, the test a text must pass, and the newest event it may show. */
  datatype Scan = Scan(all: set<Row>, test: Test, max: nat)

  // ---- What a statement returns

  /** ORDER BY e.id DESC, o.id DESC. */
  ghost predicate Sorted(rows: seq<Row>) {
    forall i, j :: 0 <= i < j < |rows| ==>
      rows[i].event > rows[j].event || (rows[i].event == rows[j].event && rows[i].observation >= rows[j].observation)
  }

  /** The number of events among sorted rows. */
  function Events(rows: seq<Row>): nat {
    var n := |rows|;
    if n == 0 then 0 else Events(rows[..n - 1]) + (if n == 1 || rows[n - 1].event != rows[n - 2].event then 1 else 0)
  }

  ghost predicate Wanted(scan: Scan, r: Row) {
    r in scan.all && scan.test(r.text) && r.event <= scan.max
  }

  /** A batch of this size reaches down to the row's event. */
  ghost predicate Reaches(rows: seq<Row>, size: nat, r: Row) {
    Events(rows) < size || (rows != [] && rows[|rows| - 1].event <= r.event)
  }

  /** A batch may hold rows that do not match, but down to its last event, or down to the oldest
      when it is not full, it holds every row that does. */
  ghost predicate GoodBatch(rows: seq<Row>, scan: Scan, before: nat, size: nat) {
    && Sorted(rows)
    && (forall k :: 0 <= k < |rows| ==> rows[k] in scan.all && 0 < rows[k].event < before && rows[k].event <= scan.max)
    && (forall r {:trigger Reaches(rows, size, r)} :: Wanted(scan, r) && r.event < before && Reaches(rows, size, r) ==>
      r in rows)
  }

  // ---- What a page holds

  /** The row's event is among the results, shown by an observation no older than the row's. */
  ghost predicate Shown(results: seq<Row>, r: Row) {
    exists n :: 0 <= n < |results| && results[n].event == r.event && r.observation <= results[n].observation
  }

  ghost predicate Descending(results: seq<Row>) {
    forall m, n :: 0 <= m < n < |results| ==> results[m].event > results[n].event
  }

  /** The results are exactly the events from `from` up to below `start` that have a matching row,
      once each, newest first, each by its newest matching observation. */
  ghost predicate Exact(results: seq<Row>, scan: Scan, from: nat, start: nat) {
    && Descending(results)
    && (forall n :: 0 <= n < |results| ==> Wanted(scan, results[n]) && from <= results[n].event < start)
    && (forall r {:trigger Shown(results, r)} :: Wanted(scan, r) && from <= r.event < start ==> Shown(results, r))
  }

  ghost predicate GoodPage(page: Page, scan: Scan, start: nat, limit: nat) {
    && |page.results| <= limit
    && (page.next.Some? ==> 0 < page.next.value < start)
    && (page.partial ==> page.next.Some?)
    && (page.next.Some? && !page.partial ==> |page.results| == limit)
    && Exact(page.results, scan, if page.next.Some? then page.next.value else 0, start)
  }

  // ---- collectSearchBatch

  lemma EventsSnoc(rows: seq<Row>, k: nat)
    requires k < |rows|
    ensures Events(rows[..k + 1]) == Events(rows[..k]) + (if k == 0 || rows[k].event != rows[k - 1].event then 1 else 0)
  {
    assert rows[..k + 1][..k] == rows[..k];
  }

  ghost predicate Among(rows: seq<Row>, k: nat, r: Row)
    requires k <= |rows|
  {
    exists j :: 0 <= j < k && rows[j] == r
  }

  ghost predicate ShownAt(results: seq<Row>, rows: seq<Row>, j: nat)
    requires j < |rows|
  {
    Shown(results, rows[j])
  }

  /** Every matching row of earlier batches and of the first k rows of this one is shown. */
  ghost predicate AllShown(rows: seq<Row>, k: nat, results: seq<Row>, scan: Scan, before: nat, start: nat)
    requires k <= |rows|
  {
    && (forall r {:trigger Shown(results, r)} :: Wanted(scan, r) && before <= r.event < start ==> Shown(results, r))
    && (forall j {:trigger ShownAt(results, rows, j)} :: 0 <= j < k && scan.test(rows[j].text) ==>
      ShownAt(results, rows, j))
  }

  /** The results of earlier batches and of the first k rows of this one. */
  ghost predicate Collected(rows: seq<Row>, k: nat, results: seq<Row>, scan: Scan, before: nat, start: nat)
    requires k <= |rows|
  {
    && Descending(results)
    && (forall n :: 0 <= n < |results| ==> Wanted(scan, results[n]) && results[n].event < start)
    && (forall n :: 0 <= n < |results| ==> before <= results[n].event || Among(rows, k, results[n]))
    && AllShown(rows, k, results, scan, before, start)
  }

  lemma ShownMore(results: seq<Row>, row: Row, r: Row)
    requires Shown(results, r) || r == row
    ensures Shown(results + [row], r)
  {
    var more := results + [row];
    if r == row {
      assert more[|results|] == row;
    } else {
      var n :| 0 <= n < |results| && results[n].event == r.event && r.observation <= results[n].observation;
      assert more[n] == results[n];
    }
  }

  lemma AllShownMore(rows: seq<Row>, k: nat, results: seq<Row>, scan: Scan, before: nat, start: nat)
    requires k < |rows| && AllShown(rows, k, results, scan, before, start)
    ensures AllShown(rows, k + 1, results + [rows[k]], scan, before, start)
  {
    forall r | Shown(results, r) || r == rows[k] {
      ShownMore(results, rows[k], r);
    }
    forall j: nat | j <= k && scan.test(rows[j].text)
      ensures ShownAt(results + [rows[k]], rows, j)
    {
      assert j < k ==> ShownAt(results, rows, j);
    }
  }

  lemma AmongLower(rows: seq<Row>, k: nat, r: Row)
    requires k < |rows| && Sorted(rows) && Among(rows, k, r)
    ensures rows[k].event <= r.event && (rows[k].event == r.event ==> rows[k].observation <= r.observation)
    ensures Among(rows, k + 1, r)
  {
  }

  lemma CollectRow(rows: seq<Row>, k: nat, results: seq<Row>, scan: Scan, before: nat, start: nat, size: nat)
    requires k < |rows| && GoodBatch(rows, scan, before, size) && before <= start
    requires Collected(rows, k, results, scan, before, start)
    requires scan.test(rows[k].text) && forall n :: 0 <= n < |results| ==> results[n].event != rows[k].event
    ensures Collected(rows, k + 1, results + [rows[k]], scan, before, start)
  {
    AllShownMore(rows, k, results, scan, before, start);
    forall n | 0 <= n < |results|
      ensures rows[k].event < results[n].event && (before <= results[n].event || Among(rows, k + 1, results[n]))
    {
      if results[n].event < before {
        AmongLower(rows, k, results[n]);
      }
    }
    assert Among(rows, k + 1, rows[k]);
  }

  lemma SkipShown(rows: seq<Row>, k: nat, results: seq<Row>, scan: Scan, before: nat, n: nat)
    requires k < |rows| && Sorted(rows) && rows[k].event < before
    requires n < |results| && results[n].event == rows[k].event
    requires (before <= results[n].event || Among(rows, k, results[n]))
    ensures Shown(results, rows[k])
  {
    AmongLower(rows, k, results[n]);
  }

  lemma AmongMore(rows: seq<Row>, k: nat, results: seq<Row>, before: nat)
    requires k < |rows| && forall n :: 0 <= n < |results| ==> before <= results[n].event || Among(rows, k, results[n])
    ensures forall n :: 0 <= n < |results| ==> before <= results[n].event || Among(rows, k + 1, results[n])
  {
  }

  lemma SkipRow(rows: seq<Row>, k: nat, results: seq<Row>, scan: Scan, before: nat, start: nat, size: nat)
    requires k < |rows| && GoodBatch(rows, scan, before, size)
    requires Collected(rows, k, results, scan, before, start)
    requires !scan.test(rows[k].text) || exists n :: 0 <= n < |results| && results[n].event == rows[k].event
    ensures Collected(rows, k + 1, results, scan, before, start)
  {
    AmongMore(rows, k, results, before);
    if scan.test(rows[k].text) {
      var n :| 0 <= n < |results| && results[n].event == rows[k].event;
      SkipShown(rows, k, results, scan, before, n);
      assert ShownAt(results, rows, k);
    }
  }

  /** With the whole batch read, the results are exact down to where it reaches. */
  lemma {:induction false} BatchRead(rows: seq<Row>, results: seq<Row>, scan: Scan, before: nat, start: nat, size: nat)
    requires GoodBatch(rows, scan, before, size) && Collected(rows, |rows|, results, scan, before, start)
    requires before <= start
    requires Events(rows) < size || rows != []
    ensures Exact(results, scan, if Events(rows) < size then 0 else rows[|rows| - 1].event, start)
  {
    var from := if Events(rows) < size then 0 else rows[|rows| - 1].event;
    forall r | Wanted(scan, r) && from <= r.event < start
      ensures Shown(results, r)
    {
      if r.event < before {
        assert Reaches(rows, size, r);
        var j :| 0 <= j < |rows| && rows[j] == r;
        assert ShownAt(results, rows, j);
      }
    }
    if rows != [] {
      forall n | 0 <= n < |results| && results[n].event < before
        ensures from <= results[n].event
      {
        var j :| 0 <= j < |rows| && rows[j] == results[n];
        assert rows[|rows| - 1].event <= rows[j].event;
      }
    }
  }

  lemma ExactCut(results: seq<Row>, limit: nat, scan: Scan, start: nat)
    requires 0 < limit <= |results| && Descending(results)
    requires forall n :: 0 <= n < |results| ==> Wanted(scan, results[n]) && results[n].event < start
    requires forall r :: Wanted(scan, r) && results[limit - 1].event <= r.event < start ==> Shown(results[..limit], r)
    ensures Exact(results[..limit], scan, results[limit - 1].event, start)
  {
  }

  /** A page cut after `limit` results is exact down to its last. */
  lemma PageCut(rows: seq<Row>, k: nat, results: seq<Row>, scan: Scan, before: nat, start: nat, size: nat, limit: nat)
    requires 0 < k <= |rows| && GoodBatch(rows, scan, before, size) && Collected(rows, k, results, scan, before, start)
    requires limit > 0 && |results| == limit + 1 && results[limit] == rows[k - 1]
    ensures Exact(results[..limit], scan, results[limit - 1].event, start)
  {
    forall r | Wanted(scan, r) && results[limit - 1].event <= r.event < start
      ensures Shown(results[..limit], r)
    {
      CutShown(rows, k, results, scan, before, start, size, limit, r);
    }
    ExactCut(results, limit, scan, start);
  }

  lemma CutShown(rows: seq<Row>, k: nat, results: seq<Row>, scan: Scan, before: nat, start: nat, size: nat, limit: nat,
      r: Row)
    requires 0 < k <= |rows| && GoodBatch(rows, scan, before, size) && Collected(rows, k, results, scan, before, start)
    requires limit > 0 && |results| == limit + 1 && results[limit] == rows[k - 1]
    requires Wanted(scan, r) && results[limit - 1].event <= r.event < start
    ensures Shown(results[..limit], r)
  {
    assert results[limit - 1].event > results[limit].event;
    if r.event < before {
      assert rows[|rows| - 1].event <= rows[k - 1].event;
      assert Reaches(rows, size, r);
      var j :| 0 <= j < |rows| && rows[j] == r;
      assert j < k && ShownAt(results, rows, j);
    }
    assert Shown(results, r);
    var n :| 0 <= n < |results| && results[n].event == r.event && r.observation <= results[n].observation;
    assert results[..limit][n] == results[n];
  }

  function EventsOf(results: seq<Row>): set<nat> {
    set n | 0 <= n < |results| :: results[n].event
  }

  lemma EventsOfSnoc(results: seq<Row>, row: Row)
    ensures EventsOf(results + [row]) == EventsOf(results) + {row.event}
  {
    var more := results + [row];
    assert more[|results|] == row;
    forall e | e in EventsOf(results)
      ensures e in EventsOf(more)
    {
      var n :| 0 <= n < |results| && results[n].event == e;
      assert more[n].event == e;
    }
  }

  lemma ExactCollected(rows: seq<Row>, results: seq<Row>, scan: Scan, before: nat, start: nat)
    requires Exact(results, scan, before, start)
    ensures Collected(rows, 0, results, scan, before, start)
  {
  }

  lemma ReadRow(rows: seq<Row>, k: nat, results: seq<Row>, scan: Scan, before: nat, start: nat, size: nat)
    requires k < |rows| && GoodBatch(rows, scan, before, size) && before <= start
    requires Collected(rows, k, results, scan, before, start)
    ensures rows[k].event in EventsOf(results) || !scan.test(rows[k].text) ==>
      Collected(rows, k + 1, results, scan, before, start)
    ensures rows[k].event !in EventsOf(results) && scan.test(rows[k].text) ==>
      Collected(rows, k + 1, results + [rows[k]], scan, before, start)
  {
    if rows[k].event in EventsOf(results) || !scan.test(rows[k].text) {
      SkipRow(rows, k, results, scan, before, start, size);
    } else {
      CollectRow(rows, k, results, scan, before, start, size);
    }
  }

  /** collectSearchBatch: reads rows until the page holds one result more than it shows. */
  method CollectSearchBatch(rows: seq<Row>, ghost scan: Scan, test: Test, limit: nat, found: seq<Row>, known: set<nat>,
      ghost before: nat, ghost start: nat, ghost size: nat)
    returns (results: seq<Row>, seen: set<nat>, batchEvents: nat, lastEventID: nat)
    requires test == scan.test && before <= start && 0 < limit && |found| <= limit
    requires GoodBatch(rows, scan, before, size) && Exact(found, scan, before, start) && known == EventsOf(found)
    ensures |results| <= limit + 1
    ensures |results| == limit + 1 ==>
      Exact(results[..limit], scan, results[limit - 1].event, start) && 0 < results[limit - 1].event
    ensures |results| <= limit ==> Collected(rows, |rows|, results, scan, before, start)
    ensures |results| <= limit ==>
      batchEvents == Events(rows) && seen == EventsOf(results) && (rows != [] ==> lastEventID == rows[|rows| - 1].event)
  {
    results, seen, batchEvents, lastEventID := found, known, 0, 0;
    var k := 0;
    ExactCollected(rows, results, scan, before, start);
    while k < |rows|
      invariant k <= |rows| && |results| <= limit
      invariant Collected(rows, k, results, scan, before, start)
      invariant batchEvents == Events(rows[..k]) && lastEventID == (if k == 0 then 0 else rows[k - 1].event)
      invariant seen == EventsOf(results)
    {
      var result := rows[k];
      EventsSnoc(rows, k);
      ReadRow(rows, k, results, scan, before, start, size);
      if result.event != lastEventID {
        batchEvents, lastEventID := batchEvents + 1, result.event;
      }
      k := k + 1;
      if result.event in seen || !test(result.text) {
        continue;
      }
      EventsOfSnoc(results, result);
      seen := seen + {result.event};
      results := results + [result];
      if |results| > limit {
        PageCut(rows, k, results, scan, before, start, size, limit);
        return;
      }
    }
    assert rows[..k] == rows;
  }

  // ---- collectSearch

  /** The larger of 256 and twice the limit, so that one batch can fill a page. */
  function BatchSize(limit: nat): (size: nat)
    ensures limit < size && 256 <= size && 2 * limit <= size && size in {256, 2 * limit}
  {
    if 2 * limit > 256 then 2 * limit else 256
  }

  /** One page: batches are read below `start` until it is full, the rows run out, or the time
      budget, checked between two batches, is used up. */
  method CollectSearch(fetch: nat -> seq<Row>, ghost scan: Scan, test: Test, limit: nat, start: nat,
      expired: nat -> bool) returns (page: Page)
    requires test == scan.test && 0 < limit
    requires forall before: nat :: before <= start ==> GoodBatch(fetch(before), scan, before, BatchSize(limit))
    ensures GoodPage(page, scan, start, limit)
  {
    var results, seen, before: nat, turn: nat := [], EventsOf([]), start, 0;
    while true
      invariant |results| <= limit && before <= start && seen == EventsOf(results)
      invariant Exact(results, scan, before, start)
      decreases before
    {
      var rows := fetch(before);
      var more, known, batchEvents, lastEventID :=
        CollectSearchBatch(rows, scan, test, limit, results, seen, before, start, BatchSize(limit));
      if |more| > limit {
        return Page(more[..limit], Some(more[limit - 1].event), false);
      }
      BatchRead(rows, more, scan, before, start, BatchSize(limit));
      if batchEvents < BatchSize(limit) {
        return Page(more, None, false);
      }
      results, seen, before := more, known, lastEventID;
      if expired(turn) {
        return Page(results, Some(before), true);
      }
      turn := turn + 1;
    }
  }

  // ---- Following cursors

  /** The pages a reader gets by following cursors until there is none. */
  ghost predicate Followed(pages: seq<Page>, scan: Scan, start: nat, limit: nat)
    decreases |pages|
  {
    && pages != [] && GoodPage(pages[0], scan, start, limit)
    && if pages[0].next.None? then |pages| == 1 else Followed(pages[1..], scan, pages[0].next.value, limit)
  }

  function AllResults(pages: seq<Page>): seq<Row> {
    if pages == [] then [] else pages[0].results + AllResults(pages[1..])
  }

  lemma ShownJoins(a: seq<Row>, b: seq<Row>, r: Row)
    requires Shown(a, r) || Shown(b, r)
    ensures Shown(a + b, r)
  {
    if Shown(a, r) {
      var n :| 0 <= n < |a| && a[n].event == r.event && r.observation <= a[n].observation;
      assert (a + b)[n] == a[n];
    } else {
      var n :| 0 <= n < |b| && b[n].event == r.event && r.observation <= b[n].observation;
      assert (a + b)[|a| + n] == b[n];
    }
  }

  lemma DescendingJoins(a: seq<Row>, b: seq<Row>, middle: nat)
    requires Descending(a) && Descending(b)
    requires forall n :: 0 <= n < |a| ==> middle <= a[n].event
    requires forall n :: 0 <= n < |b| ==> b[n].event < middle
    ensures Descending(a + b)
  {
  }

  lemma ExactJoins(a: seq<Row>, b: seq<Row>, scan: Scan, from: nat, middle: nat, start: nat)
    requires Exact(a, scan, middle, start) && Exact(b, scan, from, middle) && from <= middle <= start
    ensures Exact(a + b, scan, from, start)
  {
    DescendingJoins(a, b, middle);
    forall r | Shown(a, r) || Shown(b, r) {
      ShownJoins(a, b, r);
    }
  }

  /** Wherever the time budget fires, the pages together show every matching event exactly once in
      descending order, and there are at most as many pages as the first position. */
  lemma {:induction false} FollowedIsExact(pages: seq<Page>, scan: Scan, start: nat, limit: nat)
    requires Followed(pages, scan, start, limit)
    ensures Exact(AllResults(pages), scan, 0, start)
    ensures |pages| <= start + 1
    decreases |pages|
  {
    if pages[0].next.None? {
      assert pages[1..] == [];
      assert AllResults(pages) == pages[0].results;
    } else {
      var middle := pages[0].next.value;
      FollowedIsExact(pages[1..], scan, middle, limit);
      ExactJoins(pages[0].results, AllResults(pages[1..]), scan, 0, middle, start);
    }
  }

  /** A reader following every cursor does reach the end. */
  method ReadAll(fetch: nat -> seq<Row>, ghost scan: Scan, test: Test, limit: nat, start: nat,
      expired: (nat, nat) -> bool) returns (pages: seq<Page>)
    requires test == scan.test && 0 < limit
    requires forall before: nat :: before <= start ==> GoodBatch(fetch(before), scan, before, BatchSize(limit))
    ensures Followed(pages, scan, start, limit)
    decreases start
  {
    var page := CollectSearch(fetch, scan, test, limit, start, (turn: nat) => expired(start, turn));
    pages := [page];
    if page.next.Some? {
      var rest := ReadAll(fetch, scan, test, limit, page.next.value, expired);
      pages := pages + rest;
      assert pages[1..] == rest;
    }
  }

  // ---- One answer

  ghost predicate SamePlaces(a: seq<Row>, b: seq<Row>) {
    |a| == |b| && forall n :: 0 <= n < |a| ==> a[n].event == b[n].event && a[n].observation == b[n].observation
  }

  lemma SameHead(a: seq<Row>, b: seq<Row>, scan: Scan, from: nat, start: nat)
    requires Exact(a, scan, from, start) && Exact(b, scan, from, start) && a != []
    ensures b != [] && a[0].event == b[0].event && a[0].observation == b[0].observation
  {
    assert Shown(b, a[0]);
    assert Shown(a, b[0]);
  }

  lemma ExactTail(a: seq<Row>, scan: Scan, from: nat, start: nat)
    requires Exact(a, scan, from, start) && a != []
    ensures Exact(a[1..], scan, from, a[0].event)
  {
    forall r | Wanted(scan, r) && from <= r.event < a[0].event
      ensures Shown(a[1..], r)
    {
      assert Shown(a, r);
      var n :| 0 <= n < |a| && a[n].event == r.event && r.observation <= a[n].observation;
      assert a[1..][n - 1] == a[n];
    }
  }

  /** Exact results are determined by the rows searched, up to which revision's text is shown. */
  lemma {:induction false} ExactIsOne(a: seq<Row>, b: seq<Row>, scan: Scan, from: nat, start: nat)
    requires Exact(a, scan, from, start) && Exact(b, scan, from, start)
    ensures SamePlaces(a, b)
    decreases |a|
  {
    if a != [] {
      SameHead(a, b, scan, from, start);
      ExactTail(a, scan, from, start);
      ExactTail(b, scan, from, start);
      ExactIsOne(a[1..], b[1..], scan, from, a[0].event);
      forall n | 0 < n < |a|
        ensures a[n].event == b[n].event && a[n].observation == b[n].observation
      {
        assert a[n] == a[1..][n - 1] && b[n] == b[1..][n - 1];
      }
    } else if b != [] {
      SameHead(b, a, scan, from, start);
    }
  }

  /** Following cursors twice over the same rows gives the same events in the same order, whatever
      pages the limits and the time budget cut. */
  lemma {:induction false} AnyPagesAgree(a: seq<Page>, b: seq<Page>, scan: Scan, start: nat, limit: nat, other: nat)
    requires Followed(a, scan, start, limit) && Followed(b, scan, start, other)
    ensures SamePlaces(AllResults(a), AllResults(b))
  {
    FollowedIsExact(a, scan, start, limit);
    FollowedIsExact(b, scan, start, other);
    ExactIsOne(AllResults(a), AllResults(b), scan, 0, start);
  }

  lemma SeenLast(rows: seq<Row>, k: nat)
    requires Sorted(rows) && k < |rows|
    ensures rows[k].event in EventsOf(rows[..k]) <==> k > 0 && rows[k - 1].event == rows[k].event
  {
    var front := rows[..k];
    if rows[k].event in EventsOf(front) {
      var n :| 0 <= n < k && front[n].event == rows[k].event;
      assert rows[n].event >= rows[k - 1].event >= rows[k].event;
    }
    if k > 0 && rows[k - 1].event == rows[k].event {
      assert front[k - 1] == rows[k - 1];
    }
  }

  lemma {:induction false} EventsAreCounted(rows: seq<Row>, k: nat)
    requires Sorted(rows) && k <= |rows|
    ensures Events(rows[..k]) == |EventsOf(rows[..k])|
  {
    if k == 0 {
      assert rows[..0] == [];
    } else {
      var n := k - 1;
      var front, e := rows[..n], rows[n].event;
      EventsAreCounted(rows, n);
      EventsSnoc(rows, n);
      SeenLast(rows, n);
      assert rows[..k] == front + [rows[n]];
      EventsOfSnoc(front, rows[n]);
      assert EventsOf(rows[..k]) == EventsOf(front) + {e};
      assert e in EventsOf(front) ==> EventsOf(front) + {e} == EventsOf(front);
    }
  }
}
