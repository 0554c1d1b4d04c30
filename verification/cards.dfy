/** The session list: one card for each session with a matching row, in pages that a time budget may
    cut between two cards. */
module Cards {
  import opened Utf8

  type Text = seq<Rune>

  /** A row of the list's statement: the session's trace and its update time, and the trace, event
      and text that may match. */
  datatype Row = Row(card: nat, updated: int, trace: nat, event: nat, text: Text)

  /** child is 0 when the session's own trace matched. */
  datatype Card = Card(id: nat, updated: int, child: nat, event: nat)

  /** A cursor: the last card read. */
  datatype Place = Place(updated: int, id: nat)

  type Test = Text -> bool

  datatype Scan = Scan(all: set<Row>, test: Test)

  datatype Page = Page(cards: seq<Card>, next: Option<Place>, partial: bool)

  predicate Above(a: Place, b: Place) {
    a.updated > b.updated || (a.updated == b.updated && a.id > b.id)
  }

  function RowPlace(r: Row): Place {
    Place(r.updated, r.card)
  }

  function CardPlace(c: Card): Place {
    Place(c.updated, c.id)
  }

  /** The statement's cursor clause. */
  predicate Under(start: Option<Place>, p: Place) {
    start.Some? ==> Above(start.value, p)
  }

  predicate Own(r: Row) {
    r.trace == r.card
  }

  /** ORDER BY r.updated_at DESC, r.id DESC, t.id=r.id DESC, e.id. */
  predicate Before(a: Row, b: Row) {
    Above(RowPlace(a), RowPlace(b)) || (RowPlace(a) == RowPlace(b) && if Own(a) == Own(b) then a.event < b.event else Own(a))
  }

  ghost predicate Sorted(rows: seq<Row>) {
    forall i, j :: 0 <= i < j < |rows| ==> !Before(rows[j], rows[i])
  }

  function CardOf(r: Row): Card {
    Card(r.card, r.updated, if Own(r) then 0 else r.trace, r.event)
  }

  ghost predicate Wanted(scan: Scan, r: Row) {
    r in scan.all && scan.test(r.text)
  }

  /** A card has one update time, and an event one trace. */
  ghost predicate Uniform(scan: Scan) {
    && (forall r :: r in scan.all ==> r.card > 0 && r.trace > 0)
    && (forall r, s :: r in scan.all && s in scan.all && r.card == s.card ==> r.updated == s.updated)
    && (forall r, s :: r in scan.all && s in scan.all && r.card == s.card && r.event == s.event ==> r.trace == s.trace)
  }

  /** The statement may return rows that do not match; it returns every row below that does. */
  ghost predicate GoodRows(rows: seq<Row>, scan: Scan, start: Option<Place>) {
    && Sorted(rows)
    && (forall k :: 0 <= k < |rows| ==> rows[k] in scan.all && Under(start, RowPlace(rows[k])))
    && (forall r :: Wanted(scan, r) && Under(start, RowPlace(r)) ==> r in rows)
  }

  // ---- What a page holds

  /** No matching row of the card comes first: its own trace does, then the earliest event. */
  ghost predicate Best(scan: Scan, r: Row) {
    Wanted(scan, r) && forall s :: Wanted(scan, s) && s.card == r.card ==> !Before(s, r)
  }

  ghost predicate GoodCard(scan: Scan, c: Card) {
    exists r :: Best(scan, r) && CardOf(r) == c
  }

  ghost predicate Listed(cards: seq<Card>, id: nat) {
    exists n :: 0 <= n < |cards| && cards[n].id == id
  }

  ghost predicate Descending(cards: seq<Card>) {
    forall m, n :: 0 <= m < n < |cards| ==> Above(CardPlace(cards[m]), CardPlace(cards[n]))
  }

  /** At the place or above it. */
  predicate Reaches(end: Option<Place>, p: Place) {
    end.Some? ==> !Above(end.value, p)
  }

  /** The cards are exactly those of the sessions between the places that have a matching row. */
  ghost predicate Exact(cards: seq<Card>, scan: Scan, start: Option<Place>, end: Option<Place>) {
    && Descending(cards)
    && (forall n :: 0 <= n < |cards| ==>
      GoodCard(scan, cards[n]) && Under(start, CardPlace(cards[n])) && Reaches(end, CardPlace(cards[n])))
    && (forall r :: Wanted(scan, r) && Under(start, RowPlace(r)) && Reaches(end, RowPlace(r)) ==> Listed(cards, r.card))
  }

  ghost function Places(scan: Scan, start: Option<Place>): set<Place> {
    set r | r in scan.all && Under(start, RowPlace(r)) :: RowPlace(r)
  }

  /** A page with a cursor went past a whole card. */
  ghost predicate GoodPage(page: Page, scan: Scan, start: Option<Place>, limit: nat) {
    && |page.cards| <= limit
    && Exact(page.cards, scan, start, page.next)
    && (page.next.Some? ==> page.next.value in Places(scan, start))
    && (page.partial ==> page.next.Some?)
    && (page.next.Some? && !page.partial ==> |page.cards| == limit)
  }

  // ---- The row loop

  ghost predicate From(rows: seq<Row>, k: nat, scan: Scan, c: Card)
    requires k <= |rows|
  {
    exists j :: 0 <= j < k && Best(scan, rows[j]) && CardOf(rows[j]) == c
  }

  ghost predicate Passed(rows: seq<Row>, j: nat, cards: seq<Card>)
    requires j < |rows|
  {
    Listed(cards, rows[j].card)
  }

  /** The cards of the first k rows. */
  ghost predicate Read(rows: seq<Row>, k: nat, cards: seq<Card>, scan: Scan) {
    && k <= |rows| && Descending(cards)
    && (forall n :: 0 <= n < |cards| ==> From(rows, k, scan, cards[n]))
    && (forall j {:trigger Passed(rows, j, cards)} :: 0 <= j < k && scan.test(rows[j].text) ==> Passed(rows, j, cards))
  }

  function LastId(cards: seq<Card>): nat {
    if cards == [] then 0 else cards[|cards| - 1].id
  }

  lemma FromAbove(rows: seq<Row>, k: nat, scan: Scan, start: Option<Place>, c: Card)
    requires k < |rows| && GoodRows(rows, scan, start) && From(rows, k, scan, c)
    ensures !Above(RowPlace(rows[k]), CardPlace(c))
    ensures From(rows, k + 1, scan, c)
  {
    var j :| 0 <= j < k && Best(scan, rows[j]) && CardOf(rows[j]) == c;
    assert !Before(rows[k], rows[j]);
  }

  lemma FromPlace(rows: seq<Row>, k: nat, scan: Scan, start: Option<Place>, c: Card)
    requires Uniform(scan) && k < |rows| && GoodRows(rows, scan, start) && From(rows, k, scan, c)
    requires c.id == rows[k].card
    ensures CardPlace(c) == RowPlace(rows[k])
  {
    var j :| 0 <= j < k && Best(scan, rows[j]) && CardOf(rows[j]) == c;
  }

  /** A card listed already is the last one. */
  lemma ListedIsLast(rows: seq<Row>, k: nat, cards: seq<Card>, scan: Scan, start: Option<Place>)
    requires Uniform(scan) && k < |rows| && GoodRows(rows, scan, start) && Read(rows, k, cards, scan)
    requires Listed(cards, rows[k].card)
    ensures LastId(cards) == rows[k].card
  {
    var n :| 0 <= n < |cards| && cards[n].id == rows[k].card;
    var last := |cards| - 1;
    assert From(rows, k, scan, cards[n]) && From(rows, k, scan, cards[last]);
    FromAbove(rows, k, scan, start, cards[last]);
    FromPlace(rows, k, scan, start, cards[n]);
    assert n == last;
  }

  lemma LastIsListed(cards: seq<Card>, id: nat)
    requires LastId(cards) == id && id > 0
    ensures Listed(cards, id)
  {
    assert cards[|cards| - 1].id == id;
  }

  lemma FirstIsBest(rows: seq<Row>, k: nat, cards: seq<Card>, scan: Scan, start: Option<Place>)
    requires Uniform(scan) && k < |rows| && GoodRows(rows, scan, start) && Read(rows, k, cards, scan)
    requires scan.test(rows[k].text) && !Listed(cards, rows[k].card)
    ensures Best(scan, rows[k])
  {
    forall s | Wanted(scan, s) && s.card == rows[k].card
      ensures !Before(s, rows[k])
    {
      assert RowPlace(s) == RowPlace(rows[k]);
      var i :| 0 <= i < |rows| && rows[i] == s;
      assert i < k ==> Passed(rows, i, cards);
    }
  }

  lemma ListedMore(cards: seq<Card>, c: Card, id: nat)
    requires Listed(cards, id) || c.id == id
    ensures Listed(cards + [c], id)
  {
    var more := cards + [c];
    assert more[|cards|] == c;
    if Listed(cards, id) {
      var n :| 0 <= n < |cards| && cards[n].id == id;
      assert more[n] == cards[n];
    }
  }

  lemma SkipRow(rows: seq<Row>, k: nat, cards: seq<Card>, scan: Scan, start: Option<Place>)
    requires k < |rows| && GoodRows(rows, scan, start) && Read(rows, k, cards, scan)
    requires scan.test(rows[k].text) ==> Listed(cards, rows[k].card)
    ensures Read(rows, k + 1, cards, scan)
  {
    forall n | 0 <= n < |cards|
      ensures From(rows, k + 1, scan, cards[n])
    {
      FromAbove(rows, k, scan, start, cards[n]);
    }
    assert scan.test(rows[k].text) ==> Passed(rows, k, cards);
  }

  lemma DescendingMore(rows: seq<Row>, k: nat, cards: seq<Card>, scan: Scan, start: Option<Place>)
    requires k < |rows| && GoodRows(rows, scan, start) && Read(rows, k, cards, scan) && !Listed(cards, rows[k].card)
    ensures Descending(cards + [CardOf(rows[k])])
  {
    forall n | 0 <= n < |cards|
      ensures Above(CardPlace(cards[n]), RowPlace(rows[k]))
    {
      FromAbove(rows, k, scan, start, cards[n]);
      assert cards[n].id != rows[k].card;
    }
  }

  lemma KeepRow(rows: seq<Row>, k: nat, cards: seq<Card>, scan: Scan, start: Option<Place>)
    requires Uniform(scan) && k < |rows| && GoodRows(rows, scan, start) && Read(rows, k, cards, scan)
    requires scan.test(rows[k].text) && !Listed(cards, rows[k].card)
    ensures Read(rows, k + 1, cards + [CardOf(rows[k])], scan)
  {
    var c := CardOf(rows[k]);
    FirstIsBest(rows, k, cards, scan, start);
    DescendingMore(rows, k, cards, scan, start);
    assert From(rows, k + 1, scan, c);
    forall n | 0 <= n < |cards|
      ensures From(rows, k + 1, scan, cards[n])
    {
      FromAbove(rows, k, scan, start, cards[n]);
    }
    forall j: nat | j <= k && scan.test(rows[j].text)
      ensures Passed(rows, j, cards + [c])
    {
      assert j < k ==> Passed(rows, j, cards);
      ListedMore(cards, c, rows[j].card);
    }
  }

  /** One row. */
  lemma ReadRow(rows: seq<Row>, k: nat, cards: seq<Card>, scan: Scan, start: Option<Place>)
    requires Uniform(scan) && k < |rows| && GoodRows(rows, scan, start) && Read(rows, k, cards, scan)
    ensures rows[k].card == LastId(cards) || !scan.test(rows[k].text) ==> Read(rows, k + 1, cards, scan)
    ensures rows[k].card != LastId(cards) && scan.test(rows[k].text) ==>
      Read(rows, k + 1, cards + [CardOf(rows[k])], scan)
  {
    if rows[k].card == LastId(cards) {
      LastIsListed(cards, rows[k].card);
      SkipRow(rows, k, cards, scan, start);
    } else if !scan.test(rows[k].text) {
      SkipRow(rows, k, cards, scan, start);
    } else {
      if Listed(cards, rows[k].card) {
        ListedIsLast(rows, k, cards, scan, start);
      }
      KeepRow(rows, k, cards, scan, start);
    }
  }

  lemma CardsBetween(rows: seq<Row>, k: nat, cards: seq<Card>, scan: Scan, start: Option<Place>)
    requires GoodRows(rows, scan, start) && Read(rows, k, cards, scan)
    ensures forall n :: 0 <= n < |cards| ==> GoodCard(scan, cards[n]) && Under(start, CardPlace(cards[n]))
    ensures k > 0 ==> forall n :: 0 <= n < |cards| ==> !Above(RowPlace(rows[k - 1]), CardPlace(cards[n]))
  {
    forall n | 0 <= n < |cards|
      ensures GoodCard(scan, cards[n]) && Under(start, CardPlace(cards[n]))
      ensures (k > 0 ==> !Above(RowPlace(rows[k - 1]), CardPlace(cards[n])))
    {
      assert From(rows, k, scan, cards[n]);
      var j :| 0 <= j < k && Best(scan, rows[j]) && CardOf(rows[j]) == cards[n];
      assert j < k - 1 ==> !Before(rows[k - 1], rows[j]);
    }
  }

  /** Cut where a new card starts, or at the end: exact down to the last card read. */
  lemma CutBetween(rows: seq<Row>, k: nat, cards: seq<Card>, scan: Scan, start: Option<Place>)
    requires GoodRows(rows, scan, start) && Read(rows, k, cards, scan)
    requires k < |rows| ==> k > 0 && Above(RowPlace(rows[k - 1]), RowPlace(rows[k]))
    ensures Exact(cards, scan, start, if k < |rows| then Some(RowPlace(rows[k - 1])) else None)
  {
    CardsBetween(rows, k, cards, scan, start);
    forall r | Wanted(scan, r) && Under(start, RowPlace(r)) && (k < |rows| ==>
      !Above(RowPlace(rows[k - 1]), RowPlace(r)))
      ensures Listed(cards, r.card)
    {
      var j :| 0 <= j < |rows| && rows[j] == r;
      assert j < k;
      assert Passed(rows, j, cards);
    }
  }

  /** Cut at the limit: the cards kept are the first ones. */
  lemma KeptAbove(cards: seq<Card>, limit: nat)
    requires limit > 0 && |cards| == limit + 1 && Descending(cards)
    ensures Descending(cards[..limit]) && forall n :: 0 <= n < limit ==>
      !Above(CardPlace(cards[limit - 1]), CardPlace(cards[n]))
  {
    forall n | 0 <= n < limit
      ensures !Above(CardPlace(cards[limit - 1]), CardPlace(cards[n]))
    {
      assert n < limit - 1 ==> Above(CardPlace(cards[n]), CardPlace(cards[limit - 1]));
    }
  }

  lemma KeptHolds(rows: seq<Row>, k: nat, cards: seq<Card>, scan: Scan, start: Option<Place>, limit: nat, r: Row)
    requires 0 < k && GoodRows(rows, scan, start) && Read(rows, k, cards, scan)
    requires limit > 0 && |cards| == limit + 1 && CardPlace(cards[limit]) == RowPlace(rows[k - 1])
    requires Wanted(scan, r) && Under(start, RowPlace(r)) && !Above(CardPlace(cards[limit - 1]), RowPlace(r))
    ensures Listed(cards[..limit], r.card)
  {
    var end := CardPlace(cards[limit - 1]);
    assert Above(end, CardPlace(cards[limit]));
    var j :| 0 <= j < |rows| && rows[j] == r;
    assert j < k;
    assert Passed(rows, j, cards);
    var n :| 0 <= n < |cards| && cards[n].id == r.card;
    KeptIsListed(rows, k, j, cards, scan, limit, n);
  }

  /** Exact down to the last card kept. */
  lemma CutAtLimit(rows: seq<Row>, k: nat, cards: seq<Card>, scan: Scan, start: Option<Place>, limit: nat)
    requires 0 < k && GoodRows(rows, scan, start) && Read(rows, k, cards, scan)
    requires limit > 0 && |cards| == limit + 1 && CardPlace(cards[limit]) == RowPlace(rows[k - 1])
    ensures Exact(cards[..limit], scan, start, Some(CardPlace(cards[limit - 1])))
  {
    CardsBetween(rows, k, cards, scan, start);
    KeptAbove(cards, limit);
    forall r | Wanted(scan, r) && Under(start, RowPlace(r)) && !Above(CardPlace(cards[limit - 1]), RowPlace(r))
      ensures Listed(cards[..limit], r.card)
    {
      KeptHolds(rows, k, cards, scan, start, limit, r);
    }
  }

  /** The page with one card too many. */
  lemma FullPage(rows: seq<Row>, k: nat, cards: seq<Card>, scan: Scan, start: Option<Place>, limit: nat)
    requires 0 < k && GoodRows(rows, scan, start) && Read(rows, k, cards, scan)
    requires limit > 0 && |cards| == limit + 1 && CardPlace(cards[limit]) == RowPlace(rows[k - 1])
    ensures GoodPage(Page(cards[..limit], Some(CardPlace(cards[limit - 1])), false), scan, start, limit)
  {
    CutAtLimit(rows, k, cards, scan, start, limit);
    CardHasPlace(rows, k, cards, scan, start, limit - 1);
  }

  /** The page cut by the budget. */
  lemma PartialPage(rows: seq<Row>, k: nat, cards: seq<Card>, scan: Scan, start: Option<Place>, limit: nat)
    requires Uniform(scan) && 0 < k < |rows| && GoodRows(rows, scan, start) && rows[k].card != rows[k - 1].card
    requires Read(rows, k, cards, scan) && |cards| <= limit
    ensures GoodPage(Page(cards, Some(RowPlace(rows[k - 1])), true), scan, start, limit)
  {
    NewCard(rows, k, scan, start);
    CutBetween(rows, k, cards, scan, start);
  }

  lemma KeptIsListed(rows: seq<Row>, k: nat, j: nat, cards: seq<Card>, scan: Scan, limit: nat, n: nat)
    requires 0 < k <= |rows| && j < k && |cards| == limit + 1 && CardPlace(cards[limit]) == RowPlace(rows[k - 1])
    requires limit > 0
    requires n < |cards| && cards[n].id == rows[j].card && !Above(CardPlace(cards[limit - 1]), RowPlace(rows[j]))
    requires Above(CardPlace(cards[limit - 1]), CardPlace(cards[limit]))
    requires n == limit ==> rows[j].updated == cards[limit].updated
    ensures Listed(cards[..limit], rows[j].card)
  {
    assert n < limit;
    assert cards[..limit][n].id == rows[j].card;
  }

  ghost predicate Reading(rows: seq<Row>, k: nat, reading: Option<Place>)
    requires k <= |rows|
  {
    reading == if k == 0 then None else Some(RowPlace(rows[k - 1]))
  }

  /** One turn of the row loop: the page, when it ends here, or the cards with this row read. */
  method ReadNext(rows: seq<Row>, k: nat, found: seq<Card>, lastID: nat, reading: Option<Place>, ghost scan: Scan,
      test: Test, limit: nat, ghost start: Option<Place>, expired: bool)
    returns (page: Option<Page>, cards: seq<Card>, last: nat, now: Option<Place>)
    requires Uniform(scan) && test == scan.test && GoodRows(rows, scan, start) && k < |rows|
    requires |found| <= limit && 0 < limit && lastID == LastId(found) && Read(rows, k, found, scan)
    requires Reading(rows, k, reading)
    ensures page.Some? ==> GoodPage(page.value, scan, start, limit)
    ensures page.None? ==>
      |cards| <= limit && last == LastId(cards) && Read(rows, k + 1, cards, scan) && Reading(rows, k + 1, now)
  {
    var row := rows[k];
    cards, last, now, page := found, lastID, Some(RowPlace(row)), None;
    if reading.Some? && row.card != reading.value.id && expired {
      PartialPage(rows, k, found, scan, start, limit);
      return Some(Page(found, reading, true)), cards, last, now;
    }
    ReadRow(rows, k, found, scan, start);
    if row.card != lastID && test(row.text) {
      last, cards := row.card, found + [CardOf(row)];
      if |cards| > limit {
        FullPage(rows, k + 1, cards, scan, start, limit);
        page := Some(Page(cards[..limit], Some(CardPlace(cards[limit - 1])), false));
      }
    }
  }

  /** One page of TranscriptCards: expired is the time budget, asked where a new card starts. */
  method ReadPage(rows: seq<Row>, ghost scan: Scan, test: Test, limit: nat, ghost start: Option<Place>,
      expired: nat -> bool) returns (page: Page)
    requires Uniform(scan) && test == scan.test && 0 < limit && GoodRows(rows, scan, start)
    ensures GoodPage(page, scan, start, limit)
  {
    var cards: seq<Card>, lastID := [], 0;
    var reading: Option<Place> := None;
    for k := 0 to |rows|
      invariant |cards| <= limit && lastID == LastId(cards) && Read(rows, k, cards, scan) && Reading(rows, k, reading)
    {
      var cut;
      cut, cards, lastID, reading := ReadNext(rows, k, cards, lastID, reading, scan, test, limit, start, expired(k));
      if cut.Some? {
        return cut.value;
      }
    }
    CutBetween(rows, |rows|, cards, scan, start);
    page := Page(cards, None, false);
  }

  lemma NewCard(rows: seq<Row>, k: nat, scan: Scan, start: Option<Place>)
    requires Uniform(scan) && 0 < k < |rows| && GoodRows(rows, scan, start) && rows[k].card != rows[k - 1].card
    ensures Above(RowPlace(rows[k - 1]), RowPlace(rows[k])) && RowPlace(rows[k - 1]) in Places(scan, start)
  {
    assert !Before(rows[k], rows[k - 1]);
  }

  lemma CardHasPlace(rows: seq<Row>, k: nat, cards: seq<Card>, scan: Scan, start: Option<Place>, n: nat)
    requires GoodRows(rows, scan, start) && Read(rows, k, cards, scan) && n < |cards|
    ensures CardPlace(cards[n]) in Places(scan, start)
  {
    assert From(rows, k, scan, cards[n]);
    var j :| 0 <= j < k && Best(scan, rows[j]) && CardOf(rows[j]) == cards[n];
    assert CardPlace(cards[n]) == RowPlace(rows[j]);
  }

  // ---- Following cursors

  ghost predicate Followed(pages: seq<Page>, scan: Scan, start: Option<Place>, limit: nat)
    decreases |pages|
  {
    && pages != [] && GoodPage(pages[0], scan, start, limit)
    && if pages[0].next.None? then |pages| == 1 else Followed(pages[1..], scan, pages[0].next, limit)
  }

  function AllCards(pages: seq<Page>): seq<Card> {
    if pages == [] then [] else pages[0].cards + AllCards(pages[1..])
  }

  lemma ListedJoins(a: seq<Card>, b: seq<Card>, id: nat)
    requires Listed(a, id) || Listed(b, id)
    ensures Listed(a + b, id)
  {
    if Listed(a, id) {
      var n :| 0 <= n < |a| && a[n].id == id;
      assert (a + b)[n] == a[n];
    } else {
      var n :| 0 <= n < |b| && b[n].id == id;
      assert (a + b)[|a| + n] == b[n];
    }
  }

  lemma ExactJoins(a: seq<Card>, b: seq<Card>, scan: Scan, start: Option<Place>, middle: Place, end: Option<Place>)
    requires Exact(a, scan, start, Some(middle)) && Exact(b, scan, Some(middle), end) && Under(start, middle)
    requires Under(Some(middle), if end.Some? then end.value else middle) || end.None?
    ensures Exact(a + b, scan, start, end)
  {
    forall r | Wanted(scan, r) && Under(start, RowPlace(r)) && Reaches(end, RowPlace(r))
      ensures Listed(a + b, r.card)
    {
      ListedJoins(a, b, r.card);
    }
    DescendingJoins(a, b, middle);
  }

  lemma DescendingJoins(a: seq<Card>, b: seq<Card>, middle: Place)
    requires Descending(a) && Descending(b)
    requires forall n :: 0 <= n < |a| ==> !Above(middle, CardPlace(a[n]))
    requires forall n :: 0 <= n < |b| ==> Above(middle, CardPlace(b[n]))
    ensures Descending(a + b)
  {
  }

  lemma FewerPlaces(scan: Scan, start: Option<Place>, next: Place)
    requires next in Places(scan, start)
    ensures |Places(scan, Some(next))| < |Places(scan, start)|
  {
    assert Places(scan, Some(next)) <= Places(scan, start) - {next};
    SubsetSmaller(Places(scan, Some(next)), Places(scan, start) - {next});
  }

  lemma {:induction false} SubsetSmaller<T>(a: set<T>, b: set<T>)
    requires a <= b
    ensures |a| <= |b|
  {
    assert b == a + (b - a);
  }

  /** Whatever pages the limit and the budget cut, they list every session with a matching row
      exactly once, in card order. */
  lemma {:induction false} FollowedIsExact(pages: seq<Page>, scan: Scan, start: Option<Place>, limit: nat)
    requires Followed(pages, scan, start, limit)
    ensures Exact(AllCards(pages), scan, start, None)
    ensures |pages| <= |Places(scan, start)| + 1
    decreases |pages|
  {
    if pages[0].next.None? {
      assert pages[1..] == [];
      assert AllCards(pages) == pages[0].cards;
    } else {
      var middle := pages[0].next.value;
      FollowedIsExact(pages[1..], scan, Some(middle), limit);
      ExactJoins(pages[0].cards, AllCards(pages[1..]), scan, start, middle, None);
      FewerPlaces(scan, start, middle);
    }
  }

  /** A reader following every cursor does reach the end. */
  method ReadAll(fetch: Option<Place> -> seq<Row>, ghost scan: Scan, test: Test, limit: nat, start: Option<Place>,
      expired: (Option<Place>, nat) -> bool)
    returns (pages: seq<Page>)
    requires Uniform(scan) && test == scan.test && 0 < limit
    requires forall at :: GoodRows(fetch(at), scan, at)
    ensures Followed(pages, scan, start, limit)
    decreases |Places(scan, start)|
  {
    var page := ReadPage(fetch(start), scan, test, limit, start, (k: nat) => expired(start, k));
    pages := [page];
    if page.next.Some? {
      FewerPlaces(scan, start, page.next.value);
      var rest := ReadAll(fetch, scan, test, limit, page.next, expired);
      pages := pages + rest;
      assert pages[1..] == rest;
    }
  }

  // ---- One list

  lemma CardListed(a: seq<Card>, b: seq<Card>, scan: Scan, start: Option<Place>, k: nat) returns (n: nat)
    requires Uniform(scan) && Exact(a, scan, start, None) && Exact(b, scan, start, None) && k < |a|
    ensures n < |b| && b[n] == a[k]
  {
    assert GoodCard(scan, a[k]);
    var r :| Best(scan, r) && CardOf(r) == a[k];
    assert Listed(b, r.card);
    n :| 0 <= n < |b| && b[n].id == a[k].id;
    SameCards(scan, a[k], b[n]);
  }

  lemma SameHead(a: seq<Card>, b: seq<Card>, scan: Scan, start: Option<Place>)
    requires Uniform(scan) && Exact(a, scan, start, None) && Exact(b, scan, start, None) && a != []
    ensures b != [] && a[0] == b[0]
  {
    var n := CardListed(a, b, scan, start, 0);
    var m := CardListed(b, a, scan, start, 0);
    assert n > 0 ==> Above(CardPlace(b[0]), CardPlace(b[n]));
    assert m > 0 ==> Above(CardPlace(a[0]), CardPlace(a[m]));
  }

  lemma SameCards(scan: Scan, c: Card, d: Card)
    requires Uniform(scan) && GoodCard(scan, c) && GoodCard(scan, d) && c.id == d.id
    ensures c == d
  {
    var r :| Best(scan, r) && CardOf(r) == c;
    var s :| Best(scan, s) && CardOf(s) == d;
    assert !Before(r, s) && !Before(s, r);
  }

  lemma TailLists(a: seq<Card>, scan: Scan, start: Option<Place>, r: Row)
    requires Uniform(scan) && Exact(a, scan, start, None) && a != [] && Wanted(scan, r)
    requires Above(CardPlace(a[0]), RowPlace(r))
    ensures Listed(a[1..], r.card)
  {
    assert GoodCard(scan, a[0]);
    var first :| Best(scan, first) && CardOf(first) == a[0];
    assert Listed(a, r.card);
    var n :| 0 <= n < |a| && a[n].id == r.card;
    assert a[1..][n - 1] == a[n];
  }

  lemma ExactTail(a: seq<Card>, scan: Scan, start: Option<Place>)
    requires Uniform(scan) && Exact(a, scan, start, None) && a != []
    ensures Exact(a[1..], scan, Some(CardPlace(a[0])), None)
  {
    forall r | Wanted(scan, r) && Above(CardPlace(a[0]), RowPlace(r))
      ensures Listed(a[1..], r.card)
    {
      TailLists(a, scan, start, r);
    }
    var tail := a[1..];
    assert forall n :: 0 <= n < |tail| ==> tail[n] == a[n + 1];
  }

  /** The list is determined by the rows searched: the statement, the limits and the budget do not
      matter, and each card shows one event. */
  lemma {:induction false} ExactIsOne(a: seq<Card>, b: seq<Card>, scan: Scan, start: Option<Place>)
    requires Uniform(scan) && Exact(a, scan, start, None) && Exact(b, scan, start, None)
    ensures a == b
    decreases |a|
  {
    if a != [] {
      SameHead(a, b, scan, start);
      ExactTail(a, scan, start);
      ExactTail(b, scan, start);
      ExactIsOne(a[1..], b[1..], scan, Some(CardPlace(a[0])));
      assert a == [a[0]] + a[1..] && b == [b[0]] + b[1..];
    } else if b != [] {
      SameHead(b, a, scan, start);
    }
  }

  ghost function Ids(cards: seq<Card>): set<nat> {
    set n | 0 <= n < |cards| :: cards[n].id
  }

  ghost function Matching(scan: Scan): set<nat> {
    set r | r in scan.all && scan.test(r.text) :: r.card
  }

  lemma {:induction false} DistinctCount(cards: seq<Card>)
    requires forall m, n :: 0 <= m < n < |cards| ==> cards[m].id != cards[n].id
    ensures |Ids(cards)| == |cards|
    decreases |cards|
  {
    if cards == [] {
      assert Ids(cards) == {};
    } else {
      var n := |cards| - 1;
      DistinctCount(cards[..n]);
      assert Ids(cards) == Ids(cards[..n]) + {cards[n].id} by {
        forall id | id in Ids(cards)
          ensures id in Ids(cards[..n]) + {cards[n].id}
        {
          var m :| 0 <= m < |cards| && cards[m].id == id;
          assert m < n ==> cards[..n][m].id == id;
        }
        assert forall m :: 0 <= m < n ==> cards[..n][m] == cards[m];
      }
    }
  }

  lemma IdsDiffer(cards: seq<Card>, scan: Scan)
    requires Uniform(scan) && Exact(cards, scan, None, None)
    ensures forall m, n :: 0 <= m < n < |cards| ==> cards[m].id != cards[n].id
  {
    forall m, n | 0 <= m < n < |cards|
      ensures cards[m].id != cards[n].id
    {
      assert GoodCard(scan, cards[m]) && GoodCard(scan, cards[n]);
      assert Above(CardPlace(cards[m]), CardPlace(cards[n]));
      if cards[m].id == cards[n].id {
        SameCards(scan, cards[m], cards[n]);
        assert false;
      }
    }
  }

  lemma IdsAreMatching(cards: seq<Card>, scan: Scan)
    requires Exact(cards, scan, None, None)
    ensures Ids(cards) == Matching(scan)
  {
    forall id | id in Ids(cards)
      ensures id in Matching(scan)
    {
      var n :| 0 <= n < |cards| && cards[n].id == id;
      assert GoodCard(scan, cards[n]);
      var r :| Best(scan, r) && CardOf(r) == cards[n];
    }
    forall id | id in Matching(scan)
      ensures id in Ids(cards)
    {
      var r :| Wanted(scan, r) && r.card == id;
      assert Listed(cards, r.card);
    }
  }

  /** The whole list has as many cards as sessions with a matching row. */
  lemma ListCounts(cards: seq<Card>, scan: Scan)
    requires Uniform(scan) && Exact(cards, scan, None, None)
    ensures |cards| == |Matching(scan)| && Ids(cards) == Matching(scan)
  {
    IdsDiffer(cards, scan);
    DistinctCount(cards);
    IdsAreMatching(cards, scan);
  }

  // ---- What a card shows

  /** A matching row of the session. */
  ghost predicate Matches(scan: Scan, r: Row, id: nat) {
    r in scan.all && scan.test(r.text) && r.card == id
  }

  /** The card shows the row's event and time, and names its trace if that is a child. */
  predicate Shows(c: Card, r: Row) {
    r.event == c.event && r.updated == c.updated && r.trace == if c.child == 0 then c.id else c.child
  }

  /** The card names no child exactly when a row of the session's own trace matches, and shows the
      earliest event that does; else the trace of the earliest match. */
  ghost predicate ShowsMatch(scan: Scan, c: Card) {
    && (c.child == 0 <==> exists r :: Matches(scan, r, c.id) && r.trace == c.id)
    && (exists r {:trigger Matches(scan, r, c.id)} :: Matches(scan, r, c.id) && Shows(c, r))
    && (forall r :: Matches(scan, r, c.id) && (c.child == 0 ==> r.trace == c.id) ==> c.event <= r.event)
  }

  lemma CardShows(scan: Scan, c: Card)
    requires Uniform(scan) && GoodCard(scan, c)
    ensures ShowsMatch(scan, c)
  {
    var best :| Best(scan, best) && CardOf(best) == c;
    assert Matches(scan, best, c.id);
    forall r | Matches(scan, r, c.id)
      ensures r.trace == c.id ==> best.trace == c.id
      ensures (best.trace == c.id ==> r.trace == c.id) ==> best.event <= r.event
    {
      assert Wanted(scan, r) && !Before(r, best);
    }
  }

  /** Every card of a list shows the session's own match, if it has one, or else a child's. */
  lemma {:induction false} CardsShow(cards: seq<Card>, scan: Scan, start: Option<Place>, end: Option<Place>)
    requires Uniform(scan) && Exact(cards, scan, start, end)
    ensures forall n :: 0 <= n < |cards| ==> ShowsMatch(scan, cards[n])
  {
    forall n | 0 <= n < |cards|
      ensures ShowsMatch(scan, cards[n])
    {
      assert GoodCard(scan, cards[n]);
      CardShows(scan, cards[n]);
    }
  }
}
