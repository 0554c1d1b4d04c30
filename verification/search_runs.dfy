/** Exact and regex search over every archive a run of the store can reach. */
module SearchRuns {
  import opened Utf8
  import opened Archive
  import opened ArchiveSteps
  import opened ArchiveRuns
  import opened SearchPaging
  import opened SearchPlans
  import Regex
  import Narrowing
  import TrigramQuery

  /** A query as searchMatches tests it: what its index parts are, if any. */
  datatype Search =
    | ExactSearch(wanted: Text)
    | RegexSearch(re: Regex.Regexp, q: TrigramQuery.Query)

  ghost predicate Matching(u: Regex.Unicode, s: Search, text: Text) {
    match s
    case ExactSearch(wanted) => Utf8.Within(wanted, text)
    case RegexSearch(re, _) => HasMatch(u, re, text)
  }

  /** The query sent to the index; empty when there is none to send. */
  ghost function Parts(s: Search): seq<TrigramQuery.Fts> {
    match s
    case ExactSearch(wanted) => if Narrowing.Candidate(wanted) == [] then [] else [TrigramQuery.Phrase(Narrowing.Candidate(wanted))]
    case RegexSearch(re, q) => Narrowing.RegexTrigramQuery(re, q)
  }

  /** A regex comes with its codesearch query, and is one the index loses nothing for. */
  ghost predicate Searchable(u: Regex.Unicode, s: Search) {
    s.RegexSearch? ==> Narrowing.Codesearch(u, Narrowing.LowerFoldedLiterals(s.re), s.q) && Narrowing.Safe(s.re)
  }

  /** The plan asks the index for these parts, or does not use it; without parts it cannot. */
  ghost predicate PlanFor(u: Regex.Unicode, s: Search, plan: Plan) {
    plan.EventPlan? || (Parts(s) != [] && forall chunk :: plan.hit(chunk) == IndexHit(u, Parts(s), chunk))
  }

  lemma SameHits(db: Db, k: Link, a: Hit, b: Hit)
    requires k in db.recordings && HasHit(db, k, a) && forall chunk :: a(chunk) == b(chunk)
    ensures HasHit(db, k, b)
  {
    var n :| 0 <= n < |db.recordings[k].chunks| && a(db.recordings[k].chunks[n].content);
    assert b(db.recordings[k].chunks[n].content);
  }

  lemma Narrowed(db: Db, u: Regex.Unicode, s: Search, test: Test, plan: Plan)
    requires Sane(db) && Regex.Standard(u) && Searchable(u, s) && PlanFor(u, s, plan)
    requires forall text :: test(text) ==> Matching(u, s, text)
    ensures Usable(plan, db, test)
  {
    if !plan.EventPlan? {
      forall k | k in db.recordings && test(db.recordings[k].text)
        ensures HasHit(db, k, plan.hit)
      {
        TextHit(db, u, s, k);
        SameHits(db, k, chunk => IndexHit(u, Parts(s), chunk), plan.hit);
      }
    }
  }

  lemma TextHit(db: Db, u: Regex.Unicode, s: Search, k: Link)
    requires Sane(db) && Regex.Standard(u) && Searchable(u, s) && Parts(s) != []
    requires k in db.recordings && Matching(u, s, db.recordings[k].text)
    ensures HasHit(db, k, chunk => IndexHit(u, Parts(s), chunk))
  {
    match s
    case ExactSearch(wanted) =>
      ExactNarrows(db, u, wanted);
    case RegexSearch(re, q) =>
      RegexNarrows(db, u, re, q);
  }

  /** After any run of imports, rebuilds, renames and deletes, searching by any plan and following
      every cursor gives exactly the events with a matching text, once each, newest first. */
  method SearchRun(ghost env: Env, ghost turns: seq<Turn>, ghost u: Regex.Unicode, ghost s: Search, ghost plan: Plan,
      fetch: nat -> seq<Row>, ghost f: Filters, test: Test, limit: nat, max: nat, expired: (nat, nat) -> bool)
    returns (pages: seq<Page>)
    requires AllSound(env, turns) && Regex.Standard(u) && Searchable(u, s) && PlanFor(u, s, plan) && 0 < limit
    requires forall text :: test(text) <==> Matching(u, s, text)
    requires Serves(plan, fetch, Run(EMPTY, turns), f, max, BatchSize(limit))
    ensures Followed(pages, Scan(AllRows(Run(EMPTY, turns), f), test, max), max + 1, limit)
    ensures Exact(AllResults(pages), Scan(AllRows(Run(EMPTY, turns), f), test, max), 0, max + 1)
  {
    EmptyIsValid(env);
    RunKeeps(env, EMPTY, turns);
    Narrowed(Run(EMPTY, turns), u, s, test, plan);
    pages := SearchAll(plan, fetch, Run(EMPTY, turns), f, test, limit, max, expired);
  }

  /** So two plans, with any limits and time budgets, give the same events in the same order. */
  lemma {:induction false} PlansAgree(db: Db, f: Filters, test: Test, max: nat, a: seq<Page>, b: seq<Page>)
    requires Exact(AllResults(a), Scan(AllRows(db, f), test, max), 0, max + 1)
    requires Exact(AllResults(b), Scan(AllRows(db, f), test, max), 0, max + 1)
    ensures SamePlaces(AllResults(a), AllResults(b))
  {
    ExactIsOne(AllResults(a), AllResults(b), Scan(AllRows(db, f), test, max), 0, max + 1);
  }
}
