# A model of traicr, with proofs

traicr collects the transcripts of coding agents, archives every revision of them, and shows and
searches what it has. This project models the parts of it where a mistake would be silent, as Dafny
datatypes, functions, methods and classes, and proves what they promise. `dafny verify dfyconfig.toml`
checks everything. No part of the program itself is run.

**Search.** A regular expression is turned into a query over a trigram index of overlapping text
chunks (`Utf8`, `Chunking`, `TextChunks`, `Regex`, `TrigramQuery`, `Narrowing`), one of three statements
reads candidate rows (`SearchPlans`), and a loop that a time budget may cut between two batches collects
pages (`SearchPaging`). `SearchRuns` and `CardSearch` put these together with the archive. Two contracts are taken from
outside: codesearch's `RegexpQuery` gives a query that every string the expression can match satisfies
(`Narrowing.Codesearch`), and an FTS5 phrase holds where its text occurs under a case fold that also
takes U+212A to k and U+017F to s (`Regex.Standard`, `TrigramQuery.Holds`).

**The archive.** Tables are maps (`Archive`); importing, backfilling, rebuilding, renaming and deleting
are steps on them (`ArchiveSteps`, `ArchiveRuns`), `ImportOrder` says when the order of imports matters, and
`TraceRows` what a trace row says after any of them, `SearchText` what the stored search text says, and
`Store` is the object whose methods update the tables row by row and do exactly those steps. Source
files are a separate state machine in which the process may die between any two steps (`Objects`).
Cached transcript orders are followed through the same runs (`TranscriptViews`, `TranscriptCache`,
`TranscriptReads`, `TranscriptShown`, `TranscriptRuns`). SHA-256 is an injective function. Each step of a run has its own
row ids, any that are free: ids of deleted traces, revisions and runs may come back
(`migrations/001_initial.sql` declares them without AUTOINCREMENT); where it matters that ids of events
may not, they are above all given before (`TranscriptRuns.Fresher`).

**Parent links from untrusted records.** `ParentGraph` has the order that puts parents first, the
cutting of loops and the walk up; `SessionGroups`, `SessionEntries` and `Session` build a viewer session with
them, `SessionLoops` and `SessionLinks` say what it loses, `Tree`, `TreeBuild` and `TreeShown` show it. `Pi`,
`Claude`, `Amp` and `FileOrder` give the events of four kinds of transcript their order, parents and keys;
`ClaudeChain` and `ClaudeBranches` say where the events of a Claude Code transcript hang.

**Sessions in lists.** `Lineage` says which traces make one session, `SessionList` and `Cards` list
sessions page by page, `Activity` counts them.

**Collecting and uploading.** `Collector` decides what to pass on, `RevisionDigest` identifies a
revision, `ArchiveSplit` and `CollectedArchives` divide traces over archives, `Upload` reads the server's answer,
remembers what was accepted, and states what holds over all runs of both.

## Findings

Places where the code does not do what its comments or documentation promise. The code was modelled as
it is; each has a lemma with the failing input, and the condition under which the promise holds.

- A `(?i)` search can miss a match: text of U+212A or U+017F for k or s is three or two bytes wide, so a
  required literal can be wider than the overlap of two chunks (`Narrowing.KelvinRunIsLost`: 343 letters k).
  `Narrowing.LiteralNarrowingExact` gives the exact condition.
- The comment on the transcript cache says an order of the current generation is never stale. When the
  trace with the newest run is deleted, a later transaction may get its trace, revision and run ids, and
  the cached order of the deleted trace is then current (`TranscriptRuns.StaleAfterDelete`).
  `TranscriptRuns.StepCoherence` gives the exact condition for each transaction that records a run (a new
  trace, a new revision, a parse of a stored one), `TranscriptRuns.CacheIsRightExactly` for whole runs with reads.
- Which observation of an event is preferred depends on the order of imports when a revision has no
  native update time, because the import's clock stands in for it. `ImportOrder.SameExactlyWhenAgreed` gives the
  exact condition for whole runs, `ImportOrder.OrderMattersUntimed` for two imports.
- A Claude Code transcript with a system prompt before its first message has two roots
  (`ClaudeChain.PromptFirstForks`); `ClaudeChain.ChainExactly` says that this is the only way to fork it.
- An Amp block whose own id reads like a numbered one can share its key with another block
  (`Amp.NumberedIdCollides`), or lose it to a message inserted before it (`Amp.InsertedTakesKey`).
  `Amp.KeysAreDistinct` and `Amp.KeysSurvive` give the exact conditions.
- A viewer session puts recorded parents first so that no message falls back onto its own descendant,
  but the ordering and the linking look for parents differently, and a loop is then reported that no
  record has. It happens in at least three ways: the ordering does not look up aliases (`SessionLinks.AliasedParentLoops`); it looks
  for the parent's key where the linking takes any loaded block of that message
  (`SessionLinks.MissingBlockLoops`); and it reads the first event that names a parent where the linking reads the
  first block (`SessionLinks.SplitParentLoops`). `SessionLinks.CutExactlyLoops` gives the exact condition, from the
  events and the sort.
- Counting activity by 15-minute slots moves some times to another local day exactly when the offset is
  not a whole number of quarter hours (`Activity.SlotsKeepDays`, for a fixed offset). The comment there speaks
  of offsets in use only, so this is where its assumption ends, not a promise broken today; a zone that
  changes its offset inside a slot is outside `Activity.Quarterly`.

## Model

| member | source | states |
|---|---|---|
| `Chunking.Chunks` | internal/search/text.go:16-36 | the loop over a text ends and gives the one chunking in which each chunk is as long as a rune start allows and the next starts an overlap before its end |
| `Chunking.SpanInOneChunk` | internal/search/text.go:9-36 | every span of at most overlap minus UTFMax bytes, or of whole runes whose all but last fit the overlap, lies whole in one chunk |
| `Regex.MatchContainsRequired` | internal/store/search.go:490-517 | every match of an expression contains its required literal, up to case where (?i) applies |
| `Regex.MatchIsShort` | internal/store/search.go:452-488 | no match is longer in bytes than a non-negative maxMatchBytes |
| `TrigramQuery.FtsQueryMeans` | internal/store/search.go:395-435 | the index query is implied by the codesearch query, and equals it where the literal is found and the tree has no none-nodes, no empty nodes and whole trigrams |
| `Narrowing.TrigramCandidate` | internal/store/search.go:519-528 | the byte loop cuts an exact text to its longest start of whole characters within 512 bytes, and gives nothing below three characters |
| `Narrowing.NarrowingKeepsMatches` | internal/store/search.go:352-369 | if a safe expression matches a text, one single chunk of the text satisfies the whole index query, trigrams and literal together |
| `Narrowing.ExactKeepsMatches` | internal/store/search.go:65-69 | a text that holds an exact query has a chunk that holds its indexed phrase |
| `Narrowing.LiteralNarrowingExact` | internal/store/search.go:352-369 | for a case-insensitive literal whose looked-for start comes once in it, no text loses its match if and only if the start but for its last character fits the overlap at its widest |
| `Narrowing.KelvinRunIsLost` | internal/search/text.go:9-14 | (?i) and 343 letters k lose a match in a text of Kelvin signs |
| `SearchPaging.CollectSearchBatch` | internal/store/search.go:142-174 | reading a batch keeps the page exact down to the row read, or cuts it after its limit |
| `SearchPaging.CollectSearch` | internal/store/search.go:106-140 | one page holds exactly the matching events between its cursors, by their newest matching observation, wherever the time budget fires, and a cursor strictly lowers the position |
| `SearchPaging.FollowedIsExact` | internal/store/search.go:106-174 | following cursors shows every matching event exactly once, in descending id order, in boundedly many pages |
| `SearchPaging.AnyPagesAgree` | internal/store/search.go:106-174 | two ways of paging over one snapshot give the same events in the same order |
| `SearchPlans.PlanIsGood` | internal/store/search.go:180-317 | each of the selective, candidate-first and event-first statements returns a batch that misses no matching row down to its last event |
| `SearchPlans.RegexNarrows` | internal/store/search.go:352-369 | in an archive whose chunk rows match their texts, every text a safe expression matches has a chunk row the index returns |
| `SearchPlans.ExactNarrows` | internal/store/search.go:65-69 | the same for the phrase of an exact search |
| `SearchPlans.SearchAll` | internal/store/search.go:106-317 | with any of the plans, limits and budgets, following every cursor gives exactly what a plain scan of all texts finds |
| `SearchRuns.SearchRun` | internal/store/search.go:20-36 | after any run of imports, rebuilds, renames and deletes, an exact or safe regex search gives exactly the events with a matching text, once each, newest first |
| `SearchRuns.PlansAgree` | internal/store/search.go:180-188 | two plans give the same events in the same order under every filter |
| `SearchText.RunSays` | internal/store/store.go:585-639 | over every run of imports, rebuilds, renames and deletes, the search text of every recording has every text of its observation |
| `SearchText.CommitTexts` | internal/store/store.go:549-565 | the texts of a new revision have every label of its descriptor as well |
| `SearchText.NewTextSays` | internal/store/store.go:638-651 | a new search text has the content, the source paths and the labels, and whatever one line it has is in one of those |
| `SearchText.ReindexedExactly` | internal/store/titles.go:115-192 | so it is of every text of a trace that is reindexed, with the labels it has then |
| `SearchText.BackfillNamed` | internal/store/store.go:270-345 | a revision whose texts have all labels of its trace row has them after a backfill, with those filled in |
| `SearchText.FactIsFound` | internal/store/search.go:20-36 | after any run, a search for any text of an event the archive knows shows that event |
| `SearchText.ImportedIsFound` | internal/store/search.go:20-36 | after any run of imports and renames, a search for any text of an event that some import brought shows the event of that key and trace |
| `ArchiveSteps.CommitKeeps` | internal/store/store.go:503-565 | importing a new revision keeps every invariant of the tables |
| `ArchiveSteps.RebuildKeeps` | internal/store/maintenance.go:228-272 | replacing a revision's events keeps them too, and drops observations nothing records |
| `ArchiveSteps.RebuildLeavesOthers` | internal/store/maintenance.go:228-272 | rebuilding one revision leaves what other revisions recorded as it was |
| `ArchiveSteps.DeleteKeeps` | internal/store/maintenance.go:16-35 | deleting a trace keeps every invariant |
| `TraceRows.LatestWins` | internal/store/store.go:526-527 | after imports in any order a trace row says what the one with the latest time says, the last of those if several; where all are older it stays |
| `TraceRows.AnyOrder` | internal/store/store.go:526-527 | with different times the order does not matter |
| `TraceRows.NewestTitleStays` | internal/store/titles.go:283-318 | a trace keeps the first title generated for its newest revision, whatever is offered after |
| `TraceRows.RenormalizeFacts` | internal/store/maintenance.go:100-226 | a parse that failed or is not supported leaves the archive as it is; a whole or partial one leaves of the revision exactly its events |
| `TraceRows.ReimportFacts` | internal/store/store.go:200-268 | so does importing a stored revision again, unless it was parsed whole before |
| `TraceRows.NewTraceSays` | internal/store/store.go:516-527 | the first import of a trace makes a row that says what it says, with the time of the import where it has none, and without titles of its own |
| `TraceRows.OldTraceSays` | internal/store/store.go:516-557 | any other refreshes the row by its time, and gives it the title of the parse only where it has none |
| `TraceRows.RebuildRow` | internal/store/maintenance.go:241-257 | a rebuild gives its revision the status and version of the parse, titles an untitled trace, offers it for naming again unless it has a generated title, and changes no other row |
| `TraceRows.OfferedAgain` | internal/store/maintenance.go:241-243 | so a trace that got no title for a revision can be given one for it after a rebuild |
| `TraceRows.BackfillFillsOnly` | internal/store/store.go:270-317 | a backfill by a time at least the row's fills in what is missing and replaces nothing, and a second one changes nothing |
| `TraceRows.SortTimeIsFirst` | internal/store/store.go:574-583 | an event is sorted by the time of the first of its key in the import that brought it, for good |
| `TraceRows.PreferredIsBest` | internal/store/store.go:630-632 | in every archive a run can reach no recording of an event is newer, later, with more files or of a greater digest than its preferred one |
| `ArchiveRuns.RunKeeps` | internal/store/store.go:175-636 | over every run of imports, rebuilds, renames and deletes, the chunk rows of each recording are exactly the chunks of its text, every observation is recorded, and every event has its highest-ranked one |
| `ArchiveRuns.RunLearns` | internal/store/store.go:567-636 | after any run of imports and renames the archive knows exactly the observations its imports recorded, each under the time of the import that added its revision |
| `ArchiveRuns.PreferredDependsOnFacts` | internal/store/store.go:611-630 | two archives that know the same about an event prefer the same content for it, whatever row ids they use |
| `ArchiveRuns.OrderIndependent` | internal/store/store.go:503-636 | the content preferred for an event depends only on the set of imports, not their order, clocks or repetition, when every import of it carries a native time |
| `ImportOrder.SameExactlyWhenAgreed` | internal/store/store.go:503-636 | every run that makes a set of imports, in any order, at any rising clocks and however often, prefers the same content for an event if and only if the best content of each import of it without a native time, and the best of all those with one, are the same |
| `ImportOrder.OrderMattersUntimed` | internal/store/store.go:514-517 | two imports, of any events, that bring different contents of an event to the top prefer the same one in every such run if and only if both carry a native time |
| `Store.Store.InsertEvents` | internal/store/store.go:567-636 | row by row, the loop with the keys of its ordinals map leaves the tables as the step function says |
| `Store.Store.SetPreferred` | internal/store/store.go:611-636 | the subquery's first row is the preferred observation, whichever of equal rows it takes |
| `Store.Store.CommitRevision` | internal/store/store.go:503-565 | a new revision's statements leave the tables as the step function says, and valid |
| `Store.Store.ImportTrace` | internal/store/store.go:175-268 | an import, of a new revision or of one already there, leaves the tables as the step function says, and valid |
| `Store.Store.ReplaceRevisionEvents` | internal/store/maintenance.go:228-272 | the sequence of updates that rebuilds a revision is the step function |
| `Store.Store.ReindexTrace` | internal/store/titles.go:115-192 | rewriting recordings one by one gives every text and its chunks anew from what is stored, and nothing else |
| `Store.Store.DeleteTrace` | internal/store/maintenance.go:16-35 | no row of the trace stays in any table, every row of another trace is unchanged, the tables stay valid, what is forgotten is what the trace's own revisions recorded, and a trace that is not there is reported and changes nothing |
| `ArchiveSteps.DeleteFacts` | internal/store/maintenance.go:16-35 | deleting a trace forgets exactly the observations its own revisions recorded |
| `Objects.RunKeeps` | internal/store/store.go:411-466 | with crashes between any two steps of import, delete and collection, every referenced object has a file whose content hashes to its name |
| `Objects.ContentStays` | internal/store/store.go:411-466 | over every run, with crashes, the file of an object used throughout is never replaced or removed |
| `Objects.ObjectStore.WriteObject` | internal/store/store.go:411-466 | an object is stored exactly when its digest is well formed and the file there or the copied bytes have the size and hash promised |
| `Objects.ObjectStore.CollectGarbage` | internal/store/maintenance.go:47-98 | the batch loop and the walk end, and leave exactly the referenced rows and exactly their files, unchanged |
| `Objects.ObjectStore.DeleteRevisions` | internal/store/maintenance.go:16-35 | deleting revisions drops their references and then everything unused, nothing else |
| `Objects.ObjectStore.ImportObjects` | internal/store/store.go:175-187 | references are committed only when every file was stored and no path came twice |
| `TranscriptCache.TranscriptOrders.Put` | internal/store/transcript.go:44-59 | first in first out, at most eight distinct keys that agree with the map |
| `TranscriptCache.StepStays` | internal/store/transcript.go:113-141 | a transaction either leaves an order as it was or raises its generation, as long as the newest run stays |
| `TranscriptCache.TranscriptEvents` | internal/store/transcript.go:61-111 | a page is the slice of the fresh order at its cursor, each kind of refusal happens in exactly its case, and an event row is never missing |
| `TranscriptReads.CacheIsFresh` | internal/store/transcript.go:25-59 | over every run that keeps the newest run, a cached order of the current generation equals the freshly sorted one |
| `TranscriptReads.PagesAreWhole` | internal/store/transcript.go:61-111 | whatever happens between reads, pages of one generation concatenate to the whole order, each event once |
| `TranscriptShown.CommitShows` | internal/store/store.go:503-565 | a new revision shows something if and only if it has events, the whole trace also if another revision recorded some |
| `TranscriptShown.ReimportShows` | internal/store/store.go:175-268 | the same of a stored revision that is parsed again, which a failed parse leaves as it is |
| `TranscriptRuns.StepCoherence` | internal/store/transcript.go:25-59 | a transaction leaves every current cached order fresh if and only if none is cached under the trace, revision and run ids it gives again, apart from an empty one where nothing will be shown |
| `TranscriptRuns.CacheIsRightExactly` | internal/store/transcript.go:25-59 | over every run of transactions and reads from nothing, deletes included, the cache is always right if and only if no transaction does so |
| `TranscriptRuns.StaleAfterDelete` | internal/store/transcript.go:25-30 | import, read, delete, import again: a run whose last step leaves the cached order of the first trace current for the second |
| `ParentGraph.OrderParentsFirst` | web/app/src/lib/transcript/session.ts:109-125 | every node once, every parent before its child except across exactly one link of each loop, and each start as sorted behind its unplaced ancestors |
| `ParentGraph.CutCycles` | web/app/src/lib/transcript/session.ts:331-348 | what is left is a forest, and the links lost are exactly one of each loop |
| `ParentGraph.GetPath` | web/app/src/lib/transcript/tree.ts:56-68 | from every entry the walk up ends, and gives the links from a root down to it |
| `SessionGroups.OrderGroups` | web/app/src/lib/transcript/session.ts:93-125 | from any permutation, groups come out once each with every recorded parent first unless its link lies on a loop, and otherwise as sorted |
| `SessionEntries.AddGroup` | web/app/src/lib/transcript/session.ts:132-320 | each event of a group is a source of an entry of its role, consecutive blocks of one role and results of one call are joined, and entries follow one another |
| `Session.BuildTranscriptSession` | web/app/src/lib/transcript/session.ts:91-348 | groups are the events by message in the order of the sort with parents first; every event is a source of one entry, and the sources of an entry ascend by block and id; each group's first entry follows its recorded parent or the entry before; missing parents are counted; and exactly one link of each loop is cut |
| `SessionEntries.SortAscends` | web/app/src/lib/transcript/session.ts:134 | the blocks of a message ascend by their index, then by id, whatever order they come in |
| `SessionEntries.BlockIsNumbered` | web/app/src/lib/transcript/session.ts:63-67 | a block without an index of its own is numbered by what its key has after the last colon, of any number of digits |
| `SessionEntries.BlockIsNot` | web/app/src/lib/transcript/session.ts:63-67 | and by its event id where the key does not end in a colon and digits |
| `SessionEntries.BlockOfMessage` | web/app/src/lib/transcript/session.ts:55-61 | keys of one message that differ in the block number only are of one group, unless a digest is their native key |
| `SessionEntries.OwnMessage` | web/app/src/lib/transcript/session.ts:55-61 | a key whose native part does not end so is of that very message |
| `SessionEntries.DigestMessage` | web/app/src/lib/transcript/session.ts:55-61 | and one with a digest for its native part is its own message, harness included |
| `SessionEntries.ShownAs` | web/app/src/lib/transcript/session.ts:143-176 | which kinds and roles of events are shown as user, system and assistant messages, as results and as notes |
| `SessionGroups.SpeakerIs` | web/app/src/lib/transcript/session.ts:120 | the event of a group whose parent the ordering reads is the first, as given, that names one, or else the first of all |
| `SessionGroups.GroupJoins` | web/app/src/lib/transcript/session.ts:93-99 | a group has the events of its message in the order they are given |
| `SessionGroups.KeysAreFirst` | web/app/src/lib/transcript/session.ts:93-99 | the messages come in the order of their first events |
| `Session.OneEntryEach` | web/app/src/lib/transcript/session.ts:300-320 | every event is a source of exactly one entry |
| `Session.RootsAre` | web/app/src/lib/transcript/session.ts:321-348 | an entry without a parent is the first one, or had a link of its loop cut |
| `Session.MissingCounts` | web/app/src/lib/transcript/session.ts:324-331 | a parent is counted as missing once for each message whose parent's message is named and neither it nor its event has an entry |
| `SessionLinks.FollowedIsLinks` | web/app/src/lib/transcript/session.ts:321-330 | which group follows which is what the events and their order say: the message answered if it is loaded, else the last group with an event so named, else the group before |
| `SessionLinks.CutExactlyLoops` | web/app/src/lib/transcript/session.ts:107-125 | a session loses a link if and only if the groups, told from the events and the sort alone, follow each other in a loop |
| `SessionLinks.GroupLoopIsCut` | web/app/src/lib/transcript/session.ts:331-348 | groups that follow each other in a loop lose exactly one link of it |
| `SessionLoops.AnswersMessage` | web/app/src/lib/transcript/session.ts:321-329 | a group that answers a loaded message follows that message's last entry |
| `SessionLoops.FollowsNamed` | web/app/src/lib/transcript/session.ts:312-329 | a group that names a loaded event by id, key or alias follows the entry that event is in, in the last group with such an event |
| `SessionLinks.NothingCut` | web/app/src/lib/transcript/session.ts:107-125 | when the parents the ordering sees have no loop and the linking finds no others, every group follows an earlier one and no link is lost |
| `SessionLinks.ForwardLinkLoops` | web/app/src/lib/transcript/session.ts:321-330 | a group linked to a later one makes a loop when the groups up to that one name no loaded parent |
| `SessionLinks.FoundByLinkLoops` | web/app/src/lib/transcript/session.ts:107-125 | any two messages of which the first sorted names the other in a way only the linking finds make a loop that no record has |
| `SessionLinks.AliasedParentLoops` | web/app/src/lib/transcript/session.ts:107-125 | two events, the child naming its parent by an alias, make a loop that no record has |
| `SessionLinks.MissingBlockLoops` | web/app/src/lib/transcript/session.ts:107-125 | so do two events of which the child names a block of its parent that is not loaded |
| `SessionLinks.SplitParentLoops` | web/app/src/lib/transcript/session.ts:107-133 | so do three of which two are one message and name different parents |
| `SessionLinks.UnseenLoopIsCut` | web/app/src/lib/transcript/session.ts:331-348 | and a session of such events loses a link |
| `Tree.CollectLeaves` | web/app/src/lib/transcript/tree.ts:70-77 | the explicit stack gives the leaves in the order of the recursion, left to right |
| `Tree.LeavesAre` | web/app/src/lib/transcript/tree.ts:70-77 | the leaves are the nodes without children |
| `Tree.ContainsMeets` | web/app/src/lib/transcript/tree.ts:131-150 | containsActive holds if and only if the subtree meets the active set |
| `Tree.FlattenTree` | web/app/src/lib/transcript/tree.ts:131-166 | the stack gives the recursive list, children with active entries first |
| `Tree.ShownIsPermutation` | web/app/src/lib/transcript/tree.ts:131-166 | the list is a permutation of all nodes |
| `Tree.ShownAllParentsFirst` | web/app/src/lib/transcript/tree.ts:131-166 | every listed node comes after its parent |
| `TreeShown.ShownAllIndents` | web/app/src/lib/transcript/tree.ts:156-164 | every listed node is indented once for each node with several children above it |
| `TreeShown.ChildrenInOrder` | web/app/src/lib/transcript/tree.ts:131-166 | at every node, each child stands with all below it in one piece; those with an active entry come first, and else as they are given |
| `TreeBuild.BuildTree` | web/app/src/lib/transcript/tree.ts:24-42 | the loop gives the entries without a known parent as roots, and every other one to its parent's children, in order |
| `TreeBuild.BuiltIsGrown` | web/app/src/lib/transcript/tree.ts:24-42 | on a forest, the nodes those child lists link up are one tree, the one grown from its roots |
| `TreeBuild.SessionTree` | web/app/src/lib/transcript/tree.ts:24-42 | whatever a session's records say, its nodes are one tree that holds each entry once |
| `TreeBuild.TreeHoldsAll` | web/app/src/lib/transcript/tree.ts:24-42 | the tree holds every entry exactly once |
| `TreeBuild.PathShownFirst` | web/app/src/lib/transcript/tree.ts:44-68 | with the path to a target active, the list starts with exactly that path |
| `Pi.OrderIds` | internal/normalize/pi.go:101-135 | each native id once, parent before child except one link of each cycle, one cycle warning for each cycle, and one warning for each entry whose parent is missing |
| `Pi.OrderPiEntries` | internal/normalize/pi.go:72-145 | on acyclic input each entry's model is that of the nearest model change at or above it; the warnings are those of the records and the graph, no more |
| `Pi.OrderIsOne` | internal/normalize/pi.go:72-135 | with unique ids the order does not depend on the order of the file |
| `Pi.SortedIs` | internal/normalize/pi.go:95-99 | and any ids can be sorted so |
| `Pi.ParentEmitted` | internal/normalize/pi.go:44-68 | every parent key names an emitted event, an earlier one where parents come first |
| `Pi.LinkEvents` | internal/normalize/pi.go:46-68 | the two passes list the events of the entries in order, and each names the event that comes first of those of its parent entry; none if that is absent or shows nothing |
| `Pi.EventsAreLinked` | internal/normalize/pi.go:46-68 | the same of the specification, by positions in the list |
| `Claude.ParentsAreEmitted` | internal/normalize/claude_cursor_agent.go:219-228 | every non-empty parent key names an emitted event |
| `Claude.ParentsAreEarlier` | internal/normalize/claude_cursor_agent.go:40-72 | with unique uuids and parents written before children, every parent is an earlier event, so the result is a forest |
| `ClaudeBranches.MessageHangs` | internal/normalize/claude_cursor_agent.go:40-215 | with unique uuids, every event of a message that is not all tool results hangs on the event of the nearest record shown at or above its recorded parent, moved on over the prompts and answers put after that event and to their end; one with nothing shown above it yet, on the nearest shown at all; and blocks behind an effort change on that |
| `ClaudeBranches.NoteHangs` | internal/normalize/claude_cursor_agent.go:96-106 | so does a note, at once |
| `ClaudeBranches.AnswerHangs` | internal/normalize/claude_cursor_agent.go:161-170 | an answer does too, but hangs on the end of the conversation when its own call is less than a thousand events above that |
| `ClaudeBranches.MessagesFork` | internal/normalize/claude_cursor_agent.go:40-215 | two messages that go back to one record after which nothing was put fork there, whatever was said in between |
| `ClaudeBranches.LateParent` | internal/normalize/claude_cursor_agent.go:214-228 | a block whose parent is shown only later ends with that record's key |
| `ClaudeBranches.MessageShows` | internal/normalize/claude_cursor_agent.go:176-218 | a message shows its known blocks once each and in order, under their own keys, behind its effort change if it has one |
| `ClaudeBranches.EffortShown` | internal/normalize/claude_cursor_agent.go:176-183 | which it has exactly when it is the assistant's and says another effort than the last of the assistant's messages before it that says one |
| `ClaudeBranches.PromptHangs` | internal/normalize/claude_cursor_agent.go:108-127 | a system prompt is shown exactly the first time it is sent, on the event of the nearest record shown at or above the end of the conversation then |
| `ClaudeChain.OneChain` | internal/normalize/claude_cursor_agent.go:161-170 | parallel tool results never fork: the first events of emitting records form one chain when each record is in line |
| `ClaudeChain.ChainExactly` | internal/normalize/claude_cursor_agent.go:40-72 | where records follow one another, results answer near calls and content is known, they form one chain if and only if no system prompt comes before the first message |
| `ClaudeChain.PromptFirstForks` | internal/normalize/claude_cursor_agent.go:40-72 | a system prompt before the first message leaves two roots |
| `Amp.NormalizeMessage` | internal/normalize/amp.go:99-185 | the loop with its ordinals and seen keys gives each block of a message its own id, or its number of its kind |
| `Amp.KeysAreDistinct` | internal/normalize/amp.go:173-182 | with unique message and block ids two blocks share a key if and only if the later is numbered with the id the earlier is keyed by |
| `Amp.KeysSurvive` | internal/normalize/amp.go:55-62 | inserting messages and deleting thinking blocks keeps another block's key if and only if its id is taken by a number in both exports or in neither; a block without an id always keeps it |
| `Amp.PlainKeysSurvive` | internal/normalize/amp.go:99-101 | when no block id is another block's number, keys are distinct and survive |
| `Amp.InsertedTakesKey` | internal/normalize/amp.go:173-182 | a message inserted before a block can take its key |
| `FileOrder.ChainInFileOrder` | internal/normalize/helpers.go:152-166 | in place, every event gets the parent of its key's first copy |
| `FileOrder.OneChain` | internal/normalize/helpers.go:146-166 | without recorded parents the keys form one chain in the order of their first copies |
| `FileOrder.CopiesAgree` | internal/normalize/helpers.go:149-166 | two copies of a record end with one parent |
| `Lineage.Up` | internal/store/transcript_cards.go:54-57 | the recursive query ends, even when links loop, with exactly the pairs of a trace and an ancestor |
| `Lineage.RootIsOne` | internal/store/transcript_cards.go:57-58 | a trace has at most one root, so joining it repeats no row |
| `Lineage.OwnCard` | internal/store/transcript_cards.go:50-58 | a trace keeps its own card if and only if its parent was never collected or its parents run into a loop |
| `Lineage.ListedWithParent` | internal/store/transcript_cards.go:50-58 | a child is listed with its parent if and only if the climb from it ends |
| `Cards.ReadPage` | internal/store/transcript_cards.go:143-214 | a page lists exactly the sessions with a matching row between its cursors, each by its own trace if that matched and else its earliest event; a page cut by the budget is past a whole card |
| `Cards.FollowedIsExact` | internal/store/transcript_cards.go:143-214 | following cursors lists every session with a matching row exactly once in (updated, id) order, in boundedly many pages |
| `Cards.ExactIsOne` | internal/store/transcript_cards.go:134-141 | the list is determined by the rows searched: statement, limits and budgets do not change a card |
| `Cards.CardsShow` | internal/store/transcript_cards.go:178-195 | a card names no child if and only if a row of the session's own trace matches, and shows the earliest event that does; else the trace and event of the earliest match |
| `SessionList.RowsAreUniform` | internal/store/transcript_cards.go:86-133 | the rows of every filter, by harness, model, role, kind, tool, time, machine and repository, are of real sessions: one update time each, one trace for each event |
| `CardSearch.SearchCards` | internal/store/transcript_cards.go:89-214 | after any run of the archive, an exact or safe regex search of the list, with any filter, by the index or not, lists each session with a matching text once, in card order |
| `CardSearch.IndexChangesNothing` | internal/store/transcript_cards.go:95-110 | whether the index is used does not change the list |
| `Activity.ReadActivity` | internal/store/activity.go:57-151 | harness counts add up to the sessions; each harness, model and day row counts exactly the sessions active there; the rest is without a model |
| `Activity.HarnessRowIsList` | internal/store/activity.go:13-24 | a harness row equals the number of cards listed for that harness and range |
| `Activity.ModelRowIsList` | internal/store/activity.go:13-24 | a model row equals the number of cards listed for that model and range |
| `Activity.SlotsKeepDays` | internal/store/activity.go:85-97 | rounding to 15 minutes keeps every local day if and only if the offset is a whole number of quarter hours |
| `RevisionDigest.DigestIsContent` | internal/archive/archive.go:31-40 | two revisions have one digest if and only if they have the same files, whatever order they are listed in |
| `ArchiveSplit.Write` | internal/archive/archive.go:96-141 | the greedy split keeps to the limit and uses the fewest archives of any split in order |
| `ArchiveSplit.EachTraceOnce` | internal/archive/archive.go:116-139 | every trace lands in exactly one archive |
| `Collector.Collect` | internal/collector/collector.go:103-164 | inputs are new or changed and once for each trace; anything else found is accepted as it is now or, if it can no longer be copied, as it was at its stamp, or reported as a repeat or a failed copy; a source unchanged since it was accepted is not read; a trace is called a repeat once less than it was described, a failed copy reported each time, what is passed on is the first of its trace, in order, and stamps are of what was described last |
| `Collector.FoundOnce` | internal/collector/collector.go:143-148 | a trace found once is never called a repeat |
| `CollectedArchives.EachInputOnce` | internal/collector/collector.go:177-195 | every input lands in exactly one archive, and no other archive has its trace |
| `Upload.ReadCompleteReport` | internal/collector/upload.go:128-167 | a report is returned if and only if the response is progress, then one report, then nothing |
| `Upload.ValidateOutcomes` | internal/collector/upload.go:181-212 | accepted if and only if there is exactly one outcome of known status for each trace of the archive, of its revision, and the totals count them |
| `Upload.AcksAre` | internal/collector/upload.go:169-179 | what is remembered for a trace is a digest the report accepted, or what was remembered before |
| `Upload.Config.UploadOne` | internal/collector/upload.go:58-74 | the state changes only for a complete, matching answer about this machine's archive |
| `Upload.LeftOutIsAccepted` | internal/collector/collector.go:103-156 | over all runs of collections, uploads and edits, a source is left out only when reported, or when the server accepted that trace with exactly its current digest, or that of its stamp, for this machine |
| `Upload.RepeatHasFirst` | internal/collector/collector.go:143-153 | a repeat is reported only beside an item of the same trace that was passed on or accepted |

## Left out

- The SQLite and FTS5 engines, real transactions, full-text matching (`search_words`) and the rendering of a query as FTS text.
- Tables hold the columns the logic reads; a subquery with ORDER BY and LIMIT is a choice among the rows that sort first.
- Session entries and tree nodes are values, not shared objects: aliasing between the entry list and the tree is not modelled.
- The rewriting of literals by `lowerFoldedLiterals` is a function on the expression, not in place.
- Invalid UTF-8, and anchors beyond where they may hold.
- Narrowing.LiteralNarrowingExact: says nothing of a literal over 512 characters whose first 512 come again in it; a run of one letter long enough is found in one chunk or the next although it is not safe.
- ArchiveSteps.CommitKeeps: a trace row keeps the repository root of its own descriptor; upsertRepository keeps the root first stored for a remote (internal/store/store.go:494), which shows in search text only.
- Times are compared as integers; the store compares their texts, so a clock reading without trailing zeros may sort differently within its second.
- ImportOrder.SameExactlyWhenAgreed: the imports' clock never goes back; says nothing of runs with rebuilds by a newer normalizer or deletes, of `sort_time`, of the trace title a normalizer fills in, and of event aliases.
- ArchiveRuns.RunLearns: assumes that normalizing one revision again gives the same events.
- SearchPlans.SearchAll: the filters of an event search are abstract predicates on traces, observations and revisions.
- CardSearch.SearchCards: the snapshot's parent links, machines and repositories are any that describe the archive's rows.
- Cards.ReadPage: titles, snippets, previews and counts on a card are not modelled; traces imported after the first page are outside the snapshot.
- Activity.ReadActivity: rows come in no particular order; `countSessions` sorts them largest first.
- Lineage.Up: the join on (harness, native id) is assumed unique, as the table declares, and native ids not empty, as validation demands.
- Collector.Collect: assumes that a source's stamp determines what describing it gives whenever that does not fail; progress reports, adapters and errors that end a collection are left out, except that it may stop after any adapter.
- ClaudeChain.ChainExactly: typed keys of different shapes are taken to be different strings.
- Amp.KeysSurvive: message ids are taken from protocolMessageID; legacy keys and aliases are not modelled.
- JSON decoding and text extraction: records come as typed values with the fields the logic reads.
- Object files: temporary files, fsync and permissions; a crash leaves at most a file that no row names.
- Snippets, markdown, highlighting, title generation, HTTP, CLI, ZIP reading and server configuration.
