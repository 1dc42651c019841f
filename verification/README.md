# AIWG core: a Dafny model

This project models seven independent cores of the AIWG tool chain and proves what each is for:

1. **The artifact index and its dependency graph.** The incremental build is a cache (stat, then checksum, then
   parse) that has to agree with a forced rebuild over any history of edits, crashes and lost index files; the graph
   is stored at both ends of every edge and has to stay its own transpose; the depth-bounded traversal is sound at any
   depth, and complete when no walk without repetition is longer than the bound.
2. **The debounced rebuild protocol** of the index watcher, as steps: file event, timer, build ends well, build fails.
3. **The circuit breaker** as a concurrent protocol of two critical sections per call, with stragglers and
   cancellations: its state is a function of the history of events.
4. **The activity log**: a printer and a parser with the civil calendar of ECMA-262 (section 21.4.1) between them,
   and append and rotate as conservation over runs.
5. **Printers and parsers that must undo each other**: the two-level YAML of the user configuration and the agent
   frontmatter, each with the exact condition under which a value survives.
6. **In-place editors**: Claude Code hook registration and its inverse, and `.gitignore` repair.
7. **The sentinel budget**: pre-checks and post-checks around a forwarded request, in any interleaving.

Code that works step by step (loops, objects with fields) is modelled by methods and classes, each proved against a
specification function; the laws are lemmas about those functions. `Collections`, `Text` and `CivilDate` hold what
several modules share.

So that a method and the function it is proved against cannot be wrong together, the main functions are also told from
their inputs by literals, counts and texts put together from their parts: in `BuiltEdges`, `Calendar`, `LogGrammar`,
`ConfigText`, `ConfigLines`, `AgentReading`, `HookFile` and `GitignoreText`, and in the lemmas whose names end in
`Exactly`.

## Conventions

- A file system is a map from paths to texts, or the text of the one file concerned; `None` stands for a missing or
  unreadable file. Clocks, checksums, frontmatter extraction, and whether a server is found or answers are parameters.
- JavaScript objects whose key order matters are sequences of properties with different keys.
- A TypeError or any other exception is a result (`None`, `Failed`, `ok == false`), not a precondition.

## Where the code does not do what one would expect

Each of these is proved, with the exact condition or a concrete input:

- `traverse` can hide a node that is near the start, because a node first reached at the cut-off is never expanded
  (`DepGraph.CutOffHidesNearNode`); the bound from which it is complete cannot be lowered (`DepGraph.DepthBoundIsSharp`);
  and more depth can list less (`DepthLoss.DeeperLosesNode`).
- An incremental build keeps dependents that no file mentions any more: all those of the builds since the file was last
  parsed (`IndexHistory.DependentsExactly`, `IndexHistory.DependentsAgreeExactly`, `IndexRefinement.StaleDependentOccurs`).
- The changes that a failed build took are lost: at rest everything observed has been indexed if and only if no build
  has failed (`Watcher.NoLostChange`, `Watcher.Ledger`).
- A failed build can also strand changes that came in while it ran, until the next file event
  (`Watcher.StrandedExactly`, `Watcher.StrandingOccurs`). That takes a file event between the start and the end of a
  build (`Watcher.UndisturbedIsNeverStranded`). `buildIndex` is declared async (src/artifacts/index-builder.ts:450) but
  awaits nothing, so no file event comes between the two as it stands; the protocol of the watcher allows for one.
- A half-open breaker whose trials are all cancelled stays shut for ever (`CircuitBreaker.StuckExactly`,
  `CircuitBreaker.StuckForever`, `CircuitBreaker.CancelledTrialJams`).
- Rotating the log drops entries whose years do not print as four digits (`LogConservation.RotationConservesIff`,
  `LogConservation.EarlyYearIsLost`).
- A rotation overwrites what other processes append between its read of the log and its rewrite
  (`LogInterleaving.NothingLostExactly`, `LogInterleaving.OverlappedAppendVanishes`); what the comments in
  src/activity-log/cli.ts:126-130 and 253-254 promise holds between appends, and after the rewrite.
- A reload turns a string shaped like a keyword, a number or a quotation into something else, exactly when it does not
  survive (`YamlExact.YamlRoundTripExactly`, `ConfigReload.SetReloadGetAny`); a key set to `~`, for one, is null after
  the next start (`ConfigReload.TildeIsReloadedAsNull`). A value with a line feed may even set another key
  (`ConfigBreak.SecondLineIsRead`).
- `appendGitignore` reports unknown patterns as added without writing them (`GitignoreRepair.PresentExactly`,
  `GitignoreRepair.NodeModulesIsUnknown`).
- Unregistering a namespace also takes the commands of any namespace that continues it after a blank, and those of a
  shorter namespace that it continues after a blank, where the subcommand goes on with the rest of its name and a blank
  (`HookRoundTrip.TakenExactly`, `HookRoundTrip.EntrySurvivesExactly`, `HookRoundTrip.BlankNamespacesOverlap`). Manifests
  may declare such namespaces: nothing checks them (src/cli/handlers/use.ts:1222-1236).
- Concurrent requests can exceed the budget, exactly when some method costs something, fits the limit once, and is let
  through by the guard often enough to exceed it (`BudgetLimit.LimitHoldsExactly`). The bound of
  `SentinelBudget.BudgetHolds` is reached for every limit that is a whole multiple of a price
  (`BudgetLimit.BoundIsReached`), but not for every limit: where all methods are free or cost the same,
  `BudgetLimit.WorstCaseExactly` gives the most that is ever recorded.

## Model

| member | source | states |
|---|---|---|
| DepGraph.Traverse | src/artifacts/dep-graph.ts:35-65 | the recursion over one shared, mutated visited set returns the trees, and leaves the set, that the traversal function gives |
| DepGraph.FlattenResults | src/artifacts/dep-graph.ts:88-95 | the recursive push-and-deduplicate loop computes the flattened listing |
| DepGraph.FlattenExact | src/artifacts/dep-graph.ts:88-95 | on trees without repeated paths, flattening drops nothing: it lists every node of every tree, in order |
| DepGraph.ShowDeps | src/artifacts/dep-graph.ts:138-152 | one direction of the command: the listing for a known artifact, a refusal for an unknown one |
| GraphQuery.FollowedExactly | src/artifacts/dep-graph.ts:51-56 | which edges a traversal follows: those on its side whose type is the one asked for, if any; an old edge without a type is a mention |
| DepGraph.ListingSound | src/artifacts/dep-graph.ts:35-65 | at every depth bound, for every graph: each listed node is the end of a walk of exactly its recorded depth, between 1 and the bound; no node is listed twice, the start never is, every child is one edge below its parent, and the count equals the number of tree nodes |
| DepGraph.ListedWithin | src/artifacts/dep-graph.ts:44-61 | what is listed is within the depth bound of the start |
| DepGraph.VisitExpands | src/artifacts/dep-graph.ts:44-65 | every node a call visits is also expanded when no walk without repetition from the start is longer than the bound: the chain of calls is such a walk, so it meets the cut-off only where all neighbours are visited |
| DepGraph.TraversalIsReachability | src/artifacts/dep-graph.ts:35-65 | when no walk without repetition from the start has more than maxDepth edges, the traversal lists exactly the nodes reachable from the start, each once, without the start; cycles and absent nodes included |
| DepGraph.ReachSetBoundsWalks | src/artifacts/dep-graph.ts:44 | the number of other reachable nodes is always such a bound |
| DepGraph.ListingComplete | src/artifacts/dep-graph.ts:35-65 | the same for the flattened listing of a stored graph, either direction, any edge type |
| DepGraph.DepthBoundIsSharp | src/artifacts/dep-graph.ts:44 | for every size there is a graph where a bound smaller by one misses a reachable node |
| DepGraph.CutOffHidesNearNode | src/artifacts/dep-graph.ts:44-58 | in a stored graph of any four different paths a node is two edges from the start and yet not in the listing at maxDepth two, because a longer path reached its neighbour first |
| DepthLoss.DeeperLosesNode | src/artifacts/dep-graph.ts:35-65 | at every depth bound from 2 on there is a graph with a node two edges from the start that is listed at that bound and not at the next |
| IndexBuilder.ScanOne | src/artifacts/index-builder.ts:568-644 | one file: skipped on its stat, skipped on its checksum, or parsed again |
| IndexBuilder.Scan | src/artifacts/index-builder.ts:542-655 | the incremental loop: entries, manifest, key order and counters of the whole listing |
| IndexGraph.BuildTagIndex | src/artifacts/index-builder.ts:662-668 | the nested loops compute the tag index of the entries |
| IndexGraph.TaggedIffCarried | src/artifacts/index-builder.ts:662-668 | a path is listed under a tag exactly when its entry carries the tag |
| IndexGraph.BuildDependencyGraph | src/artifacts/index-builder.ts:670-697 | the nested loops store every resolved mention at both of its ends and push the source onto the target's dependents |
| IndexGraph.LinkStored | src/artifacts/index-builder.ts:681-689 | the two pushes of one link keep a graph that stores a list of links storing that list with the link, in either order of the pushes |
| IndexGraph.BuildRefToPathMap | src/artifacts/citation-parser.ts:188-199 | the loop computes the map from identifiers to files of which RefIsLastCarrier says what it holds |
| IndexGraph.RefIsLastCarrier | src/artifacts/citation-parser.ts:188-199 | an identifier is a key of that map exactly when some listed file carries it, and its value is the last such file |
| IndexGraph.CitationResultToEdges | src/artifacts/citation-parser.ts:153-177 | the two edge lists are the citation links of the sidecar from and to its file, of which CitationEdgesExactly says which they are; unresolved identifiers give no edge, and every edge ends at a known file |
| IndexGraph.AddCitationEdges | src/artifacts/index-builder.ts:699-755 | the citation pass adds exactly the sidecars' links, each with its reciprocal, and no node |
| BuiltEdges.CitationEdgesExactly | src/artifacts/citation-parser.ts:153-199 | the graph of a build with sidecars, forced or incremental: upstream of a file stand as many `cites` edges to another as its sidecar cites identifiers of which that one is the last carrier, downstream as many `cited-by` edges as it names identifiers that cite it; and as many at the other ends |
| BuiltEdges.MentionEdgesExactly | src/artifacts/index-builder.ts:670-697 | after any history, incremental or forced: upstream of a file stand as many `depends-on` edges to another as there are mentions in its present content whose first match that one is, and as many at the other end |
| BuiltEdges.ResolvesToFirst | src/artifacts/index-builder.ts:676-681 | a mention resolves to the first listed file whose path ends with it, and to none if there is no such file |
| BuiltEdges.NoOtherEdges | src/artifacts/index-builder.ts:670-755 | no other edge is built: every one is of these three types and ends at a listed file, without sidecars there are only mentions, and no file mentions itself |
| BuiltEdges.MentionersExactly | src/artifacts/index-builder.ts:670-697 | the files that mention a file are the other listed ones with a mention whose first match it is |
| IndexRefinement.BuildIndex | src/artifacts/index-builder.ts:542-760 | the whole build: scan, tags, dependency edges, citation edges and deduplicated dependents, as one function of store and files |
| IndexRefinement.DeduplicateDependents | src/artifacts/index-builder.ts:757-760 | the in-place loop deduplicates every entry's dependents once, and changes nothing else |
| IndexRefinement.ScanFileIsParse | src/artifacts/index-builder.ts:572-643 | with a trustworthy store, whichever of the three ways a file is handled, its entry holds what parsing its present content gives |
| IndexRefinement.BuildKeepsTrust | src/artifacts/index-builder.ts:542-787 | a build leaves index and manifest trustworthy, each on its own, so that a crash between the two writes does no harm |
| IndexRefinement.HistoryTrusted | src/artifacts/index-builder.ts:509-787 | after any run of edits, deletions, complete and interrupted builds, and losses of either file, the store is trustworthy |
| IndexRefinement.IncrementalRefinesForced | src/artifacts/index-builder.ts:542-697 | after any such run, an incremental build of the files at hand gives the same content-derived entry fields, tag index and dependency graph as a forced build |
| IndexRefinement.DependentsAccumulate | src/artifacts/index-builder.ts:575-760 | dependents are a duplicate-free superset of the forced build's: exactly those together with the ones carried over by reuse; equal exactly when nothing carried over is stale |
| IndexRefinement.StaleDependent | src/artifacts/index-builder.ts:578-693 | a carried-over dependent of a file that nothing mentions any more stays in the incremental index, while a forced build finds none |
| IndexRefinement.StaleDependentOccurs | src/artifacts/index-builder.ts:575-694 | two concrete files, one build and one edit after which the incremental index holds a stale dependent |
| IndexHistory.HistoryRecorded | src/artifacts/index-builder.ts:509-787 | after any run of edits, builds, crashes and losses: a file has a stored entry exactly when some build wrote one that has lasted, with the fields of the content it had then, and as dependents the files that mentioned it at any build from which the entry has lasted |
| IndexHistory.DependentsExactly | src/artifacts/index-builder.ts:575-760 | after any such run, an incremental build lists as dependents of a file exactly those that mention it now and those that mentioned it at an earlier build from which its entry has lasted, with the content it still has |
| IndexHistory.DependentsAgreeExactly | src/artifacts/index-builder.ts:575-760 | these are the dependents of a forced build exactly when no file so carried over has stopped mentioning it |
| IndexRefinement.SecondBuildReadsNothing | src/artifacts/index-builder.ts:570-584 | a second build with nothing changed skips every file on its stat (together with src/artifacts/checksum-manifest.ts:46-52, 97-100) |
| IndexRefinement.CountsAddUp | src/artifacts/index-builder.ts:519-654 | every file is counted once by how it was handled and once by what became of its entry |
| IndexRefinement.CountsExactly | src/artifacts/index-builder.ts:568-654 | each counter is the number of listed files handled in its way: stat and checksum as stored, checksum as stored, or neither, with and without an entry before |
| IndexRefinement.StampsOfEntry | src/artifacts/index-builder.ts:572-644 | `created` and `updated` of an entry are those stored as long as it is reused, and else the date in the frontmatter, or that of the file, and the time of the file |
| GraphQuery.TotalsAreLinks | src/artifacts/index-builder.ts:670-792 | the number of upstream edges and of downstream edges both equal the number of links stored |
| GraphQuery.StoredTranspose | src/artifacts/index-builder.ts:670-755 | with multiplicities, a lists b upstream as often as b lists a downstream, per edge type; all endpoints are keys; edge totals agree |
| GraphQuery.BuildStoresBothEnds | src/artifacts/index-builder.ts:450-787 | the graph of every build, forced or incremental, with or without citations, is of that kind |
| GraphQuery.GetNeighbors | src/artifacts/graph-query.ts:55-85 | each neighbour once: exactly the targets of the matching edges on the sides asked for |
| GraphQuery.NeighborDuality | src/artifacts/graph-query.ts:55-85 | x is an `in` neighbour of y exactly when y is an `out` neighbour of x, for every edge type |
| GraphQuery.SetIntersection | src/artifacts/graph-query.ts:113-116 | exactly the common elements, without new repetition |
| GraphQuery.SetDifference | src/artifacts/graph-query.ts:128-131 | exactly the elements of the first list that are not in the second |
| GraphQuery.SetUnion | src/artifacts/graph-query.ts:121-123 | exactly the elements of either list, each once |
| GraphQuery.ReachDuality | src/artifacts/index-builder.ts:670-755 | b is reachable downstream from a exactly when a is reachable upstream from b (together with src/artifacts/dep-graph.ts:35-65) |
| GraphQuery.ImpactDuality | src/artifacts/index-builder.ts:670-755 | in a built graph, for any edge type and bounds that no walk without repetition exceeds, down from a and up from b, b is in the downstream listing of a exactly when a is in the upstream listing of b (together with src/artifacts/dep-graph.ts:35-65) |
| Watcher.Rebuilder.FileEvent | src/artifacts/watcher.ts:199-214 | an add, change or unlink event: one more pending change, and the timer is armed anew |
| Watcher.Rebuilder.TriggerRebuild | src/artifacts/watcher.ts:144-154 | starts a build with all pending changes unless one is running or nothing is pending |
| Watcher.Rebuilder.TimerFires | src/artifacts/watcher.ts:177-182 | the timer is disarmed before the build is triggered |
| Watcher.Rebuilder.BuildSucceeded | src/artifacts/watcher.ts:163-169 | the build ends, and another is scheduled when changes came in meanwhile |
| Watcher.Rebuilder.BuildFailed | src/artifacts/watcher.ts:170-174 | the build ends and nothing is scheduled |
| Watcher.Ledger | src/artifacts/watcher.ts:139-218 | over every run: at most one build at a time; changes observed are pending, in the running build, indexed, or dropped by a failed build; some have been dropped exactly when a build has failed; an armed timer implies pending changes |
| Watcher.StrandedExactly | src/artifacts/watcher.ts:163-174 | pending changes without timer or build occur exactly just after a failed build that met pending changes with no timer armed |
| Watcher.StrandingOccurs | src/artifacts/watcher.ts:145-174 | a concrete run that strands a change: it comes while a build runs, the timer fires meanwhile, and the build fails |
| Watcher.UndisturbedIsNeverStranded | src/artifacts/watcher.ts:139-218 | in every run in which no change comes while a build runs, failures included, pending changes always have an armed timer |
| Watcher.NoLostChange | src/artifacts/watcher.ts:139-218 | at rest, every change has been indexed if and only if no build has failed, and the rest is what failed builds took and what is stranded; without failures pending changes imply an armed timer or a running build |
| Watcher.PendingIsUnstarted | src/artifacts/watcher.ts:152-213 | in every run nothing is pending exactly when no change came after the last start of a build |
| Watcher.LastBuildSeesLastChange | src/artifacts/watcher.ts:139-218 | at rest, the last build started after the last change exactly when nothing is stranded, as after every run without failures |
| Watcher.SettlesDown | src/artifacts/watcher.ts:139-183 | after the last change at most four more steps happen and at most one more build starts |
| Watcher.CanMove | src/artifacts/watcher.ts:144-183 | a run can be continued without a further change, by an event not before its last one, exactly as long as the watcher is not at rest |
| Watcher.TimerIsDue | src/artifacts/watcher.ts:163-183 | in every run, the timer is armed for a time exactly when that is the debounce time after the last event that armed it, a change or a build that ended well with changes waiting, and no timer has gone off since |
| Watcher.BurstsAreBatched | src/artifacts/watcher.ts:177-183 | no build starts within the debounce window of a change seen before it |
| CircuitBreaker.Breaker.Enter | cybernetics/circuit/breaker.py:36-49 | the first critical section: who is admitted, and the fields after it |
| CircuitBreaker.Breaker.ReportSuccess | cybernetics/circuit/breaker.py:53-56 | a success closes the circuit and forgets the failures |
| CircuitBreaker.Breaker.ReportFailure | cybernetics/circuit/breaker.py:59-64 | a failure is counted and timed, and opens the circuit at the threshold |
| CircuitBreaker.StateIsHistory | cybernetics/circuit/breaker.py:35-65 | under every interleaving, stragglers and cancellations included: the count is the number of failed completions since the last success, the time that of the last of them, the state CLOSED exactly below the threshold, HALF_OPEN exactly when an attempt came late enough since the last completion |
| CircuitBreaker.NoEarlyAdmission | cybernetics/circuit/breaker.py:37-43 | no call is admitted by a tripped breaker before the recovery timeout has passed since the last failure |
| CircuitBreaker.AdmittedExactly | cybernetics/circuit/breaker.py:36-49 | a call is admitted exactly when the breaker is not tripped, or trials may run and fewer than the maximum were admitted since the last completion; a failure time of zero counts as none |
| CircuitBreaker.SlotsAreAdmissions | cybernetics/circuit/breaker.py:40-49 | the slot counter equals the trials admitted since the last completion |
| CircuitBreaker.HalfOpenSlots | cybernetics/circuit/breaker.py:36-65 | in HALF_OPEN the slot counter is the number of this epoch's trials in flight and of those cancelled, and never exceeds the maximum |
| CircuitBreaker.StuckExactly | cybernetics/circuit/breaker.py:45-65 | all slots used with nothing in flight happens exactly when the cancelled trials of the epoch fill the slots |
| CircuitBreaker.NeverStuckWithoutCancellation | cybernetics/circuit/breaker.py:45-65 | without cancellations the breaker is never stuck |
| CircuitBreaker.StuckForever | cybernetics/circuit/breaker.py:37-49 | once stuck, no further event changes anything and no call is ever admitted |
| CircuitBreaker.CancelledTrialJams | cybernetics/circuit/breaker.py:45-65 | a concrete run that gets stuck |
| CivilDate.FieldsMakeDay | src/activity-log/types.ts:59-66 | year, month and day of any time, put back together, give its day, leap years included |
| CivilDate.MakeDayFields | src/activity-log/parser.ts:57-64 | every calendar date is read back from the time it makes |
| CivilDate.DateUTCInverts | src/activity-log/types.ts:59-66 | `Date.UTC` undoes the UTC accessors up to the minute, from the year 100 on (together with src/activity-log/parser.ts:61) |
| CivilDate.FourDigitYearsInRange | src/activity-log/parser.ts:58-62 | no stamp the expression matches is rejected for its time, months and days out of range included |
| Calendar.DayAfter | src/activity-log/types.ts:59-66 | a day after any time is the next date: of the same month, else the first of the next, else the first of the next year; months of 31, 30 and 28 days, 29 in the leap years of the Gregorian rule |
| Calendar.MinuteAfter | src/activity-log/types.ts:59-66 | and a minute after it is the next minute, hour or day |
| Calendar.InstantsArePrinted | src/activity-log/types.ts:59-66 | the epoch prints as `1970-01-01 00:00`, and an instant on a leap day as `2024-02-29 12:34` |
| Calendar.MonthsCarry | src/activity-log/parser.ts:57-64 | a stamp whose month is past December is of the next year; minutes, hours and days past their end carry over likewise (Calendar.MinutesCarry, Calendar.HoursCarry, Calendar.DaysCarry) |
| Calendar.EntryIsPrinted | src/activity-log/types.ts:51-54 | the printed entry, letter by letter, at the epoch |
| Calendar.ArchiveIsNamed | src/activity-log/cli.ts:232-234 | the path of an archive, letter by letter, at one instant, unless another is asked for |
| LogLine.TimestampRoundTrip | src/activity-log/types.ts:59-66 | for every valid time the printed stamp reads back as the time cut to the minute if the year has four digits, and does not read otherwise (together with src/activity-log/parser.ts:57-64) |
| LogLine.SummaryReadsBack | src/activity-log/parser.ts:23 | a summary is read back exactly when it has no line terminator and is trimmed, or is a single white-space character other than those |
| LogLine.LineRoundTrip | src/activity-log/types.ts:51-66 | for every valid time, operation and summary: parsing the printed entry gives back operation, summary and the time cut to the minute if and only if the year has four digits and the summary survives (together with src/activity-log/parser.ts:23-37) |
| LogGrammar.ParsesExactly | src/activity-log/parser.ts:18-64 | which lines are entries, and of what, for every line and every entry whose summary is not white space: the grammar in full, with the nine operations |
| ActivityLog.ParseLog | src/activity-log/parser.ts:43-51 | the loop collects the entries of exactly the lines that parse, the text of their stamps included, in order |
| ActivityLog.ParsedIsWellFormed | src/activity-log/parser.ts:29-37 | whatever parses has a known operation, a summary that survives, and a valid time on the minute |
| ActivityLog.PrintedRecord | src/activity-log/types.ts:51-54 | a parsed record prints as one line, which holds that record exactly when its year has four digits (together with src/activity-log/parser.ts:29-51) |
| ActivityLog.BodyContents | src/activity-log/cli.ts:245-251 | a rewritten body holds exactly its printable records, in order |
| ActivityLog.SortSorts | src/activity-log/cli.ts:223 | the stable sort orders by time and keeps every record |
| ActivityLog.SortIsStable | src/activity-log/cli.ts:223 | records of equal time keep their order |
| ActivityLog.SplitForRotation | src/activity-log/cli.ts:309-335 | the three cases of the split, the loop included |
| ActivityLog.SplitExactly | src/activity-log/cli.ts:309-335 | the split cuts the sorted log in two: everything is archived, or all but the last n, or just what is older than the time given |
| ActivityLog.SplitIsPartition | src/activity-log/cli.ts:309-335 | the split loses and invents nothing, archives the older side, and keeps as many, or as recent ones, as asked |
| LogRotation.HandleAppend | src/activity-log/cli.ts:94-147 | the refusals in order, the opt-out, and otherwise the entry on a line of its own, with either kind of backend |
| LogRotation.OutcomeExactly | src/activity-log/cli.ts:94-121 | each result of an append by its input: too few arguments, no known operation, nothing but white space for a summary, opted out, and else the entry of the trimmed summary |
| LogRotation.AppendExactly | src/activity-log/cli.ts:94-147 | from the arguments alone: an accepted one-line entry is the one record by which the log grows, at its end; a refused or opted-out one changes nothing; no other file ever changes |
| LogRotation.WithLineContents | src/activity-log/cli.ts:131-144 | whatever the log held and whether or not it ended its last line, its entries stay and the line's come after them |
| LogRotation.AppendedRecord | src/activity-log/cli.ts:101-124 | an accepted entry is one record, itself, exactly when its summary has no line terminator |
| LogRotation.HandleRotate | src/activity-log/cli.ts:210-276 | the refusals in order, and the files after each of the three writes |
| LogRotation.RotatesExactly | src/activity-log/cli.ts:210-243 | each result of a rotation by its input, and how many records it archives |
| LogConservation.PlannedHalves | src/activity-log/cli.ts:213-243 | kept and archived records together are those of the live log, the archived ones older, and the archive path is new |
| LogConservation.RotationExactly | src/activity-log/cli.ts:210-276 | one rotation of any storage: the records of all files lose exactly the live records whose years do not print as four digits, and gain what the rotation's own line holds |
| LogConservation.RotationConservesIff | src/activity-log/cli.ts:210-276 | nothing is lost exactly when every live record has a four-digit year |
| LogConservation.RotatedFiles | src/activity-log/cli.ts:245-271 | what each file holds after a rotation: the older part of the sorted log in the archive, the rest and the record of the rotation in the log, every other file as it was |
| LogConservation.NeverAbsent | src/activity-log/cli.ts:245-271 | after each of the three writes every printable record is in one of the files |
| LogConservation.CommandConserves | src/activity-log/cli.ts:94-276 | one append or rotation adds its own record, told from its input, to the multiset of all records and keeps the others |
| LogConservation.RunsConserve | src/activity-log/cli.ts:94-335 | over every run of appends and rotations, the records of live log and archives are the initial ones, one per accepted entry, told from its arguments, and one per rotation |
| LogConservation.EarlyYearIsLost | src/activity-log/types.ts:60 | a line of the year 999 is read as an entry whose rewritten line is not (together with src/activity-log/cli.ts:246-250) |
| LogInterleaving.StepsAreRotation | src/activity-log/cli.ts:210-276 | with nothing in between, the read and the three writes are the rotation |
| LogInterleaving.OverlappedAppendVanishes | src/activity-log/cli.ts:213-251 | an append between the read and the rewrite leaves no trace in the files |
| LogInterleaving.LossLedger | src/activity-log/cli.ts:94-276 | over every run of appends, rotation steps and crashes, the records of all files are the initial ones and those added, with the archived ones that still stand in the log too, less those overwritten: per rewrite the appends not read and the unprintable entries read |
| LogInterleaving.NothingLostExactly | src/activity-log/cli.ts:94-276 | such a run loses nothing exactly when no rotation rewrites a log that has grown since it was read, or that held entries whose years do not print as four digits |
| SimpleYaml.ParseYamlSimple | src/config/user-config.ts:369-407 | the loop over lines with its current section computes the reader; a value written into a section that is no object fails |
| ConfigLines.PairExactly | src/config/user-config.ts:380-386 | which trimmed lines are pairs, and of which key and value |
| ConfigLines.SkippedLine | src/config/user-config.ts:373-383 | a line of white space, a comment, or a line without a colon or with nothing before it, may stand anywhere without effect |
| ConfigLines.OneBlankIsIgnored | src/config/user-config.ts:387-403 | a pair behind one blank is ignored |
| ConfigLines.DeeperIsAlike | src/config/user-config.ts:399-403 | two blanks and more mean the same |
| ConfigLines.AfterValue | src/config/user-config.ts:387-403 | an indented pair is ignored after a value at the top level (and at the beginning, ConfigLines.BeforeSections) |
| ConfigLines.BrokenSection | src/config/user-config.ts:387-403 | a section under the name of a plain value makes the file unreadable |
| SimpleYaml.SerializeYamlSimple | src/config/user-config.ts:425-445 | the recursive printer, line by line |
| ConfigLines.PrintedScalars | src/config/user-config.ts:430-441 | the line printed for each kind of value, and when a string is quoted |
| ConfigLines.PrintedOrder | src/config/user-config.ts:425-445 | lines stand in the order of the keys, those of a section two blanks in under its name |
| ConfigLines.DefaultsAreWritten | src/config/user-config.ts:67-81 | the file of the defaults, line by line, and that it is read as the defaults (together with src/config/user-config.ts:425-445) |
| YamlRoundTrip.ReadPrintedLine | src/config/user-config.ts:373-441 | a printed line is read as its key, its trimmed value and its indentation |
| YamlRoundTrip.ReadConfig | src/config/user-config.ts:369-445 | for any scalar reader and printer, a printed two-level configuration is read with its keys in order and each value replaced by what its own text reads as |
| YamlExact.NestedExactly | src/config/user-config.ts:409-441 | a scalar is read back as itself exactly when it is a boolean, an integer, or a string without line terminators that is quoted by the printer, or trimmed and shaped like no keyword, number or quotation |
| YamlExact.ParsedIsClean | src/config/user-config.ts:373-405 | no text is ever read into a string with a line terminator |
| YamlExact.YamlRoundTripExactly | src/config/user-config.ts:369-445 | a configuration of at most two levels with well-formed keys is read back from its print, keys in order, if and only if every scalar survives |
| UserConfig.GetAfterSet | src/config/user-config.ts:451-478 | a key of any depth reads back the value just set, whatever was in its way |
| UserConfig.SetKeepsOthers | src/config/user-config.ts:451-478 | every key that is neither a prefix nor an extension of the one set reads as before, at any depth |
| UserConfig.Config.LoadConfig | src/config/user-config.ts:309-337 | the cache, else the file merged over the defaults section by section, else the defaults |
| ConfigLines.LoadedInSection | src/config/user-config.ts:317-325 | in the three sections a load reads what the file holds under the key, and else the default |
| ConfigLines.LoadedTop | src/config/user-config.ts:317-325 | outside them likewise, key by key |
| ConfigLines.StringForSection | src/config/user-config.ts:317-325 | a section that the file holds as a string is loaded as its characters, by index |
| UserConfig.Config.Read | src/config/user-config.ts:151-154 | the value at the dotted key in the current configuration, which it leaves as it was |
| UserConfig.Config.Set | src/config/user-config.ts:159-347 | cache and file after a setting |
| ConfigText.TypedExactly | src/config/user-config.ts:480-487 | what any typed text means: the words true, false and null, a whole number, a decimal kept as its text, and else the text itself, quotes and blanks kept |
| ConfigText.TypedNumber | src/config/user-config.ts:484 | every run of digits is the number it spells, whatever zeros it begins with, and negated behind a minus sign |
| ConfigText.TextGivesValue | src/config/user-config.ts:480-487 | typing the text of a value gives the value, exactly when it is no string that spells a keyword or a number |
| ConfigText.ScalarExactly | src/config/user-config.ts:409-420 | a text in the file means what it means when typed, but for a tilde and for quotes, which QuotedScalar takes off |
| ConfigText.QuotedScalar | src/config/user-config.ts:415-418 | quotes of either kind are taken off once, whatever is between them |
| ConfigText.SetText | src/config/user-config.ts:159-165 | a value set by its text under a key of any depth is that value in memory |
| ConfigText.SetTextReload | src/config/user-config.ts:159-347 | and, from any file without fractional numbers, under a two-segment key it is what a fresh load reads exactly when it survives |
| ConfigText.SwitchesAndNumbers | src/config/user-config.ts:159-347 | the texts true, false and of any whole number, set under such a key, are read by a fresh load as just that |
| ConfigPersistence.LoadedIsShaped | src/config/user-config.ts:317-336 | whatever the file holds, what is loaded begins with the default keys in order and has the three default sections |
| ConfigPersistence.SetReloadGet | src/config/user-config.ts:159-487 | from a file whose configuration survives, a safe two-segment setting followed by a fresh load gives the configuration that was in memory; the key reads the parsed value and unrelated keys read as before |
| ConfigPersistence.TwoSegments | src/config/user-config.ts:452 | a dotted key of two dot-free segments splits into just those |
| ConfigPersistence.RestartsAreInvisible | src/config/user-config.ts:121-347 | over any run of safe settings and restarts, what a process sees is what it would see had the settings only been made in memory |
| ConfigPersistence.DefaultsAreGood | src/config/user-config.ts:67-81 | the defaults survive, so runs may start from no file |
| ConfigReload.ParsedIsLayered | src/config/user-config.ts:369-407 | whatever the text, the reader yields at most two levels, with well-formed and different keys |
| ConfigReload.SaveAndLoad | src/config/user-config.ts:309-445 | saving and loading any loaded configuration without fractional numbers rereads every value where it stands, and is the identity exactly when every scalar survives |
| ConfigReload.SetReloadGetAny | src/config/user-config.ts:159-478 | from any file without fractional numbers, and for any setting of a two-segment key to anything but a fractional number: a fresh load reads the value back if and only if it survives; and, if the value set has no line terminator, reads any other two-segment key as before if and only if it had no value or one that survives |
| ConfigReload.TildeIsReloadedAsNull | src/config/user-config.ts:409-414 | from any such file, any two-segment key set to `~` holds that string in memory and null after a reload (together with src/config/user-config.ts:425-445, 480-487) |
| ConfigBreak.SecondLineIsRead | src/config/user-config.ts:159-445 | a new two-segment key set to a value that goes on, after a line feed, with a line of the form of another new key: a fresh load reads both keys, one with each line of the value |
| ConfigBreak.OthersBesideSecondLine | src/config/user-config.ts:159-445 | and every other two-segment key as before if and only if it had no value or one that survives |
| AgentFormat.ConvertToClaudeFormat | src/agents/agent-packager.ts:54-90 | the printer's pushes, as one function of metadata and body |
| AgentDeployment.WrittenLines | src/agents/agent-packager.ts:54-90 | the lines of an agent's file in order: seven keys, of which all but the first two are left out when missing or empty |
| AgentFormat.ParseFrontmatter | src/agents/agent-deployer.ts:259-302 | the reader: the frontmatter expression with its backtracking, and the loop over its lines |
| AgentReading.FrontExactly | src/agents/agent-deployer.ts:259-266 | the span between the fences, for every text: it opens at the last line break of the white space behind the first dashes behind which some fence still follows, and ends at the first such fence |
| AgentReading.LineExactly | src/agents/agent-deployer.ts:268-273 | which lines are pairs: a word, a colon, white space or none, and something on the same line, which is trimmed |
| AgentReading.FieldsExactly | src/agents/agent-deployer.ts:268-299 | each field is set by the last pair with its name; the two lists are cut at their commas and trimmed |
| AgentReading.ReadExactly | src/agents/agent-deployer.ts:259-302 | what is read is those fields of the lines in that span, and nothing where there is none |
| AgentReading.BodyExactly | src/agents/agent-deployer.ts:306-309 | the body is what follows the closing fence, trimmed, and the whole text where there is none |
| AgentRoundTrip.ListReadsBack | src/agents/agent-packager.ts:68-80 | a printed list comes back with each item cut at its commas and trimmed (together with src/agents/agent-deployer.ts:292-297) |
| AgentRoundTrip.PrintedReadsBack | src/agents/agent-packager.ts:54-90 | for all metadata without line terminators: every text comes back trimmed, lists as above, empty optional fields not at all, missing name or description as `undefined`; and stripping gives the trimmed body (together with src/agents/agent-deployer.ts:259-310) |
| AgentRoundTrip.ParsedIsClean | src/agents/agent-deployer.ts:259-302 | whatever the text, the reader yields trimmed single-line texts and non-empty lists of trimmed, comma-free items |
| AgentRoundTrip.RoundTripExactly | src/agents/agent-packager.ts:54-90 | for all metadata and bodies: parsing the print gives the metadata back if and only if it is clean, has name and description, and no optional text is empty (together with src/agents/agent-deployer.ts:259-302) |
| AgentRoundTrip.ReloadExactly | src/agents/agent-packager.ts:54-90 | an agent loaded from any file, printed and loaded again is the same agent exactly when it has a description, no empty optional text, and a trimmed body (together with src/agents/agent-deployer.ts:230-310) |
| AgentDeployment.Deployer.DeployAgent | src/agents/agent-deployer.ts:342-384 | a file is replaced only with force, and a dry run writes nothing |
| AgentDeployment.FilesAfter | src/agents/agent-deployer.ts:342-384 | which files there are after a deployment: those there were and, outside a dry run, one for the name of each agent |
| AgentDeployment.Deployer.Deploy | src/agents/agent-deployer.ts:98-116 | the loop over agents: final files, and the agents shared out between deployed and skipped, as counted; every skipped agent's file exists |
| AgentDeployment.Deployer.GetInstalledVersion | src/agents/agent-deployer.ts:454-473 | the truthy version of the installed file, if there is one |
| AgentDeployment.FileIsWinners | src/agents/agent-deployer.ts:98-384 | each file ends as the print of the last agent of its name with force, of the first without, unless it existed |
| AgentDeployment.InstalledIsDeployed | src/agents/agent-deployer.ts:98-473 | the version read back under a name is that of the agent that won its file, trimmed, or none if nothing is left of it, or the one installed before when it was refused or the run was dry |
| HookSettings.NormalizeClaudeHooks | src/cli/cli-extension-loader.ts:214-228 | the migration loop computes the migration of which MigratedGroups says what each event receives; the object form stays, anything else is empty |
| HookSettings.MigratedGroups | src/cli/cli-extension-loader.ts:214-228 | migration puts under each event exactly the array items with that matcher and a hooks array, in order and without their matcher, and makes no other event |
| HookSettings.SettingsFile.RegisterHooks | src/cli/cli-extension-loader.ts:243-293 | the file after registering, the notices returned, and that no event name occurs twice |
| HookSettings.SettingsFile.UnregisterHooks | src/cli/cli-extension-loader.ts:304-345 | the file after unregistering and the number returned, or the exception on a malformed group, in which case nothing is written |
| HookFile.OthersAreKept | src/cli/cli-extension-loader.ts:243-345 | both calls write back every other field of the settings as it was |
| HookFile.MissingFile | src/cli/cli-extension-loader.ts:249-345 | without a file there is one afterwards exactly when some subcommand asks for one of the five events; unregistering makes none |
| HookFile.RegisteredInFile | src/cli/cli-extension-loader.ts:182-292 | under every event, in either form of the file: the groups that stood there, and behind them one without matcher for each command that a subcommand asks for there and that no group had yet; the file is as it was or has its hooks in the new form |
| HookFile.RegisteredLiterally | src/cli/cli-extension-loader.ts:263-285 | one subcommand on an empty project: the settings and the notice, letter by letter |
| HookFile.UnregisteredInFile | src/cli/cli-extension-loader.ts:304-343 | an entry stands in the file afterwards exactly when it stood there and its command does not begin with the namespace's |
| HookRoundTrip.UnregisterExactly | src/cli/cli-extension-loader.ts:324-343 | exactly the entries whose command has the namespace's prefix go, the others stay in order under their events and matchers, no empty group or event is left, and the number removed is returned |
| HookRoundTrip.RegisterIsIdempotent | src/cli/cli-extension-loader.ts:263-291 | registering again registers nothing and leaves the file as it is |
| HookRoundTrip.StripForgets | src/cli/cli-extension-loader.ts:263-338 | stripping a namespace gives the same whether or not it was registered before |
| HookRoundTrip.UnregisterUndoesRegister | src/cli/cli-extension-loader.ts:214-345 | unregistering after registering something leaves the normalized settings stripped, returns what was there plus what was registered, and restores them exactly when they held no command of the namespace and no empty group or event |
| HookFile.RegisterThenUnregister | src/cli/cli-extension-loader.ts:243-345 | on whole settings whose hooks are in object form: registering and then unregistering gives back the same settings if no event or group was empty and no command was the namespace's, and only then when something was registered |
| HookRoundTrip.UnregisterAfterNothing | src/cli/cli-extension-loader.ts:214-345 | when everything was registered already, registering leaves the file, normalized if it was in the old form, and unregistering then strips it as it would have before |
| HookRoundTrip.TakenExactly | src/cli/cli-extension-loader.ts:270-331 | for any namespaces and subcommand: one namespace takes the other's command for its own exactly when they are the same, or the other continues it after a blank, or it continues the other after a blank and the subcommand goes on with the rest and a blank |
| HookRoundTrip.EntrySurvivesExactly | src/cli/cli-extension-loader.ts:324-343 | unregistering a namespace leaves an entry of any namespace exactly when the two do not overlap in that way |
| HookRoundTrip.NamespacesAreSeparate | src/cli/cli-extension-loader.ts:270-331 | the case without blanks: such namespaces never take each other's commands for their own |
| HookRoundTrip.BlankNamespacesOverlap | src/cli/cli-extension-loader.ts:270-343 | unregistering "a" empties a file whose only hook is subcommand "c" of "a b", and unregistering "a b" one whose only hook is subcommand "b c" of "a" |
| Gitignore.IsCovered | src/config/gitignore.ts:105-119 | the loop over parent directories decides coverage |
| GitignoreText.LinesOfExactly | src/config/gitignore.ts:101 | which patterns stand in a text: those with nothing but white space beside them on a line |
| GitignoreText.CoveredExactly | src/config/gitignore.ts:103-119 | a pattern without empty parts is covered exactly when it is a line, or it continues, after a slash, a line that is taken with or without a slash at its end |
| Gitignore.Project.CheckGitignore | src/config/gitignore.ts:88-125 | the missing patterns of each group, and all of them |
| Gitignore.Project.AppendGitignore | src/config/gitignore.ts:131-194 | the file after appending; added and already present patterns share out those given; created exactly when the file is new |
| GitignoreRepair.RecommendedAreSound | src/config/gitignore.ts:24-179 | the recommended patterns and their comments are lines that stand for themselves |
| GitignoreRepair.RepairIsComplete | src/config/gitignore.ts:88-194 | for every content: after appending what is reported missing nothing is missing, the old text is a prefix of the new, and a second append writes nothing |
| GitignoreText.NewProject | src/config/gitignore.ts:24-187 | a project without the file: the patterns reported missing, and the file that appending them makes, line by line |
| GitignoreRepair.PresentExactly | src/config/gitignore.ts:146-187 | for any patterns, comments and blank ones included: a pattern is in the file afterwards exactly when it was there, or it or its form without slash is a recommended one that was added, the comment of a group from which one was added, or blank and something was added |
| GitignoreRepair.SecondAppendExactly | src/config/gitignore.ts:131-194 | for any patterns: a second append adds nothing exactly when each one added is in that way written by the first |
| GitignoreRepair.NodeModulesIsUnknown | src/config/gitignore.ts:160-187 | a concrete pattern that is reported as added while the file written is empty |
| Sentinels.CostEstimator.PreCheck | hackathon/sentinels/cost.py:29-46 | blocks exactly when the recorded cost and the price exceed the limit, and records nothing |
| Sentinels.CostEstimator.PostCheck | hackathon/sentinels/cost.py:48-53 | records the price and the call |
| Sentinels.SafetyGuard.PreCheck | hackathon/sentinels/safety.py:26-55 | block list before the count, count before approval |
| Sentinels.ContainsExactly | hackathon/sentinels/safety.py:29-31 | one text is in another exactly when something before and after it makes the other |
| Sentinels.Router.RouteRequest | hackathon/broker/router.py:21-78 | one request by itself: the sentinels' counters and the outcome, through both loops |
| Sentinels.RoutedExactly | hackathon/broker/router.py:21-78 | the broker's own pipeline, request by request: what becomes of a request and what is counted and charged (together with hackathon/broker/server.py:81-87, hackathon/sentinels/safety.py:26-55, hackathon/sentinels/cost.py:29-53) |
| SentinelBudget.BudgetHolds | hackathon/broker/router.py:27-73 | with prices between 0 and cmax and at most m requests estimated and not yet recorded, recorded and outstanding cost never exceed the limit plus (m-1)*cmax, in any interleaving (together with hackathon/sentinels/cost.py:29-53) |
| SentinelBudget.OneAtATime | hackathon/broker/router.py:27-73 | one at a time, the recorded cost never exceeds the limit (together with hackathon/sentinels/cost.py:29-53) |
| SentinelBudget.ChargedExactly | hackathon/broker/router.py:53-73 | the recorded cost is that of the answered requests, each once; blocked and failed ones are never charged (together with hackathon/sentinels/cost.py:48-53) |
| SentinelBudget.QuotaHolds | hackathon/broker/router.py:27-55 | forwarded requests never exceed `max_tool_calls`, in any interleaving (together with hackathon/sentinels/safety.py:26-55) |
| SentinelBudget.NoEarlyQuotaBlock | hackathon/sentinels/safety.py:37-53 | while no more requests have arrived than the quota allows, the guard blocks only for the block list or approval |
| SentinelBudget.RouteIsRun | hackathon/broker/router.py:21-78 | routing a request by itself is the run of its own steps in the interleaving model |
| BudgetLimit.LimitHoldsExactly | hackathon/broker/router.py:27-73 | for any pipeline with one estimator and at most one guard, and prices that are not negative: the recorded cost stays within the limit in all interleavings with at most m requests outstanding exactly when the limit is not negative, and m is at most one or no method costs something, fits the limit once, and is let through often enough to exceed it (together with hackathon/sentinels/cost.py:29-53, hackathon/sentinels/safety.py:26-55) |
| BudgetLimit.LoneEstimator | hackathon/broker/router.py:27-73 | for the estimator by itself, and at least two outstanding: exactly when every price is zero or above the limit (together with hackathon/sentinels/cost.py:29-53) |
| BudgetLimit.BoundIsReached | hackathon/broker/router.py:27-73 | for every limit that is a whole multiple of a price, and every m, some interleaving reaches the bound of BudgetHolds, in any such pipeline whose guard lets that many through (together with hackathon/sentinels/cost.py:29-53, hackathon/sentinels/safety.py:26-55) |
| BudgetLimit.WorstCaseExactly | hackathon/broker/router.py:27-73 | where every method is free or costs p, and the limit has room for k requests at p: the most recorded with at most m outstanding is k + m - 1 times p, or the quota times p if that is less; never more, and reached (together with hackathon/sentinels/cost.py:29-53, hackathon/sentinels/safety.py:26-55) |

## Left out

- The file system, chokidar, process signals, PID files and the real clock; the PID check is not atomic, and nothing is claimed about two watcher processes.
- SHA-256, YAML frontmatter extraction and the other `extract`/`infer` functions of the index builder: parameters, the checksum without collisions among the texts that occur.
- Equal stat with different content: `IndexRefinement` assumes that a path with equal mtime and size has equal content, as the fast path of the builder does.
- `created` and `updated` of an index entry, which keep stat times by design, and the filename-metadata strategy with its supplements.
- Writing the index files in several steps beyond index and manifest, pruning counts, statistics and all printing.
- DepGraph.ShowDeps: does not model the merging of several stored graphs, the printing, or both directions in one call.
- Shutdown of the watcher, and builds that never end.
- ConfigReload.SetReloadGetAny: says nothing of the other keys when the value set has a line terminator, because the rest of it is then read as further lines; `ConfigBreak` treats a line feed followed by one line of the form of a key.
- Two rotations of the activity log at once; the newline an append may put before its line is one step with the line; and appends of a backend that has none of its own, which read and write the whole log.
- Reading the opt-out of the activity log from the environment: whether it is set is a parameter.
- Torn writes of the activity log, malformed log lines on rotation (only parsed entries are rewritten), `show`, `stats`, and the parsing of command-line flags.
- YAML with fractional numbers, arrays or three levels: a fraction is kept as the text it was read from. Integers beyond 2^53 are exact in the model.
- JavaScript's ordering of integer-like property names and its special names such as `__proto__`.
- UserConfig.Config.Set: does not model aliasing between the cache and values handed out earlier; nested objects are values. `reset`, `list` and `validate` are not modelled.
- AgentDeployment.Deployer.Deploy: validation, filtering, backups and write errors are not modelled; the agents given are those that passed, in the Claude format only.
- The printers for the other agent platforms.
- HookSettings.SettingsFile.UnregisterHooks: groups are values; sharing of one array between groups and its mutation in place are not modelled. JSON parsing and printing are not part of this model.
- Directory resolution, and the choice of a server by the router.
- Rounding of costs: prices and totals are real numbers. Logging by the auditor and warnings below the limit.
