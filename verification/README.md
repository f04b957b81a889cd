# The engenho API server, modelled and proved

This project models the parts of engenho's Kubernetes API server in which runs, retries and
text meet, and proves what holds of every run. Nothing here is executed: the claims are what
Dafny's verifier accepts, and `dafny verify dfyconfig.toml` checks all of them.

What is modelled, in the system's own terms:

* **Evictions racing for a PodDisruptionBudget** (`Eviction`, `EvictionRules`, `BudgetProtocol`,
  `BudgetLaws`, `BudgetGrants`, `BudgetArrivals`, `BudgetSettled`, `BudgetStamps`,
  `BudgetRaces`). Listing the budgets, fetching one and proposing a spend are three atomic steps;
  a run is any interleaving of any number of evictions, the disruption controller and other
  writers. A budget is judged on the listed value but compared-and-swapped at a revision read
  later, so conservation is false as the code stands: the project gives the ledger that always
  holds, the runs that break conservation, and exactly when it holds.
* **Selector-aware paged LIST** (`PagedList`, `PagedListLaws`, `PagedListChanges`,
  `PagedListReads`, `PagedListSteady`). A loop over store pages, chained over requests by
  continue tokens, against the one-shot filtered list.
* **The audit log** (`AuditFiles`, `AuditFileLaws`, `AuditRetention`, `AuditWriter`,
  `AuditQueue`, `AuditQueueLaws`, `AuditLevels`). Rotation with a failure possible at each
  file-system call, torn lines and their repair, the bounded queue and its counters, and the
  level cache.
* **Label selectors printed and parsed** (`SelectorParser`, `SelectorPrinter`, `SelectorLaws`,
  `SelectorRoundTrip`, `SelectorText`), and **Accept headers** (`Ranking`, `Accept`,
  `AcceptLaws`, `AcceptRoundTrip`, `AcceptText`), whose ranking is an in-place insertion sort by
  a relation that is neither asymmetric nor transitive.
* **Object bodies** (`ObjectBody`, `ObjectBodyLaws`, `Normalizer`, `Defaulting`,
  `DefaultingLaws`, `DefaultsTable`) and **the split between main and `/status` writes**
  (`StatusSplit`, `StatusSplitLaws`, `StatusSplitRuns`, `StatusSplitAccepted`), over one
  recursive JSON type (`JsonValue`) with the merge of section 2 of RFC 7396.
* Smaller pieces: printed ages (`HumanDuration`), request paths (`Coords`), the wait for a
  revision (`ListFloor`) and certificate renewal (`PkiRotation`).

Loops and objects whose fields change in the source are methods, arrays and classes here, each
proved equal to a specification function; the laws are lemmas about those functions.

Where the code and its comments differ the model follows the code:

* The contract of `list_page` (`engenho-apiserver/src/handler.rs:267-289`) says a token is
  returned if and only if more matches remain, that the remaining count is a lower bound on
  them, and that a series reads one revision. The code goes by the store's tail, not by matches,
  and reads the current store each time. Each claim has an input on which it fails and the exact
  condition under which it holds: `PagedListLaws.LastMatchIsLost` and
  `PagedListLaws.TokenIffMatchesLeft`; `PagedListLaws.TokenWithNothingLeft` and
  `PagedListLaws.CountIsLowerBoundIff`; `PagedListSteady.SecondPageIsNewer` and, for every
  selector, `PagedListSteady.OneRevisionIff`.
* The disk bound of the audit log (`engenho-apiserver/src/audit.rs:32`) fails for one kind of
  directory, an `audit.log` found both full and torn: `AuditFileLaws.BoundHoldsExactly`.
* A PUT to `/status` merges the incoming status into the live one rather than replacing it
  (`engenho-apiserver/src/handler.rs:893-896`): `StatusSplitRuns.PutOfReadyKeepsPhase` is a PUT
  that leaves more than it sent, `StatusSplitRuns.PutStatusReplacesIff` says exactly when it does
  not.
* A spend that leaves the budget unchanged is answered like a committed one
  (`engenho-apiserver/src/handler.rs:1676-1678`), so a delete can go ahead with no spend:
  `BudgetRaces.UnpaidDelete` is such a run, `BudgetSettled.GrantedIffSettled` says exactly when.

Inputs the model takes as parameters: revisions and clock readings, the failures of file-system
calls, the text of the eviction stamp, the uid the store would mint, the policy programs'
answers, the reading of a weight's text as a number, and label selection in LIST as a predicate
on objects.

## Model

| member | source | states |
|---|---|---|
| `JsonValue.MergeTwice` | engenho-store/src/patch_apply.rs:345-362 | merging the same patch a second time changes nothing |
| `JsonValue.MergeReplacesIff` | engenho-store/src/patch_apply.rs:345-362 | a merge leaves exactly the patch if and only if the patch covers the target: no null in it, every member of the target named, recursively |
| `TextOrder.KeyLessTransitive` | engenho-store/src/resource.rs:21-31 | the catalog's key order is transitive |
| `TextOrder.KeyLessAsymmetric` | engenho-store/src/resource.rs:21-31 | no two keys each come before the other |
| `Eviction.SpendMerged` | engenho-apiserver/src/eviction.rs:144-163 | a spend merged into whatever the budget holds by then sets the allowance to the judged one less one, records its pod beside those already there, and moves nothing else |
| `Eviction.AbsorbsIff` | engenho-apiserver/src/eviction.rs:144-163 | a spend leaves a budget as it is if and only if the budget holds the judged allowance less one and the pod under the very stamp |
| `EvictionRules.DecidedByTheFields` | engenho-apiserver/src/eviction.rs:115-163 | by the fields of the pod and the budget: a ready pod is never let go free; an unready one is if and only if the policy is `AlwaysAllow` or currentHealthy is at least a positive desiredHealthy; otherwise a status that lags its generation refuses, and then a negative, no or positive disruptionsAllowed refuses, refuses or is spent, by a patch of one less and the pod's name |
| `EvictionRules.IgnoredIff` | engenho-apiserver/src/eviction.rs:91-97 | a pod goes without a budget if and only if its phase is Succeeded, Failed or Pending or it has a deletionTimestamp |
| `EvictionRules.SelectsIff` | engenho-controllers/src/selector.rs:42-47 | a budget selects a pod if and only if it asks for some labels, by `matchLabels` or else by its selector itself, and the pod has them all |
| `BudgetProtocol.RunKeepsInvariant` | engenho-apiserver/src/handler.rs:1629-1683 | in every run each eviction holding a judgement holds a positive one that is still the stored budget if the revision is, and has a committed spend exactly when it holds the grant that a spend earns |
| `BudgetLaws.Ledger` | engenho-apiserver/src/handler.rs:1629-1683 | in every run spends plus the allowance left equal the allowance at the start, plus what other writers gave, plus exactly the staleness of the committed judgements |
| `BudgetLaws.FreshRunsConserve` | engenho-apiserver/src/handler.rs:1629-1683 | if every spend was proposed at the revision it was judged at and nobody else wrote the budget, spends plus allowance stay constant, in any interleaving |
| `BudgetLaws.ConservedIffUpToDate` | engenho-apiserver/src/handler.rs:1629-1683 | a run with no other writer conserves the budget at every moment if and only if each spend found the judged allowance still standing |
| `BudgetLaws.NeverNegative` | engenho-apiserver/src/eviction.rs:115-163 | the allowance never goes negative, stale spends included |
| `BudgetLaws.RunIsHonest` | engenho-apiserver/src/eviction.rs:115-163 | every logged spend took a positive allowance, and one proposed at its judged revision replaced the very entry it judged |
| `BudgetGrants.RunJustified` | engenho-apiserver/src/handler.rs:1629-1661 | in every run an eviction on its way to a spend carries the key and value of the one budget that selected its pod at some moment and allowed it; one let go or refused was so for what the fields of that budget and of the pod said |
| `BudgetArrivals.RunPlaced` | engenho-apiserver/src/handler.rs:1048-1094 | in every run an eviction keeps the request and pod it arrived with, and is refused for a missing pod, another uid, an unreadable revision or another one, or exempt, if and only if those two say so, the first reason first |
| `BudgetArrivals.ReadyPodsPay` | engenho-apiserver/src/handler.rs:1629-1661 | in every run a ready pod that is not past budgets reaches its delete, in no rehearsal, only with its spend committed or already standing, unless at some moment no budget selected it |
| `BudgetArrivals.GuardedPodsPay` | engenho-apiserver/src/handler.rs:1629-1661 | so a running, ready pod with no deletionTimestamp that one budget selects at every moment is deleted only paid or absorbed |
| `BudgetSettled.GrantedIffSettled` | engenho-apiserver/src/handler.rs:1663-1678 | in every run an eviction is paid if and only if a proposal of its own passed the swap and the budget under its own key did not yet read as its spend would leave it; absorbed if and only if one passed and it did |
| `BudgetSettled.DeletesAreGranted` | engenho-apiserver/src/handler.rs:1048-1094 | in every run an eviction reaches its delete only if exempt, unselected, spared, rehearsing, or charged to the one budget that selected its pod: paid, with exactly one logged spend of that budget for that pod, or absorbed there; a dry run commits nothing |
| `BudgetStamps.FreshStampsPay` | engenho-apiserver/src/handler.rs:1653-1678 | in every run in which no pod is judged with a stamp already brought for it, nor by two evictions with one stamp, nothing is absorbed: every delete a budget allows is paid for |
| `BudgetGrants.SpentPodsStayRecorded` | engenho-controllers/src/pdb.rs:265-285 | however evictions and the controller interleave, every pod that spent stays in `disruptedPods` |
| `BudgetGrants.EvictionsEnd` | engenho-apiserver/src/handler.rs:1635-1682 | no eviction makes more than nine store calls, whatever the others do |
| `BudgetGrants.GivesUpAfterThree` | engenho-apiserver/src/handler.rs:1635-1682 | in every run an eviction judges the budgets once an attempt, at most three times, and gives up exactly when the third attempt is lost |
| `BudgetGrants.ReconcileSets` | engenho-controllers/src/pdb.rs:265-285 | a reconcile sets five numbers of the status and nothing else |
| `BudgetGrants.OtherWritersWrite` | engenho-controllers/src/pdb.rs:265-285 | the controller merges its numbers into a budget that is there, other writers put or remove one, and neither touches another budget or an eviction |
| `BudgetRaces.FetchThenPropose` | engenho-apiserver/src/handler.rs:1663-1678 | a fetch and a proposal with nothing between always pass the compare and swap, whatever the judgement was |
| `BudgetRaces.TwoSpendOne` | engenho-apiserver/src/handler.rs:1638-1678 | from every state in which two evictions hold a judgement of one standing budget, whatever their pods and stamps, a run takes one disruption and brings both to their delete; both spends commit unless the second finds its own standing, its pod recorded under its very stamp, and is absorbed |
| `BudgetRaces.Overspend` | engenho-apiserver/src/handler.rs:1638-1678 | for every budget and two evictions it would let spend there is such a run from a fresh start, with two spends if and only if they are not of one pod within one stamp and the budget does not already record the second pod under its stamp |
| `BudgetRaces.UnpaidDelete` | engenho-apiserver/src/handler.rs:1666-1678 | for every budget and pod there is a run in which the pod is evicted twice on one committed spend, the second merge having changed nothing |
| `BudgetRaces.OneDisruptionSpentTwice` | engenho-apiserver/src/handler.rs:1638-1678 | a run in which one allowed disruption is spent twice exists |
| `PagedList.TakeMatches` | engenho-apiserver/src/handler.rs:1259-1267 | the loop over one store page takes the first matches there is room for and ends with the key of the last one taken |
| `PagedList.ScanPages` | engenho-apiserver/src/handler.rs:1241-1280 | the loop over store pages, read by read over a catalog that may change, ends with the specified items, last emitted key, pinned revision and tail count |
| `PagedList.ListPage` | engenho-apiserver/src/handler.rs:1180-1306 | the request, read by read over a catalog that may change between reads, is the specified page, with a limit or without |
| `PagedList.AfterNth` | engenho-store/src/state.rs:1760-1792 | resuming after the n-th item leaves exactly the items that followed it |
| `PagedList.EmitKeepsTheRest` | engenho-apiserver/src/handler.rs:1213-1216 | an item goes out as stored but for `kind` and `apiVersion`, which are gone |
| `PagedListLaws.RequestAnswers` | engenho-apiserver/src/handler.rs:1180-1306 | on a still catalog a page is the first matches after the token; it goes on if and only if they filled it and the store page in which they did was not the last; its token resumes right after the last item emitted |
| `PagedListLaws.SeriesServes` | engenho-apiserver/src/handler.rs:1180-1306 | following the tokens ends, and the pages together are the served matches request by request |
| `PagedListLaws.ServedThenDropped` | engenho-apiserver/src/handler.rs:1290-1306 | what a series serves and what it drops are together, in order, the filtered list |
| `PagedListLaws.CompleteIffNothingDropped` | engenho-apiserver/src/handler.rs:1290-1306 | a series is a prefix of the filtered list, and all of it if and only if no match follows the fill point inside the final store page |
| `PagedListLaws.UnselectedSeriesIsComplete` | engenho-apiserver/src/handler.rs:1180-1306 | with no selector a series is complete and each page counts exactly what is left |
| `PagedListLaws.FewMatchesAreComplete` | engenho-apiserver/src/handler.rs:1180-1306 | fewer matches than the limit are served whole |
| `PagedListLaws.UnlimitedIsTheSeries` | engenho-apiserver/src/handler.rs:1196-1217 | without a limit the list is what a series of any page size returns, if and only if that series drops nothing |
| `PagedListLaws.LastMatchIsLost` | engenho-apiserver/src/handler.rs:1296-1305 | limit 2 over match, miss, match, match never returns the last match |
| `PagedListLaws.TokenWithNothingLeft` | engenho-apiserver/src/handler.rs:1296-1305 | limit 1 over match, miss returns a token and a count of one with no match left |
| `PagedListLaws.TokenIffMatchesLeft` | engenho-apiserver/src/handler.rs:1296-1305 | a page carries a token just when matches are left, except when items follow its last store page and no match is left, or none follow it and a match is left inside it |
| `PagedListLaws.CountIsLowerBoundIff` | engenho-apiserver/src/handler.rs:1296-1305 | the count a request returns with its token is at most the matches left if and only if the misses past the last store page are no more than the matches that page was left with |
| `PagedListChanges.RequestSound` | engenho-apiserver/src/handler.rs:1193-1305 | one request over changing reads emits increasing keys past its token, at most the limit, at the series' revision |
| `PagedListChanges.UnlimitedAnswers` | engenho-apiserver/src/handler.rs:1196-1217 | without a limit an object is emitted if and only if it stands past the token and matches, in increasing key order, with no token, no count and the series' revision |
| `PagedListChanges.SeriesNeverRepeats` | engenho-apiserver/src/handler.rs:1193-1305 | over a catalog that changes between any two reads, keys strictly increase over a whole series, no page exceeds the limit and every page and token carries the first revision |
| `PagedListReads.ScanReads` | engenho-apiserver/src/handler.rs:1241-1280 | over changing reads a request answers by the first matches of the store pages it reads, put together, and by the count of items past the last of them |
| `PagedListReads.SameAnswerIff` | engenho-apiserver/src/handler.rs:1193-1305 | for every selector, a request over changing reads is answered as a snapshot would answer it if and only if it carries that revision, the store pages it reads hold the matches the snapshot has past the token and, when these fill the page, as many items stand past the last page read |
| `PagedListSteady.SteadySeriesIsOneRevision` | engenho-apiserver/src/handler.rs:1193-1305 | for every selector, a series over changing reads returns the pages of its first snapshot whenever each read finds past its cursor what that snapshot has there |
| `PagedListSteady.OneRevisionIff` | engenho-apiserver/src/handler.rs:1193-1305 | for every selector, a series over changing reads returns the pages of a snapshot if and only if it begins at its revision and the reads of each of its requests agree with the snapshot in that way |
| `PagedListSteady.OneRevisionIffAlike` | engenho-apiserver/src/handler.rs:1193-1305 | with no selector, if and only if it begins at its revision and each request finds as many items past its token as the snapshot has, and the same page of them |
| `PagedListSteady.SecondPageIsNewer` | engenho-apiserver/src/handler.rs:1241-1280 | limit 1 over two items, the second replaced between the requests: the second page is labelled with a revision at which nothing stood under its key |
| `AuditFileLaws.DiskStaysBounded` | engenho-apiserver/src/audit.rs:355-438 | from a directory within bounds and mendable, whatever fails, each file stays within its limit, all within `(kept + 1) * max`, and `size` is the open file's length |
| `AuditFileLaws.TornFullFileOverflows` | engenho-apiserver/src/audit.rs:369-376 | a file found full and torn is mended past its limit by any event that fits an empty file |
| `AuditFileLaws.BoundHoldsExactly` | engenho-apiserver/src/audit.rs:355-438 | every run keeps the bound if and only if the directory starts within it with an `audit.log` not both full and torn |
| `AuditFileLaws.FaultlessLineIsWritten` | engenho-apiserver/src/audit.rs:395-418 | without a fault a line is written if and only if it fits an empty file |
| `AuditFileLaws.FaultlessLineLands` | engenho-apiserver/src/audit.rs:382-418 | without a fault an event goes to the end of `audit.log`, no other file touched, if and only if it fits there; otherwise it begins a new one and every file moves up by one name |
| `AuditRetention.RotateSheds` | engenho-apiserver/src/audit.rs:382-394 | each rotation, finished or not, drops the oldest file at most |
| `AuditRetention.UnfinishedLoseFew` | engenho-apiserver/src/audit.rs:382-394 | any number of rotations that stop at any of their renames lose, from the old end, fewer files together than may be kept |
| `AuditRetention.RetainedIsSuffix` | engenho-apiserver/src/audit.rs:382-418 | whatever failed, the retained files read oldest to newest are a suffix of all that was ever in the log |
| `AuditRetention.RetainedEventsAreLines` | engenho-apiserver/src/audit.rs:369-418 | whatever failed, every retained event whose write succeeded is a line of its own |
| `AuditRetention.HandleReports` | engenho-apiserver/src/audit.rs:420-438 | a message reported written put exactly its own event at the end of the log, one reported failed put none |
| `AuditWriter.Writer.constructor` | engenho-apiserver/src/audit.rs:473-503 | a new writer over a directory of files it did not write is in a starting state |
| `AuditWriter.Writer.OpenFile` | engenho-apiserver/src/audit.rs:355-381 | opening in place is the specified open, fault by fault |
| `AuditWriter.Writer.RotateFiles` | engenho-apiserver/src/audit.rs:382-394 | the renames in place, from the oldest down and stopped by the one that fails, are the specified rotation |
| `AuditWriter.Writer.WriteLine` | engenho-apiserver/src/audit.rs:395-418 | one write in place is the specified attempt |
| `AuditWriter.Writer.Serve` | engenho-apiserver/src/audit.rs:420-438 | the loop over the inbox is the specified run, its counters add up to the messages and `written` counts the events that reached the log |
| `AuditQueue.EventsAreAccounted` | engenho-apiserver/src/audit.rs:529-562 | in every interleaving events handed over are written, failed, dropped, queued or in the writer's hand, and the queue never exceeds its bound |
| `AuditQueueLaws.CountersCount` | engenho-apiserver/src/audit.rs:529-562 | over every interleaving `dropped` counts exactly the rendered events that met a full queue or a stopped writer, `written` the line writes that succeeded, `writeFailures` those that failed and the events not rendered |
| `AuditQueueLaws.LinesLeaveInOrder` | engenho-apiserver/src/audit.rs:420-438 | the writer takes lines in the order they were queued, none passed over, none twice |
| `AuditQueueLaws.FlushesAsked` | engenho-apiserver/src/audit.rs:557-562 | a flush is on its way if and only if it was asked for with room on a running writer's queue |
| `AuditQueueLaws.EveryFlushIsAnswered` | engenho-apiserver/src/audit.rs:420-438 | from every reachable state a writer that goes on, however its writes fare, counts every line queued and answers every flush asked for |
| `AuditQueue.FlushWaitsForEarlierLines` | engenho-apiserver/src/audit.rs:557-562 | an answered flush has every line queued before it counted, and none of them pending |
| `AuditLevels.CacheStaysBounded` | engenho-apiserver/src/audit.rs:303-331 | the level cache never exceeds 1024 entries and holds only what the policy answers, in whatever order answers return |
| `AuditLevels.LatestIsRemembered` | engenho-apiserver/src/audit.rs:303-331 | the last answer is in the cache, and beside it every earlier one unless the cache held 1024 |
| `AuditLevels.Levels.LevelFor` | engenho-apiserver/src/audit.rs:506-525 | the level is the policy's, from the cache or asked; only a policy that cannot answer gives `Metadata`, and is counted |
| `SelectorParser.SplitTopLevel` | engenho-apiserver/src/params.rs:1172-1199 | the character loop gives the clauses between commas outside parentheses |
| `SelectorParser.ParseLabelSelector` | engenho-apiserver/src/params.rs:1201-1279 | the clause loop is the specified parse, stopping at the first malformed clause |
| `SelectorPrinter.RenderExpression` | engenho-apiserver/src/printer.rs:905-928 | one expression is rendered as its requirement, or gives up on a missing key or operator or an unknown one |
| `SelectorPrinter.SelectorString` | engenho-apiserver/src/printer.rs:895-937 | pushing, then sorting by key, is the specified print; one unknown expression prints nothing |
| `SelectorLaws.ClauseReadsBack` | engenho-apiserver/src/params.rs:1214-1279 | every requirement of plain text, written as the printer would, parses back, less the empty values of a set |
| `SelectorLaws.ComparisonReadsBack` | engenho-apiserver/src/params.rs:1258-1275 | `k=v`, `k==v` and `k!=v`, with blanks around the operator, parse to equality, equality and inequality |
| `SelectorRoundTrip.PrintedSelectorReadsBack` | engenho-apiserver/src/printer.rs:895-937 | a printed selector parses to its requirements in print order, set values sorted, once each, empty ones gone |
| `SelectorRoundTrip.RoundTripExactly` | engenho-apiserver/src/printer.rs:895-937 | the round trip gives the printed requirements back if and only if no set holds an empty value |
| `SelectorRoundTrip.LabelSelectorReadsBack` | engenho-apiserver/src/printer.rs:895-937 | every selector in the alphabet of label keys and values prints, and parses back to what was printed if and only if no set holds an empty value |
| `SelectorRoundTrip.SortIsStable` | engenho-apiserver/src/printer.rs:929-936 | the print is in key order, a permutation, and keeps the order of requirements on one key |
| `SelectorRoundTrip.PrintedInKeyOrder` | engenho-apiserver/src/printer.rs:929-936 | the requirements are printed in the order of their keys, each that of a label or of an expression of the selector |
| `SelectorRoundTrip.PrintsIff` | engenho-apiserver/src/printer.rs:895-928 | a selector prints if and only if each expression has a key and one of the four operators; no selector prints as nothing |
| `SelectorRoundTrip.AsSetIsSet` | engenho-apiserver/src/printer.rs:912-919 | set values print strictly increasing and are exactly the values given |
| `SelectorRoundTrip.ParsedSelectorSelectsTheSame` | engenho-apiserver/src/params.rs:795-809 | every printed selector, parsed back, matches exactly the label maps the selector without its empty set values selects, and so exactly what it selects itself when it has none |
| `SelectorRoundTrip.EmptyValueIsLost` | engenho-apiserver/src/params.rs:1214-1256 | for every set holding the empty value, `In` selects the empty label and its parsed text does not, `NotIn` the other way round |
| `SelectorText.WrittenSelectorParses` | engenho-apiserver/src/params.rs:1201-1279 | any clauses a client writes, in every form of the grammar and with blanks, joined by commas, parse to what they mean in order |
| `SelectorText.WrittenSelectorSelects` | engenho-apiserver/src/params.rs:795-809 | and match exactly the labels that meet each clause, `k!=v` being met when k is absent or holds another value |
| `SelectorText.MissingKeys` | engenho-apiserver/src/params.rs:1214-1279 | a comparison, a set or a `!` without a key is refused for it |
| `SelectorText.BadSets` | engenho-apiserver/src/params.rs:1226-1256 | a set with another operator, none, or no closing parenthesis is refused for that |
| `SelectorText.ExtraWords` | engenho-apiserver/src/params.rs:1236-1247 | more than two words before a set are refused |
| `SelectorText.FirstFaultIsReported` | engenho-apiserver/src/params.rs:1201-1212 | after clauses that parse, the first malformed one is what the selector is refused for |
| `Ranking.RankInPlace` | engenho-apiserver/src/accept.rs:140-152 | the insertion sort by swaps in an array is the specified ranking, for any relation |
| `Ranking.RankedIsPermutation` | engenho-apiserver/src/accept.rs:140-152 | ranking by any relation is a permutation |
| `Ranking.RankedIsSettled` | engenho-apiserver/src/accept.rs:140-152 | no neighbours stand with the later ranking before the earlier one and not the other way too |
| `Ranking.OvertakersRankBefore` | engenho-apiserver/src/accept.rs:140-152 | an element stands ahead of one written before it only by ranking before it |
| `Accept.ParseRange` | engenho-apiserver/src/accept.rs:68-98 | the parameter loop is the specified reading of one part |
| `Accept.RankedRanges` | engenho-apiserver/src/accept.rs:140-152 | parsing and sorting in place give the ranking of the parsed ranges |
| `AcceptLaws.PartsAreSplit` | engenho-apiserver/src/accept.rs:140-145 | the parts of a header are its comma-separated pieces less one empty piece at the end |
| `AcceptLaws.RankingIsFair` | engenho-apiserver/src/accept.rs:103-152 | for every header the ranking is a permutation, settled, and overtakes only by rank |
| `AcceptLaws.DescendingIffConsistent` | engenho-apiserver/src/accept.rs:103-152 | in whatever order a client writes its ranges, wildcards included, they come out by falling weight if and only if none ranks before a heavier one |
| `AcceptLaws.StableIffStrict` | engenho-apiserver/src/accept.rs:103-152 | the ranking is the stable sort by falling weight, in whatever order they are written, if and only if whatever ranks before is heavier |
| `AcceptLaws.PlainRankingIsStable` | engenho-apiserver/src/accept.rs:103-152 | without wildcards the ranking is the stable sort by falling weight |
| `AcceptLaws.WildcardsBreakTheOrder` | engenho-apiserver/src/accept.rs:103-107 | headers that are not so: a heavy `*/*` comes out behind a light concrete type, and two ranges each ranking before the other come out reversed |
| `AcceptLaws.NegotiatesIffAdmitted` | engenho-apiserver/src/accept.rs:156-168 | there is an answer if and only if some serialization is admitted, and the answer is admitted |
| `AcceptLaws.HeaviestWins` | engenho-apiserver/src/accept.rs:156-160 | when none ranks before a heavier one, the answer is that of a heaviest range that takes anything |
| `AcceptLaws.HeaviestFirstWins` | engenho-apiserver/src/accept.rs:156-160 | when whatever ranks before is heavier, as without wildcards, it is the first of those in the header |
| `AcceptRoundTrip.OfferReadsBack` | engenho-apiserver/src/accept.rs:68-98 | a media type written out with blanks and any parameters parses to what it means, its weight that of its last `q` |
| `AcceptRoundTrip.OddPartsReadBack` | engenho-apiserver/src/accept.rs:68-80 | a `*` alone is any type; a type with no subtype or a third segment is none |
| `AcceptRoundTrip.HeaderReadsBack` | engenho-apiserver/src/accept.rs:140-145 | a header written from any list of media types parses to exactly those, in order |
| `AcceptRoundTrip.PartsReadBack` | engenho-apiserver/src/accept.rs:140-145 | a header of any parts parses to the ranges among what they read as, in order, the others passed over |
| `AcceptText.AdmitsIffNamed` | engenho-apiserver/src/accept.rs:163-168 | a header admits JSON, YAML or protobuf if and only if one of its media types is any type, any `application` type or `application/json`, `application/yaml` or `application/vnd.kubernetes.protobuf`, in any letter case |
| `AcceptText.OneOfferNegotiates` | engenho-apiserver/src/accept.rs:156-168 | a header of one media type is answered with what it names, any type and any `application` type with JSON |
| `AcceptText.HeaderNegotiates` | engenho-apiserver/src/accept.rs:156-168 | without wildcards a header is answered with the first of the heaviest media types that name something served, or with nothing when none does |
| `ObjectBodyLaws.AcceptedIffWellShaped` | engenho-apiserver/src/object_body.rs:82-98 | a body is accepted if and only if every metadata slot of its kind is well shaped |
| `ObjectBodyLaws.NormalizedIsTidy` | engenho-apiserver/src/object_body.rs:327-411 | an accepted body has no null map or list field and no null label or annotation in any slot |
| `ObjectBodyLaws.NormalizedTwice` | engenho-apiserver/src/object_body.rs:82-98 | normalizing is a fixed point after once |
| `ObjectBodyLaws.NormalizedLeavesTheRest` | engenho-apiserver/src/object_body.rs:299-346 | nothing outside the slots changes, and inside one only what cleaning changes |
| `ObjectBodyLaws.CleanMetaPointwise` | engenho-apiserver/src/object_body.rs:347-411 | each metadata member, and each label or annotation, after cleaning, member by member |
| `ObjectBodyLaws.SlotIff` | engenho-apiserver/src/object_body.rs:299-312 | the metadata of a body is cleaned at its root and at the template paths of its kind, named here one by one, and nowhere else |
| `ObjectBodyLaws.TemplateEntriesAreFilled` | engenho-apiserver/src/object_body.rs:299-371 | at each of those paths a label or annotation sent as null is stored as empty text, any other as sent |
| `ObjectBodyLaws.RefusalIsTruthful` | engenho-apiserver/src/object_body.rs:347-411 | the path an error names leads in the body to a value of the kind it reports |
| `Normalizer.Normalize` | engenho-apiserver/src/object_body.rs:82-98 | the walk in place over slots, fields and entries is the specified normalization, with the same first error |
| `Normalizer.FillEntries` | engenho-apiserver/src/object_body.rs:357-371 | the loop over a string map fills its nulls or reports its least bad key |
| `Defaulting.ApplyDefaults` | engenho-apiserver/src/defaulting.rs:49-160 | filling in place, loops included, is the specified defaulting |
| `DefaultsTable.AppliedByTheTables` | engenho-apiserver/src/defaulting.rs:49-174 | every member of a core Pod, Secret or Service, down to containers and ports, is the client's own or the table's; every other body and member is kept |
| `DefaultingLaws.DefaultingOnlyAdds` | engenho-apiserver/src/defaulting.rs:49-174 | at every depth everything sent is still there |
| `DefaultingLaws.HeldScalarsStay` | engenho-apiserver/src/defaulting.rs:171-174 | a scalar or null at any path of a body stays through defaulting as it was sent |
| `DefaultingLaws.DefaultingTwice` | engenho-apiserver/src/defaulting.rs:49-174 | defaulting is a fixed point after once |
| `DefaultingLaws.DefaultingCommutes` | engenho-apiserver/src/defaulting.rs:49-174 | defaulting and normalizing commute on every body, errors included |
| `DefaultingLaws.PulledOnceIff` | engenho-apiserver/src/defaulting.rs:162-169 | an image is not pulled always if and only if it names a tag other than `latest` |
| `StatusSplit.PreserveImmutableMeta` | engenho-apiserver/src/handler.rs:2059-2084 | the loop over the kept fields is the specified preservation |
| `StatusSplitLaws.UnchangedIff` | engenho-store/src/state.rs:112-146 | the store's no-change test, member by member, ignoring revision and generation only |
| `StatusSplitRuns.MainStepKeeps` | engenho-apiserver/src/handler/write_plan.rs:718-752 | a main write keeps the status, a uid and creation stamp once set, the deletion stamp or its absence, and raises the generation by one exactly when it changes the spec |
| `StatusSplitRuns.MainStepTakes` | engenho-apiserver/src/handler/write_plan.rs:485-614 | outside status and server-owned metadata an accepted main write leaves what its prepared body says, at the new revision if anything changed |
| `StatusSplitAccepted.AcceptedIff` | engenho-apiserver/src/handler/write_plan.rs:485-614 | a main write is accepted if and only if its body is an object with well shaped metadata, templates included, and bears no other name |
| `StatusSplitAccepted.MainWriteStores` | engenho-apiserver/src/handler/write_plan.rs:485-614 | a refused write changes nothing; an accepted one stores under each root member what was sent with its defaults |
| `StatusSplitAccepted.MainWriteStoresAsSent` | engenho-apiserver/src/handler/write_plan.rs:485-614 | of a kind without defaults it stores at every path outside metadata and status exactly what was sent there |
| `StatusSplitAccepted.MainWriteNames` | engenho-apiserver/src/handler/write_plan.rs:718-752 | the name and namespace stored are those written to |
| `StatusSplitAccepted.MainWriteIdentifies` | engenho-store/src/state.rs:1913-1935 | an object a main write changed has the uid it had, or else the body's, or else the minted one |
| `StatusSplitAccepted.MainWriteRemovesIff` | engenho-store/src/state.rs:1171-1195 | a main write removes the object if and only if it is accepted, the object is being deleted and the write leaves no finalizer |
| `StatusSplitRuns.MainStepSame` | engenho-apiserver/src/handler.rs:2059-2103 | what a main write leaves outside status and revision does not depend on status or revision |
| `StatusSplitRuns.StatusStepKeeps` | engenho-apiserver/src/handler.rs:871-919 | a status write leaves all but status and revision, the generation included, and the status is the merge of the patch's |
| `StatusSplitRuns.PutStatusReplacesIff` | engenho-apiserver/src/handler.rs:893-896 | a PUT of a status stores the one it sends if and only if that one covers the live status; a PUT of none or null removes it |
| `StatusSplitRuns.UnnamedStatusStays` | engenho-apiserver/src/handler.rs:893-896 | every live member that a PUT of an object leaves out stays, so what is stored is not what was sent |
| `StatusSplitRuns.PutOfReadyKeepsPhase` | engenho-apiserver/src/handler.rs:893-896 | over a live `phase` a PUT of `ready` alone leaves both |
| `StatusSplitRuns.MainHalfIsUndisturbed` | engenho-apiserver/src/handler.rs:2059-2103 | however main and status writes interleave, the object but for status and revision ends as the main writes alone leave it, removal included |
| `StatusSplitRuns.StatusHalfIsUndisturbed` | engenho-apiserver/src/handler.rs:1720-1744 | and its status ends as the status writes alone leave it |
| `StatusSplitRuns.RunKeepsIdentity` | engenho-store/src/state.rs:1913-1948 | over every run the generation rises by exactly the number of writes that changed the spec, and the fixed metadata never changes |
| `HumanDuration.RenderDenotes` | engenho-apiserver/src/printer.rs:954-1008 | read back unit by unit, a printed age says the age cut to the second, minute, hour, day or year |
| `HumanDuration.PrintedAgeIsClose` | engenho-apiserver/src/printer.rs:954-1008 | it says a time v at most the age, short by at most an eighth, and v prints the same text |
| `HumanDuration.UnitsPrinted` | engenho-apiserver/src/printer.rs:954-1008 | which units a printed age is in: seconds, minutes, hours, days or years by their ranges, with the next smaller unit in the first part of each unless it is zero |
| `HumanDuration.PrintedAgesGrow` | engenho-apiserver/src/printer.rs:954-1008 | what is said is monotone in the age |
| `HumanDuration.SameTextIff` | engenho-apiserver/src/printer.rs:954-1008 | two ages print alike if and only if they are cut to the same one |
| `HumanDuration.BehindTheClock` | engenho-apiserver/src/printer.rs:954-961 | one second ahead of the clock says zero, more says nothing |
| `Coords.ParsesIff` | engenho-apiserver/src/coords.rs:112-175 | a path gives coordinates if and only if they are well formed, not a namespace's subresource, and its non-empty segments are those of their URL |
| `Coords.PrintedReadsBack` | engenho-apiserver/src/coords.rs:249-275 | coordinates printed and parsed come back if and only if they are not a namespace's subresource, which reads as a collection in that namespace |
| `Coords.OfPathIsCanonical` | engenho-apiserver/src/coords.rs:382-387 | a path classified as a resource names what its tidy form names; any other is carried unread and spells no coordinates |
| `ListFloor.AwaitRevision` | engenho-apiserver/src/list_floor.rs:61-80 | the loop stops at the first read that reaches the floor or finds the time gone, answers Ok if and only if the floor is reached, and otherwise reports where the store stood |
| `ListFloor.WaitIsBounded` | engenho-apiserver/src/list_floor.rs:61-80 | sleeps fit the time given in all, each is at most 50 ms and the time left, and the reads are bounded by 5 ms each and by 50 ms each after the fifth |
| `ListFloor.OneAnswer` | engenho-apiserver/src/params.rs:538-545 | the reads and the clock decide the wait |
| `PkiRotation.Renewer.constructor` | engenho-apiserver/src/pki_rotation.rs:226-259 | the first leaves are the leased ones, or the standing ones each with a failure counted |
| `PkiRotation.Renewer.RenewServer` | engenho-apiserver/src/pki_rotation.rs:278-290 | one server renewal in place, with its outcome |
| `PkiRotation.Renewer.RenewClient` | engenho-apiserver/src/pki_rotation.rs:292-312 | one client renewal in place, with its outcome |
| `PkiRotation.Renewer.Tick` | engenho-apiserver/src/pki_rotation.rs:269-276 | a tick renews each leaf apart from the other and counts each error |
| `PkiRotation.RunCounts` | engenho-apiserver/src/pki_rotation.rs:269-312 | over every run of ticks each leaf goes its own way, the listener's leaf has the server serial and the last published client leaf the client serial, `renewed` counts exactly the serial changes and `failed` exactly the erring steps |
| `PkiRotation.FirstLeaves` | engenho-apiserver/src/pki_rotation.rs:226-259 | the first serials are the leases read, 2 and 3 without one, each of those counted |
| `PkiRotation.TickFollowsTheLeases` | engenho-apiserver/src/pki_rotation.rs:269-312 | after any run a tick brings each leaf under the lease it reads if its leaf is issued and taken, and leaves it otherwise, with the counters to match |

## Left out

- The replicated store beyond what is used here (ordered pages, compare and swap, merge, the commit stamps), Raft, watch registration and replay.
- The disruption controller beyond the merge of its status numbers: its counting is not modelled, any numbers may be written.
- JSON Patch, strategic merge and server-side apply, through the main endpoint and through `/status`.
- In main writes: preconditions (a request in a run is one that passed its own), schema and field validation, admission, custom resource schemas, Service address allocation, and deletes other than by the last finalizer's removal.
- Creation of an object: the runs of the write split start from a stored object, with metadata and a generation of at least 1.
- The 64-bit width of revisions, counters and `metadata.generation`; reads of JSON integers are bounded to 64 bits.
- `Accept` weights as 32-bit floats with NaN and infinities: a weight is a real here. Agreement with upstream's own sort past twelve ranges is not claimed.
- Label values that are not strings, field selectors, and the texts of error messages.
- `pod_summary`, discovery documents and the printer's column tables: counters, case tables and data whose facts are read off one body.
- Verbs of classified requests, percent-decoding and the `watch` flag.
- Cryptography, certificates as such, TLS and JSON text; the policy programs are functions that may fail to answer.
- The times of audit events and their JSON text; a line is any sequence of bytes.
- AuditQueue.EventsAreAccounted: the queue and the writer are two threads as atomic steps over one queue; the memory order of the counters is not modelled.
- AuditRetention.RetainedEventsAreLines: for events whose text holds no newline, which JSON text on one line never does.
- SelectorRoundTrip.PrintedSelectorReadsBack: for text without the parser's own characters and spaces, which covers the Kubernetes label alphabet (`LabelSelectorReadsBack`).
- PkiRotation.RunCounts: ticks follow one another; two at once are not modelled.
