# Verification of the monitor worker

A Dafny model of the worker that watches Kufar listing feeds, and proofs about it. `dafny verify
dfyconfig.toml` checks everything.

The centre is the incremental watermark protocol. A monitor remembers a boundary, a time and the ids
at that time; a run pages through the newest-first feed until it meets something older; when it hits
its page cap it saves a checkpoint and a later run goes on there. Around it stand the cold start, the
recovery from a stale checkpoint, the transactions with their revision check, and edits that reset
the cursor. The main theorems say that chunks add up to one uncapped traversal, that a whole history
reports every publication once and match rows never change, and that an initialised cursor always
belongs to the monitor's current query.

Imperative code stands as methods and classes proved equal to a specification function; the
properties are lemmas about those functions and about all runs of the state machines built on them.
What an operation does is stated once more without the specification function: which rows it leaves,
which piece of text it shows, when it throws, when it starts again.

| files | about |
|---|---|
| `Basics`, `Feed` | options and results, pages, cursors, times as integer epochs |
| `WatermarkTraversal`, `WatermarkMeaning`, `FeedRun` | the traversal and what it computes |
| `ColdStart` | the first baseline |
| `CanonicalQueries`, `MonitorStore`, `StoreMeaning`, `CursorAgreement` | query equality, the transactions, what they leave in the tables, their interleavings |
| `IncrementalRun`, `RecoveryPolicy`, `CatchUp`, `History` | one run, when it restarts, one pass in chunks, whole histories |
| `DescriptionBudget`, `DescribedRun` | description cache and request budget, and the whole run with them |
| `RunOwnership`, `RunExecutor` | leases, scheduled runs, recovery |
| `RateLimiters` | spacing of requests |
| `MatchingTerm`, `MatchingText`, `ListingMatcher`, `MatchingSnippet` | keyword matching and snippets |
| `TelegramTransport`, `MessageTemplate`, `OutboxDelivery` | the bot, its messages, their delivery |
| `KufarUrl`, `KufarUrlText`, `KufarUrlMeaning` | listing URLs, their texts, and what they say |
| `DependencyCheck` | the cycle check over task documents |

Where the code does not do what it is meant to do:

- `electron/worker/telegram-message-template.ts:90-97` keeps an empty description line when not even
  an ellipsis fits, so a message can exceed 4096 units. `MessageFitsExactly` gives the exact condition,
  `TooLongForExample` an input.
- `shared/kufar-url.ts:221-226` prints the seller marker of a real-estate query without region and
  operation as the first segment, where the parser reads a region. `PrintedUrlParsesBack` gives the exact
  condition, `SellerLostForExample` a URL.

Where the code promises less than one might think:

- `electron/worker/monitor-config-persistence.ts:226-232` compares a new query with the URL of the same
  patch only. An edit that brings a query and no URL can leave a monitor that watches something else than
  its URL says. `EditKeepsUrlExactly` gives the exact condition, `QueryAloneForExample` an edit.

Where the repository's own sources disagree:

- `docs/superpowers/specs/2026-09-09-watermark-catchup-checkpoint-design.md:167-180` says that a resumed
  traversal that fails for any reason, an expired cursor included, is retried once from the top.
  `electron/worker/incremental-monitor-run.ts:141-173` retries for one error only, and
  `tests/unit/incremental-monitor-recovery.test.ts:129-179` asks for exactly that. The model follows the
  code. `RecoveryPolicy.DocumentedExactly` gives the exact condition under which both say the same,
  `InnerDisorderForExample` and `RefusedCursorForExample` give inputs on which they differ, and
  `RefusedCursorStandsStill` says what the narrower rule costs.

## Model

| member | source | states |
|---|---|---|
| `WatermarkTraversal.TraverseWatermark` | electron/worker/watermark-traversal.ts:104-235 | the nested loops, for any source and any checkpoint, end in the outcome of the recursive specification, after the same number of page requests |
| `Feed.UnseenAppend` | electron/worker/watermark-traversal.ts:155-157 | skipping ids already met, page by page, is skipping them over the joined list |
| `Feed.UnseenDistinct` | electron/worker/watermark-traversal.ts:118-157 | no listing is processed twice, whatever repetitions the pages contain |
| `WatermarkMeaning.NextBoundaryUnique` | electron/worker/watermark-traversal.ts:133-149 | the next boundary is determined, up to the order of its ids, by the old boundary and the listings seen |
| `WatermarkMeaning.MaximumStep` | electron/worker/watermark-traversal.ts:172-179 | after every listing the running maximum and its ids stand for the newest time seen and all ids at that time |
| `WatermarkMeaning.ListingMeaning` | electron/worker/watermark-traversal.ts:155-195 | one listing is collected exactly when it is newer than the boundary or shares its time with an id not remembered, and stops the scan exactly when it is older |
| `WatermarkMeaning.PageMeaning` | electron/worker/watermark-traversal.ts:155-195 | a whole page keeps that reading, with the ids met so far |
| `WatermarkMeaning.CheckpointResumes` | electron/worker/watermark-traversal.ts:85-131 | a scan started from a saved checkpoint stands for everything the earlier chunks saw |
| `WatermarkMeaning.OlderTail` | electron/worker/watermark-traversal.ts:193-206 | once an older listing is met, nothing behind it on a sorted feed is new or moves the boundary |
| `FeedRun.TraverseMeaning` | electron/worker/watermark-traversal.ts:104-235 | on a fixed sorted feed a traversal, fresh or resumed, reports exactly the new listings of its pages and either completes with the next boundary or saves a checkpoint for the following page |
| `CatchUp.CompleteTraversalIsExact` | electron/worker/watermark-traversal.ts:117-206 | a complete traversal reports precisely the new listings of the feed and its next boundary never goes back: newest time, all ids at it, the old ids kept when the time is unchanged |
| `CatchUp.RerunReportsNothing` | electron/worker/watermark-traversal.ts:133-206 | a second traversal from the boundary of a complete one reports nothing and keeps that boundary |
| `IncrementalRun.TraverseBounded` | electron/worker/watermark-traversal.ts:151-234 | whatever the source answers, the final throw is unreachable and at most `maxPages` pages are requested |
| `IncrementalRun.TraverseWithRecovery` | electron/worker/incremental-monitor-run.ts:149-173 | the call with its catch block computes the recovering specification, restart included |
| `DescribedRun.RunIncrementalMonitor` | electron/worker/incremental-monitor-run.ts:175-279 | reading the cursor, traversing, selecting with the description cache and committing ends in the specified tables, rows and result |
| `DescribedRun.CandidatesAreDistinct` | electron/worker/watermark-traversal.ts:155-157 | whatever the source answers, a traversal collects every id at most once |
| `DescribedRun.DescribedRunIsRun` | electron/worker/incremental-monitor-run.ts:229-276 | whatever source and endpoint answer: a committed run has written what a run knowing every description writes, any other has left the tables alone |
| `DescribedRun.CommitsAfterExactly` | electron/worker/incremental-monitor-run.ts:237-276 | u candidates without a settled description commit after exactly max(1, ceil(u/10)) runs, with the tables of a run that knew them all; the runs before change no table |
| `IncrementalRun.CheckpointRoundTrip` | electron/worker/incremental-monitor-run.ts:94-139 | a saved checkpoint parses back to itself exactly when its times are times, and saving it leaves the confirmed boundary alone |
| `IncrementalRun.CompletionRoundTrip` | electron/worker/incremental-monitor-run.ts:94-139 | after a complete traversal the row parses to no checkpoint and the new boundary |
| `IncrementalRun.ParsesExactly` | electron/worker/incremental-monitor-run.ts:94-139 | a row reads as a checkpoint, or as none, exactly when its columns hold it whole and timed, or are all empty; anything else is an error; a boundary likewise |
| `IncrementalRun.RunNeedsBaseline` | electron/worker/incremental-monitor-run.ts:175-210 | a run asks for a cold start exactly when its monitor has no cursor or an uninitialised one |
| `IncrementalRun.StaleExactly` | electron/worker/incremental-monitor-run.ts:141-147 | the stale-checkpoint error arises exactly when a checkpoint with a last observation is resumed and the first listing processed is newer than it |
| `IncrementalRun.RecoverySound` | electron/worker/incremental-monitor-run.ts:149-173 | at most one restart, within twice the page cap, only for that error; the error never escapes and every other outcome passes unchanged |
| `RecoveryPolicy.NothingCollectedWhenStale` | electron/worker/watermark-traversal.ts:155-170 | when the stale error is raised the blamed listing is the first of its page and every page before was empty, so nothing had been collected |
| `RecoveryPolicy.RestartIsExact` | electron/worker/incremental-monitor-run.ts:167-172 | over a sorted feed a restart reports exactly the new listings of the top pages, and completes or saves a checkpoint for the next page |
| `RecoveryPolicy.ResumedFailsExactly` | electron/worker/watermark-traversal.ts:151-195 | a resumed traversal fails exactly when a request before the boundary is refused, or the listings answered up to the boundary are not timed and newest first, or start newer than the last observation |
| `RecoveryPolicy.FreshFailsExactly` | electron/worker/watermark-traversal.ts:151-195 | a traversal from the top, whatever the source answers, fails exactly on a refused request or when the listings answered up to the boundary are not timed and newest first |
| `RecoveryPolicy.RetriedExactly` | electron/worker/incremental-monitor-run.ts:141-147 | of these failures exactly those that start newer than the last observation are retried |
| `RecoveryPolicy.DocumentedExactly` | docs/superpowers/specs/2026-09-09-watermark-catchup-checkpoint-design.md:167-180 | the code does what the document says exactly when the answers start newer than the last observation, or none is refused and they are timed and newest first |
| `RecoveryPolicy.InnerDisorderForExample` | docs/superpowers/specs/2026-09-09-watermark-catchup-checkpoint-design.md:180 | a resumed page with times 20 and 25 fails after one request and is not retried |
| `RecoveryPolicy.RefusedCursorForExample` | docs/superpowers/specs/2026-09-09-watermark-catchup-checkpoint-design.md:172-178 | a refused cursor fails after one request and is not retried |
| `RecoveryPolicy.RefusedCursorStandsStill` | electron/worker/incremental-monitor-run.ts:167-172 | over any number of runs that find the saved cursor refused the tables stay as they were, whatever the top of the feed holds |
| `MonitorStore.Database.PersistListings` | electron/worker/monitor-run-persistence.ts:61-72 | the listing table of the specification; `StoreMeaning.ListingsAreWritten` says what that is |
| `MonitorStore.Database.PersistListingsAndMatches` | electron/worker/monitor-run-persistence.ts:74-98 | listing and match tables of the specification; `StoreMeaning.MatchesAreWritten` says what the second is |
| `MonitorStore.Database.RecordRunRow` | electron/worker/monitor-run-persistence.ts:140-178 | outcome and counts of the given run row, or of a new one; a missing row is an error |
| `MonitorStore.Database.PersistMonitorRunTransaction` | electron/worker/monitor-run-persistence.ts:180-188 | checks the revision, then writes listings, matches, cursor and run, or changes nothing |
| `StoreMeaning.ListingsAreWritten` | electron/worker/monitor-run-persistence.ts:61-72 | every listing is stored, the last of each id; every other row is as it was |
| `StoreMeaning.MatchesAreWritten` | electron/worker/monitor-run-persistence.ts:80-97 | rows that stood stay; every selected listing without one gets the first selection made for it |
| `StoreMeaning.CommitRunWrites` | electron/worker/monitor-run-persistence.ts:40-188 | accepted exactly for a present monitor, the cursor revision that was read and an existing run row; then candidates, matches, run row (outcome and counts) and cursor revision are written and nothing else; each refusal has its error |
| `StoreMeaning.MatchesHaveListings` | electron/worker/monitor-run-persistence.ts:74-98 | no match is left without its listing |
| `StoreMeaning.RunIdsStayBelowNext` | electron/worker/monitor-run-persistence.ts:164-177 | a created run row never takes the id of another |
| `MonitorStore.Database.PersistColdStartBaselineTransaction` | electron/worker/cold-start-persistence.ts:89-139 | commits the baseline only for an unchanged source and an uninitialised cursor of the expected revision, or changes nothing |
| `StoreMeaning.CommitColdStartWrites` | electron/worker/cold-start-persistence.ts:35-139 | accepted exactly for an unchanged source, the missing or uninitialised cursor that was read and an existing run row; then listings, run row and the boundary columns are written, the catch-up columns kept or empty, and nothing else |
| `MonitorStore.Database.UpdateMonitorConfigTransaction` | electron/worker/monitor-config-persistence.ts:192-264 | the tables of the specification, or the error of the first check that fails and no change; `StoreMeaning.EditMeaning` says what those tables are |
| `MonitorStore.PatchMonitor` | electron/worker/monitor-config-persistence.ts:203-254 | the checks of a patch in their order, and the edited row |
| `StoreMeaning.EditMeaning` | electron/worker/monitor-config-persistence.ts:192-264 | accepted exactly when every check of what it carries passes; the query is the one given, else what the new URL parses to, else the old one, and agrees with a new URL; every other column has the given value or the old one; the cursor survives exactly when URL and query stay canonically the same and the monitor does not leave the archive; nothing else changes |
| `StoreMeaning.EditError` | electron/worker/monitor-config-persistence.ts:197-232 | a refused edit has the error of the first check that fails |
| `MonitorStore.ValidateMatchingTerms` | electron/worker/monitor-config-persistence.ts:159-161 | accepts exactly when every term compiles |
| `CanonicalQueries.SortedKeysAscending` | electron/worker/monitor-config-persistence.ts:47-48 | sorting the keys gives them in strictly ascending order |
| `CanonicalQueries.AscendingUnique` | electron/worker/monitor-config-persistence.ts:47-52 | an ascending list is determined by its elements |
| `CanonicalQueries.ExtraParamsEqualIsMapEquality` | electron/worker/monitor-config-persistence.ts:43-53 | the comparison by sorted keys is equality of finite maps, whatever the insertion order |
| `CanonicalQueries.CanonicalQueryEqualsIsMeaning` | electron/worker/monitor-config-persistence.ts:55-67 | two queries are equal exactly when they mean the same, so the comparison is an equivalence |
| `CursorAgreement.CursorAndSourceAgree` | electron/worker/monitor-run-persistence.ts:36-59 | under every interleaving of snapshots, edits and commits, every feed that went into an initialised cursor is the feed of the monitor's current query |
| `CursorAgreement.CommitIffUndisturbed` | electron/worker/monitor-run-persistence.ts:36-59 | an incremental commit is accepted exactly when no edit or other commit touched the cursor since its snapshot; a refused one changes nothing |
| `CursorAgreement.AcceptedRunIsAtomic` | electron/worker/monitor-run-persistence.ts:180-188 | an accepted commit leaves the tables the whole run would have left in one step at that time, given the same answers of the source |
| `CursorAgreement.FinishColdStartKeepsInv` | electron/worker/cold-start-persistence.ts:35-87 | a cold-start commit keeps cursor and source in agreement |
| `CursorAgreement.EditKeepsInv` | electron/worker/monitor-config-persistence.ts:69-78 | an edit keeps a cursor only when the feed of the monitor stays the same |
| `CursorAgreement.EditKeepsUrlExactly` | electron/worker/monitor-config-persistence.ts:213-232 | an accepted edit leaves URL and query in agreement exactly when it does not replace the query alone by another |
| `CursorAgreement.QueryAloneForExample` | electron/worker/monitor-config-persistence.ts:214-232 | an accepted edit after which URL and query disagree |
| `CursorAgreement.CursorBelongsToUrl` | electron/worker/monitor-config-persistence.ts:163-264 | under every interleaving without such an edit, every feed that went into an initialised cursor is the feed of the URL the monitor shows |
| `ColdStart.TraverseColdStartBaseline` | electron/worker/cold-start-traversal.ts:47-137 | the loops end in the outcome of the recursive specification, for any source |
| `ColdStart.ColdStartClosesTopTie` | electron/worker/cold-start-traversal.ts:64-134 | on a sorted feed it fails, or returns as boundary exactly the ids that share the newest time; never a partial tie |
| `ColdStart.ColdStartIsExact` | electron/worker/cold-start-traversal.ts:47-137 | whatever the source answers: fails exactly when a request is refused or what was heard is not timed and newest first; else is incomplete exactly when the page cap came before the tie closed or the feed ended; else returns all it heard, with exactly the ids at the newest time |
| `ColdStart.ColdStartOnEmptyFirstPage` | electron/worker/cold-start-traversal.ts:68-78 | an empty first page gives an empty baseline at the starting time after one request |
| `ColdStart.NothingNewAfterColdStart` | electron/worker/cold-start-traversal.ts:117-127 | an incremental traversal right after it reports nothing and keeps the boundary |
| `CatchUp.RunAdvancesPass` | electron/worker/incremental-monitor-run.ts:175-279 | a committed run over a fixed feed moves the pass forward by its pages, or finishes it |
| `CatchUp.RestartBeginsPass` | electron/worker/incremental-monitor-run.ts:167-172 | a committed run that restarts begins the pass anew over the feed as it is then |
| `CatchUp.ChainInvariant` | electron/worker/incremental-monitor-run.ts:175-279 | after n runs the pass has covered n caps of pages and reported their new listings in order |
| `CatchUp.ChunkedCatchUpRefinesOnePass` | electron/worker/monitor-run-persistence.ts:100-138 | runs with page cap k, through saved and parsed checkpoints, finish within ceil(pages/k) runs with the same listings in the same order and the same boundary as one uncapped traversal |
| `History.NothingReportedTwice` | electron/worker/watermark-traversal.ts:181-191 | over every history of runs, restarts, failures and feed changes, a publication is reported at most once more than there were restarts, and none that the start boundary covered |
| `History.NothingSkipped` | electron/worker/watermark-traversal.ts:133-206 | when a pass completes, of what it saw exactly what the start did not cover has been reported, and of the feed by then exactly the arrivals are left uncovered |
| `History.NextPassTakesArrivals` | docs/superpowers/specs/2026-09-09-watermark-catchup-checkpoint-design.md:182-186 | the next pass has as its new listings exactly what arrived during the one before |
| `History.PresentStaysInView` | docs/superpowers/specs/2026-09-09-watermark-catchup-checkpoint-design.md:182-186 | what a pass has before it stays before it as long as the feed holds it |
| `History.MatchRowsAreStable` | electron/worker/monitor-run-persistence.ts:74-98 | match rows never change and never double: a new one holds the first selection of its listing |
| `History.MatchesAreSelections` | electron/worker/monitor-run-persistence.ts:80-97 | the match table of a history is the selections of all its runs inserted in order |
| `History.RunStores` | electron/worker/incremental-monitor-run.ts:267-276 | a run that commits stores what it reports, the matches of what it selects and its run row; one that does not changes nothing |
| `History.EverythingReportedIsStored` | electron/worker/monitor-run-persistence.ts:61-98 | over any history a stored listing stays, every reported listing is stored and no match is without its listing |
| `History.ColdStartBegins` | electron/worker/cold-start-persistence.ts:89-139 | committing a cold start begins such a history, with the whole feed covered, or after an empty first page exactly what is older than the starting time |
| `DependencyCheck.BuildGraph` | src/docs-ops/cli.ts:332-346 | the kept edges and the findings about lists, self references and missing tasks, task by task |
| `DependencyCheck.KeepEdges` | src/docs-ops/cli.ts:339-346 | of one task: the dependencies kept, and a finding for each of the others |
| `DependencyCheck.GraphIsWellFormed` | src/docs-ops/cli.ts:343-346 | every kept edge leads to a task, none to its own task |
| `DependencyCheck.CycleSearch.Visit` | src/docs-ops/cli.ts:352-365 | depth-first visit: terminates, keeps colours, stack and finishing order consistent, leaves the node finished or on the stack |
| `DependencyCheck.TopologicalIsAcyclic` | src/docs-ops/cli.ts:352-366 | a graph whose nodes finish after all their successors has no cycle |
| `DependencyCheck.FindCycles` | src/docs-ops/cli.ts:348-366 | every reported path is a simple cycle of the graph, and one is reported exactly when the graph has a cycle |
| `DependencyCheck.CheckDependencies` | src/docs-ops/cli.ts:331-366 | the findings of the graph construction, then cycle findings exactly when there is a cycle |
| `DependencyCheck.FindingsAreExact` | src/docs-ops/cli.ts:332-346 | a malformed list, a self reference and a missing task each have their finding, and there is no other |
| `DependencyCheck.GraphMeaning` | src/docs-ops/cli.ts:332-346 | an edge is kept exactly when the last task with that id lists another, existing task |
| `DependencyCheck.PassesExactly` | src/docs-ops/cli.ts:331-366 | the check passes exactly when every list is one, names other tasks that exist, and no way along listed dependencies comes back |
| `MatchingTerm.PatternReadsBack` | electron/worker/matching-term.ts:5-22 | the emitted pattern, read by the Pattern grammar (section 22.2.1 of ECMA-262), is exactly the literal characters and any-sequences of the term between the anchors |
| `MatchingTerm.CompiledTermMeansGlob` | electron/worker/matching-term.ts:9-25 | a line-terminator-free token is accepted exactly when replacing each `*` by some string yields it |
| `MatchingTerm.OnlySingleTokensCompile` | electron/worker/matching-term.ts:13-15 | compilation succeeds exactly for one normalised token |
| `MatchingText.WordsMeaning` | electron/worker/matching-normalization.ts:50-52 | the spans are the maximal runs of non-space characters, in order |
| `MatchingText.TokenizeParts` | electron/worker/matching-normalization.ts:61-75 | the parts of a hyphenated token with their offsets |
| `MatchingText.TokenizeWord` | electron/worker/matching-normalization.ts:51-75 | the token of one word, trimmed of punctuation, and its parts |
| `MatchingText.TokenizeMatchingTextWithSpans` | electron/worker/matching-normalization.ts:47-79 | all tokens of the text, word by word |
| `MatchingText.TokensLeadBack` | electron/worker/matching-normalization.ts:57-72 | every token is the normal form of the text at its span, and the span lies inside one word |
| `MatchingText.EveryWordIsTokenized` | electron/worker/matching-normalization.ts:50-75 | every word gives its trimmed token, and a hyphenated one every part between hyphens, at its own span |
| `MatchingText.TrimMeaning` | electron/worker/matching-normalization.ts:10-24 | what is cut off a token is punctuation, a kept star not counting; what is left begins and ends with something else, or all was punctuation |
| `MatchingText.NormalMeaning` | electron/worker/matching-normalization.ts:6-8 | lower case with every `ё` written `е`, nothing else changed |
| `ListingMatcher.NormalizeMatchingTermTokens` | electron/worker/matching-normalization.ts:36-45 | the tokens of a term, stars kept at the edges |
| `ListingMatcher.FindToken` | electron/worker/listing-matcher.ts:48 | the first accepted token, if any |
| `ListingMatcher.CollectHits` | electron/worker/listing-matcher.ts:37-54 | fails exactly when a term does not compile; else every hit is the first accepted token of its field and every field a term accepts has its hit |
| `ListingMatcher.MatchListing` | electron/worker/listing-matcher.ts:56-71 | matched exactly when some include term is accepted, or there is none, and no exclude term is, and the same said of globs and tokens; hits of both kinds, exact |
| `ListingMatcher.AcceptedMeansGlob` | electron/worker/listing-matcher.ts:45-48 | a term is accepted in a field exactly when replacing the stars of its normalised glob yields one of the tokens, provided line terminators are spaces and lower case adds none |
| `ListingMatcher.ExactHitsDecide` | electron/worker/listing-matcher.ts:68 | there is a hit exactly when a term is accepted somewhere |
| `ListingMatcher.HitLiesInWord` | electron/worker/listing-matcher.ts:49 | a hit's span is not empty and holds no space |
| `MatchingSnippet.GetWords` | electron/worker/matching-snippet.ts:17-22 | the word spans, in order and apart |
| `MatchingSnippet.EarliestHit` | electron/worker/matching-snippet.ts:41-47 | the include hit of the field that starts first |
| `MatchingSnippet.WidenWindow` | electron/worker/matching-snippet.ts:59-83 | the loop ends in the greedily grown window |
| `MatchingSnippet.ExtractMatchingSnippet` | electron/worker/matching-snippet.ts:37-92 | the snippet of the specification, or none |
| `MatchingSnippet.RenderingGrows` | electron/worker/matching-snippet.ts:24-35 | a window inside another renders no longer, although reaching an edge drops an ellipsis |
| `MatchingSnippet.GrowIsMaximal` | electron/worker/matching-snippet.ts:59-83 | the grown window holds the anchor, fits, and no strictly larger window fits |
| `MatchingSnippet.SnippetIsMaximal` | electron/worker/matching-snippet.ts:37-92 | the snippet is the rendering of a maximal window around the word of the earliest hit, and a description has one exactly when that word alone fits; `SnippetShowsFirstHit` says which text that is |
| `MatchingSnippet.FirstHitMeaning` | electron/worker/matching-snippet.ts:41-47 | of the include hits of the field the one that starts first, the first in the list among equals |
| `MatchingSnippet.SnippetShowsFirstHit` | electron/worker/matching-snippet.ts:24-92 | the stretch of text from one word to another with the first hit inside, an ellipsis at an end exactly where words are left out, within the limit while no larger window is; none exactly when the limit is not positive, nothing matched, the word of the hit does not fit, or a title fits or would be shown whole |
| `MatchingSnippet.WindowGrowsEvenly` | electron/worker/matching-snippet.ts:59-83 | the window is reached word by word, each time by a neighbour that fits, of two the one that leaves the hit nearer the middle, the left one when equal |
| `MatchingSnippet.RealHitIsAnchored` | electron/worker/matching-snippet.ts:52-53 | a hit inside a word always has an anchor |
| `TelegramTransport.TelegramBotService.StopTransport` | electron/worker/telegram-bot-service.ts:148-152 | forgets the transport, which is no longer live |
| `TelegramTransport.TelegramBotService.ArmReconnect` | electron/worker/telegram-bot-service.ts:154-165 | arms the timer only for the current generation and token |
| `TelegramTransport.TelegramBotService.Start` | electron/worker/telegram-bot-service.ts:167-204 | starts a transport for the current lease, whichever step of it fails |
| `TelegramTransport.TelegramBotService.Configure` | electron/worker/telegram-bot-service.ts:239-246 | the part up to the first await: new generation, timer cancelled, transport stopped |
| `TelegramTransport.TelegramBotService.Resume` | electron/worker/telegram-bot-service.ts:206-220 | the same for a restart; nothing without a token |
| `TelegramTransport.TelegramBotService.Stop` | electron/worker/telegram-bot-service.ts:314-321 | the same for stop, without a token |
| `TelegramTransport.TelegramBotService.Continue` | electron/worker/telegram-bot-service.ts:245-263 | a suspended call goes on only when its generation and token are current |
| `TelegramTransport.TelegramBotService.FireTimer` | electron/worker/telegram-bot-service.ts:160-164 | a fired timer starts only its own lease, if current |
| `TelegramTransport.TelegramBotService.RejectPolling` | electron/worker/telegram-bot-service.ts:193-203 | a late rejection of another transport changes nothing |
| `TelegramTransport.AtMostOneLive` | electron/worker/telegram-bot-service.ts:148-267 | in every interleaving at most one transport is live, and it was made for the current generation and token |
| `TelegramTransport.SilentWithoutToken` | electron/worker/telegram-bot-service.ts:239-321 | after stop or configure(null), until a token is configured again, nothing is live and no timer, late rejection or suspended call starts anything |
| `TelegramTransport.StartsFromNothing` | electron/worker/telegram-bot-service.ts:167-267 | a transport becomes live only when none was, from a suspended call or a timer, and without changing token or generation |
| `TelegramTransport.StillStoppingAtStart` | electron/worker/telegram-bot-service.ts:148-263 | a started transport meets no live one; those still stopping are exactly the ones other, superseded calls wait for |
| `TelegramTransport.SequentialCallsStartClean` | electron/worker/telegram-bot-service.ts:206-263 | when calls do not overlap no transport starts while another is stopping |
| `TelegramTransport.OverlapForExample` | electron/worker/telegram-bot-service.ts:239-263 | two overlapping calls of configure after which one transport is live while another is stopping |
| `TelegramTransport.RejectionRearms` | electron/worker/telegram-bot-service.ts:154-203 | in every reachable state: when the polling of the current transport is rejected the timer is armed for exactly its lease; a late rejection of another changes nothing |
| `TelegramTransport.StartOutcomes` | electron/worker/telegram-bot-service.ts:167-204 | a start from any reachable state makes one new transport live for the lease in force; a `start()` that throws leaves the timer armed for it; a transport that cannot be created leaves neither |
| `TelegramTransport.ConnectionComesBack` | electron/worker/telegram-bot-service.ts:154-203 | rejection and timer end with one live transport for the same lease |
| `TelegramTransport.ConfigureStarts` | electron/worker/telegram-bot-service.ts:239-263 | undisturbed, `configure` with a token stops what runs and ends with one live transport for the token, from any reachable state |
| `TelegramTransport.ResumeStarts` | electron/worker/telegram-bot-service.ts:206-220 | so does `resume` for the configured token |
| `TelegramTransport.ActiveTokenIsHeld` | electron/worker/telegram-bot-service.ts:148-263 | in every interleaving, while a token is active there is a transport, an armed timer or a call about to start one, until exactly the step at which a transport cannot be created or the promise the latest call waits for is rejected |
| `MessageTemplate.EscapeReadsBack` | electron/worker/telegram-message-template.ts:26-28 | escaping leaves no markup characters and reading the entities back gives the value, so the order of the replacements is right |
| `MessageTemplate.RenderLength` | electron/worker/telegram-message-template.ts:44-54 | the length of a message is a constant plus the escaped lengths of its fields |
| `MessageTemplate.TruncateToFit` | electron/worker/telegram-message-template.ts:56-76 | the binary search finds what the downward scan finds, for every monotone rendering; the result fits or is empty |
| `MessageTemplate.TruncatedIsLongest` | electron/worker/telegram-message-template.ts:56-76 | the value if it fits, else the longest code-point prefix with an ellipsis that fits, else nothing |
| `MessageTemplate.RenderingIsMonotone` | electron/worker/telegram-message-template.ts:44-54 | rendering with a shorter prefix never needs more units, for each field |
| `MessageTemplate.FormatTelegramMessage` | electron/worker/telegram-message-template.ts:78-117 | the message is the rendering of the finally chosen fields |
| `MessageTemplate.MessageFitsExactly` | electron/worker/telegram-message-template.ts:78-117 | the message respects 4096 units exactly when it is not the case that there is a description and the message without it takes 4086 to 4096 |
| `MessageTemplate.TooLongForExample` | electron/worker/telegram-message-template.ts:90-97 | a title of 4040 letters and a description of two words give a message of 4106 units |
| `MessageTemplate.SacrificeOrder` | electron/worker/telegram-message-template.ts:88-117 | a field is shortened or dropped only when everything less important is gone |
| `MessageTemplate.NothingGivenUpInVain` | electron/worker/telegram-message-template.ts:88-117 | a message that fits is left as it is; the description, the region are dropped only when the message does not fit without; every field is whole, cut with an ellipsis or empty, and no longer form of it fits while everything more important is whole |
| `MessageTemplate.MessageShowsFields` | electron/worker/telegram-message-template.ts:44-54 | line by line: name in bold, title, price, region and description where there is one, link; each reads back from its place |
| `MessageTemplate.PriceMeaning` | electron/worker/telegram-message-template.ts:30-42 | only a fixed price with an amount shows one, then its currency if there is one; the other texts tell the kinds apart |
| `DescriptionBudget.DescriptionRequestBudget.Consume` | electron/worker/description-request-budget.ts:10-20 | grants ten requests and no more |
| `DescriptionBudget.ListingDescriptionCache.EnsureDescriptionOnce` | electron/worker/listing-description-cache.ts:50-132 | cached answer, budget refusal, request, and the row each answer leaves |
| `DescriptionBudget.SelectCandidates` | electron/worker/incremental-monitor-run.ts:237-264 | the selection loop: the same selection, error, rows and requests as the specification |
| `DescriptionBudget.RunIsBounded` | electron/worker/incremental-monitor-run.ts:237-264 | whatever the endpoint answers: at most ten requests, none for a settled row, settled rows unchanged, every request but the last has settled its row |
| `DescriptionBudget.NeverAskedAgain` | electron/worker/listing-description-cache.ts:56-76 | a settled description is never requested again in any later history of runs, and stays as it is |
| `DescriptionBudget.SelectProgress` | electron/worker/incremental-monitor-run.ts:237-264 | with a source that answers, the loop ends exactly when the budget covers everything waiting; else it has settled, in order, as many as the budget allowed |
| `DescriptionBudget.BudgetedRunsCommit` | electron/worker/incremental-monitor-run.ts:237-276 | u waiting candidates take exactly max(1, ceil(u/10)) runs; the earlier ones fail after ten requests, and the last selects what a run without any budget selects |
| `DescriptionBudget.KnownIsSelect` | electron/worker/incremental-monitor-run.ts:237-264 | that selection is the one of a selector that knows every description |
| `DescriptionBudget.LookUpMeaning` | electron/worker/listing-description-cache.ts:50-132 | what is known is answered from its row; else the budget may refuse; else one request, whose final answer is the row from then on; an answer once given is given again to whoever asks, without a request |
| `DescriptionBudget.SelectionMeaning` | electron/worker/incremental-monitor-run.ts:237-264 | a run that ends has selected exactly the candidates that are accepted and match, each judged by the description its row then holds |
| `RateLimiters.RateLimiter.Schedule` | electron/worker/kufar-rate-limiter.ts:48-57 | the job is chained behind the one scheduled last |
| `RateLimiters.CreateRateLimiter` | electron/worker/kufar-rate-limiter.ts:33-46 | a limiter exists exactly for valid options, and starts idle |
| `RateLimiters.KufarRateLimiter` | electron/worker/kufar-rate-limiter.ts:95 | the default limiter: every delay it samples lies between two and five seconds |
| `RateLimiters.RateLimiter.ImposeCooldown` | electron/worker/kufar-rate-limiter.ts:59-62 | the cooldown only grows; a negative delay is refused and changes nothing |
| `RateLimiters.RateLimiter.Begin` | electron/worker/kufar-rate-limiter.ts:77-92 | the cadence is sampled once, a bad sample settles the job as failed |
| `RateLimiters.RateLimiter.Wake` | electron/worker/kufar-rate-limiter.ts:81-91 | a turn of the waiting loop reads the cooldown anew |
| `RateLimiters.DelayRange` | electron/worker/kufar-rate-limiter.ts:64-75 | a usable random value gives a delay within the configured range, any other is refused |
| `RateLimiters.DelayCoversRange` | electron/worker/kufar-rate-limiter.ts:64-75 | every whole delay of the range is reached |
| `RateLimiters.EveryRunIsPaced` | electron/worker/kufar-rate-limiter.ts:48-92 | in every run: one operation at a time, in scheduling order, starts at least the interval and smallest jitter apart, none before the end of a cooldown imposed before it |
| `RateLimiters.NeverBlocked` | electron/worker/kufar-rate-limiter.ts:48-92 | in every run the first open job can always move, however the jobs before it ended |
| `RateLimiters.StartsAreSpaced` | electron/worker/kufar-rate-limiter.ts:77-92 | of any two starts of a run the later is of a later job, and the interval and smallest jitter away |
| `RateLimiters.CooldownHoldsStarts` | electron/worker/kufar-rate-limiter.ts:59-92 | no operation starts before the end of a cooldown imposed earlier in the run |
| `RateLimiters.StartsWhenDue` | electron/worker/kufar-rate-limiter.ts:77-92 | once interval and largest jitter have passed since the last start and the imposed cooldowns are over, the first open job starts at its next turn |
| `RunOwnership.OwnershipAlwaysHolds` | electron/worker/scheduled-monitor-run.ts:164-250 | in every schedule of triggers, state changes, recoveries and crashes: one live traversal per monitor, the monitor active throughout |
| `RunOwnership.OthersAreSpared` | electron/worker/scheduled-monitor-run.ts:164-250 | no other session changes a traversal's stage, its run row or its monitor's activity |
| `RunOwnership.RowsMoveForward` | electron/worker/monitor-run-recovery.ts:10-31 | a finished row never changes; an orphaned row is changed only by recovery, to interrupted |
| `RunOwnership.RecoveryTakesOrphans` | electron/worker/monitor-run-recovery.ts:10-31 | the recovery of a monitor interrupts exactly its open rows, none of which a live session is writing |
| `RunExecutor.LeaseAcquirer.Acquire` | electron/worker/monitor-run-lease.ts:11-27 | grants a lease exactly when the monitor is free |
| `RunExecutor.Lease.Release` | electron/worker/monitor-run-lease.ts:20-24 | only the first release frees the monitor |
| `RunExecutor.ExecuteScheduledRun` | electron/worker/scheduled-monitor-run.ts:164-250 | every path, failing writes included, releases the lease and leaves the specified rows and result |
| `RunExecutor.ErrorsAreRetried` | electron/worker/scheduled-monitor-run.ts:164-250 | the caller sees an error exactly for retryable source codes, resilient failures without a pause, unexpected failures, failed writes and a missing monitor; every result says how it came about |
| `RunExecutor.ExecutionAddsOneRow` | electron/worker/scheduled-monitor-run.ts:164-250 | at most one row is added: skipped under a held lease, else the run's own, open only when its error could not be written |
| `RunExecutor.SetMonitorState` | electron/worker/monitor-config-sync.ts:40-74 | refused while leased, for a forbidden transition or when not written, else the new state even if the schedule fails; the lease is free again |
| `RunExecutor.StateChangeMeaning` | electron/worker/monitor-config-sync.ts:40-74 | the state changes exactly for a free lease, an allowed transition and a successful write; each refusal has its error; nothing else changes |
| `RunExecutor.RecoverInterruptedMonitorRuns` | electron/worker/monitor-run-recovery.ts:33-66 | visits the candidates in order, skips leased ones, stops at a failed update or release, the update outranking |
| `RunExecutor.RecoveryIsComplete` | electron/worker/monitor-run-recovery.ts:33-66 | recovery finishes exactly when neither update nor release of a free candidate fails; then every open row under a free lease is interrupted and no other row changes |
| `RunExecutor.ExecutorFollowsProtocol` | electron/worker/scheduled-monitor-run.ts:164-250 | the executor, undisturbed, is a schedule of the protocol |
| `RunExecutor.StateChangeFollowsProtocol` | electron/worker/monitor-config-sync.ts:40-64 | so is a change of state |
| `RunExecutor.RecoveryFollowsProtocol` | electron/worker/monitor-run-recovery.ts:33-66 | so is a recovery |
| `OutboxDelivery.TelegramOutboxDelivery.MarkSending` | electron/worker/telegram-outbox-delivery-repository.ts:32-37 | writes only an existing match that is not notified |
| `OutboxDelivery.TelegramOutboxDelivery.MarkNotified` | electron/worker/telegram-outbox-delivery-repository.ts:39-44 | the same guard; clears the sending mark |
| `OutboxDelivery.TelegramOutboxDelivery.Deliver` | electron/worker/telegram-outbox-delivery.ts:43-86 | the handler is a path of the steps; it throws exactly when it gets to the attempt and a write or the send fails for now; sends, journal lines, attempt and the columns of the match are as stated case by case, so an accepted send whose writes succeed leaves the match notified, its sending mark gone |
| `OutboxDelivery.SendsAreAccountedFor` | electron/worker/telegram-outbox-delivery.ts:43-86 | with a crash at any point: sends of a match are at most one plus its resent lines, `notifiedAt` follows an accepted send, attempts to a chat keep the interval |
| `OutboxDelivery.NotifiedIsNeverSentAgain` | electron/worker/telegram-outbox-delivery.ts:44-45 | a match once notified is never sent again and stays notified |
| `OutboxDelivery.DeliveredForGood` | electron/worker/telegram-outbox-delivery.ts:73-85 | in every run, after an accepted send and the write behind it the match is notified and no later job sends it |
| `KufarUrl.ParseGoodsPath` | shared/kufar-url.ts:98-126 | the loop computes the goods grammar of the specification |
| `KufarUrl.ParseRealEstatePath` | shared/kufar-url.ts:128-160 | the loop computes the real-estate grammar, operation words in other positions included |
| `KufarUrl.ParseQueryParams` | shared/kufar-url.ts:183-216 | sort, seller and extra parameters, or the seller error |
| `KufarUrlText.DecodeSegments` | shared/kufar-url.ts:71-76 | the decoded segments, or none when one is malformed |
| `KufarUrlText.ParseKufarListingUrl` | shared/kufar-url.ts:308-345 | the query or the first error of a text, in the order of the checks |
| `KufarUrlMeaning.GoodsMeaning` | shared/kufar-url.ts:98-126 | the last `r~` segment gives the region, the last `q~` segment the text, the marker anywhere the seller; of the others the first is the category, the rest are filters, in order |
| `KufarUrlMeaning.RealEstateMeaning` | shared/kufar-url.ts:128-160 | the first operation word anywhere is the operation, the first segment else the region; a marker behind it gives the seller; of the others the first is the category, the rest are filters, in order |
| `KufarUrlMeaning.UrlMeaning` | shared/kufar-url.ts:308-345 | a URL is parsed to what path and parameters say, or refused for its protocol, its host, its route or sellers that contradict each other, in this order |
| `KufarUrlMeaning.TextMeaning` | shared/kufar-url.ts:308-345 | the same for a text, which is refused for a malformed segment behind protocol and host, before the route |
| `KufarUrl.ParamsMeaning` | shared/kufar-url.ts:162-216 | the first sort counts, other parameters keep all values in order, pagination is ignored; refused exactly when the seller values do not all say one known kind |
| `KufarUrl.GoodsPathRoundTrip` | shared/kufar-url.ts:227-233 | printed goods segments parse back to the same record |
| `KufarUrl.RealEstatePathRoundTrip` | shared/kufar-url.ts:221-226 | printed real-estate segments parse back to the same record when a region or operation stands first |
| `KufarUrl.ParamsRoundTrip` | shared/kufar-url.ts:238-256 | printed parameters parse back to the same sort, seller and map of extras |
| `KufarUrl.SameMapSamePairs` | shared/kufar-url.ts:238-256 | equal parameter objects are printed the same, whatever their insertion order |
| `KufarUrl.PrintedUrlParsesBack` | shared/kufar-url.ts:308-360 | for every parsed query: the printed URL parses; to an equal query exactly when the seller marker would not stand first; printing again gives the same URL |
| `KufarUrlText.PrintedTextParsesBack` | shared/kufar-url.ts:308-360 | the same for texts, given a codec that undoes itself |
| `KufarUrl.SellerLostForExample` | shared/kufar-url.ts:221-226 | an accepted URL that loses its seller filter |

## Left out

- Feed changes inside one run, between two of its requests: the history theorems let the feed change between any two runs, also within a pass.
- History.NothingReportedTwice: says nothing of a publication that arrives above the cursor older than something the pass has read, because the next boundary would cover it; such arrivals are not among the changes modelled.
- A publication is an id with its time: a listing raised to a newer time counts as new, as in the code.
- Spelling of times, `lastRunAt`, durations and run error texts: times are integer epochs, a text that does not parse is a value of its own.
- SQL isolation and row locks: a transaction is one step, and every cursor write gets a revision never used before.
- A lease that outlives its connection: an advisory lock is held exactly as long as its session lives, so a worker cut off from the database while it still traverses is not modelled.
- DescriptionBudget.ListingDescriptionCache.EnsureDescriptionOnce: does not model the map of loads in flight, because one run awaits its loads one after another; two runs loading the same listing at once are not covered.
- DescriptionBudget.BudgetedRunsCommit: one setting for all runs, as progress needs an endpoint, prefilter and selector that do not change; `RunIsBounded`, `NeverAskedAgain` and `DescribedRunIsRun` hold for settings that do.
- DescribedRun.RunIncrementalMonitor: the seller blocks, the prefilter and the keyword selection enter as functions of the setting.
- RunExecutor.ExecuteScheduledRun: does not model the degraded level of a run row, the error columns and the callbacks, which no branch reads back; routing to a source is part of the cycle.
- MonitorStore.Database.RecordRunRow: does not model `finishedAt`, the duration and the cleared error columns, which nothing in the model reads.
- MonitorStore.Database.UpdateMonitorConfigTransaction: a persisted query is taken as readable; `parsePersistedCanonicalQuery` checks JSON shapes only.
- RunExecutor.SetMonitorState: the cursor reset on leaving the archive is `MonitorStore.Database.UpdateMonitorConfigTransaction`.
- RunExecutor.RecoverInterruptedMonitorRuns: a release that throws is taken to give the lease up, as a broken connection does.
- TelegramTransport.AtMostOneLive: a transport counts as live until it is told to stop; how long it takes to stop is the subject of `StillStoppingAtStart`.
- RateLimiters.StartsWhenDue: how late a timer fires is up to the event loop. Jitter is computed over real numbers, not floating point.
- MessageTemplate.MessageFitsExactly: texts are sequences of code points; a lone surrogate is not a text here.
- KufarUrlText.PrintedTextParsesBack: taking a text apart and percent coding are a codec that undoes itself; object-prototype keys of extra parameters are left out.
- The search API mapping of a query (`shared/kufar-url.ts:258-306`): two fixed patterns, an abstract `supported` predicate here.
- MatchingTerm.CompiledTermMeansGlob: characters are abstract; the regular-expression engine, letter case, punctuation and space classes are parameters, and tokens with line terminators are excluded because `.` does not match them; `ListingMatcher.AcceptedMeansGlob` shows that tokens of a text have none.
- MatchingSnippet.EarliestHit: stands for sorting the hits and taking the first; the other hits are not used by the code.
- Telegram state, candidate and binding events, and the delays of the reconnect policy: they do not decide which transport lives.
- OutboxDelivery.TelegramOutboxDelivery.Deliver: the queue's retry count and back-off are left out; any job may be received again at any time; in the method a job meets only an archived monitor and failing writes, deletions and crashes are steps of the state machine.
- Vue pages, Electron windows and IPC, normalisers of source data, the HTML fallback, the interval table, raw response files and the rest of the documentation tool: plumbing or shallow checks.
