# Verification model of the memory server

Dafny models of the stateful cores of the repository, and proofs about every run of them. `dafny verify dfyconfig.toml`
checks the whole project.

- **Rebuild coordinator.** `RebuildSlots` is `StateMap`. `CoordinatorModel` is one owner's coordinator as a transition
  system in which every `await` ends a step. Language models, search, failures and panics are event arguments, so a run is
  any interleaving with any replies. `CoordinatorSafety` holds the invariants, `CoordinatorTheorems` the statements about
  runs, `ExactCoverage` the exact condition for the watermark, `WorkerDecisions` what single steps decide and
  `WorkerRank` the ranking function. `WorkerLoop` is the worker as it is written, with its loops over shared state;
  each of its methods is proved to perform a run of the transition system and to follow what the awaited calls
  answered. `Storage` and `InputBuilder` are the tables and the input selection it uses.
- **Ingest dedup.** `CharText` models UTF-8 offsets and the alignment guard, `WordMatch` the search-and-replace loops with
  their specification, `DedupScan` the catalogue scan.
- **Paging.** `JobPaging`, `ExportPaging` and `FanOut`.
- **Authorization server.** `AuthSessions` is the expiring map. `AuthProtocol` and `AuthTheorems` are the life of a right
  from `/authorize` to its last refresh token, as a transition system in which every stretch without an await is one
  event; `AuthTiming` adds the expiries. `AuthHandlers` are the handlers, proved to perform runs of it.
- **Rate limiter, FTS quoting, percent-encoding.** `RateLimiter`, `FtsQuery`, `PercentEncoding`.

Where a property is not true of the code, the model keeps the code:

- The watermark does not cover every run: a raw that commits in the millisecond an iteration has already listed can be lost
  (`ExactCoverage.SameMillisecondIsLost`). `ExactCoverage.CoverageIsPunctuality` says exactly which runs it covers;
  `WatermarkCoverage` gives the discipline on commits that is enough.
- `Rewritten` can carry an unchanged text (`RewrittenUnchanged`); `ChangeIsReal` says exactly when, for every
  catalogue. An untrimmed or unaligned name that occurs in a text changes more than letter case (`CaseOnly`;
  `UntrimmedGrows` is such an input).
- Clamped fan-out fetching is exact up to offset + limit = 1000 and, by `LimitIsExact`, wrong for some collections beyond.
- `merge_pending` lets a later single-concept request replace an earlier one, so not every manual request runs;
  `PendingIsFaithful` says what the slot remembers.

## Model

| member | source | states |
|---|---|---|
| `CoordinatorTheorems.WatermarkCoverage` | `crates/llm-memory-coordinator/src/worker.rs:221-342` | sufficient form of coverage: in every run whose raws commit later than the watermark and than any listing in flight, each raw of the owner at or below `max_last_rebuilt_at` was among the `new_raws` of an iteration that wrote a wiki; without manual requests it also went through a successful extract |
| `ExactCoverage.CoverageIsPunctuality` | `crates/llm-memory-coordinator/src/worker.rs:221-342` | exactly when the watermark covers: after any run, every own raw at or below `max_last_rebuilt_at` is digested if and only if no own raw committed at or below the watermark of its moment and, whenever a wiki was written, repeating the iteration's own `list_since` would have found nothing it had not listed; any other run has lost a raw for good |
| `ExactCoverage.CoverageIsTimeliness` | `crates/llm-memory-coordinator/src/worker.rs:221-342` | the same with a condition on history: each wiki was written by an iteration that had listed every own raw up to its start not yet taken in |
| `ExactCoverage.PunctualIsTimely` | `crates/llm-memory-coordinator/src/worker.rs:221-225` | where everything is covered, a step meets the one condition exactly when it meets the other |
| `ExactCoverage.WindowsRun` | `crates/llm-memory-coordinator/src/worker.rs:224-225` | in every run, an own raw of a listed window that some iteration took in is in that listing |
| `ExactCoverage.TimelyOrLost` | `crates/llm-memory-coordinator/src/worker.rs:221-342` | a run that breaks the condition once has lost a raw for good, whatever follows |
| `ExactCoverage.OnTimeIsPunctual` | `crates/llm-memory-storage/src/raws.rs:62-79` | the discipline on commits alone is enough for the condition |
| `ExactCoverage.SameMillisecondIsLost` | `crates/llm-memory-coordinator/src/worker.rs:222-225` | from an empty database, a run in which a raw that carries the current clock commits after a listing of the same millisecond and is lost |
| `ExactCoverage.DigestedRun` | `crates/llm-memory-coordinator/src/worker.rs:235-253` | in every run, what an iteration took in was extracted or the iteration was manual |
| `CoordinatorTheorems.CoverageInvariant` | `crates/llm-memory-coordinator/src/worker.rs:221-342` | what makes coverage inductive: everything at or below the watermark is digested and every unfinished listing still holds its whole window |
| `CoordinatorTheorems.WatermarkNeverDecreases` | `crates/llm-memory-coordinator/src/worker.rs:446-455` | along any run the maximum of `last_rebuilt_at` never goes back, although each upsert replaces a row |
| `CoordinatorTheorems.LateCommitIsLost` | `crates/llm-memory-storage/src/raws.rs:62-79` | the commit discipline is needed: a raw committed at or below the watermark is lost at once, one inside a listed window is in nobody's hands |
| `CoordinatorTheorems.OvertakenIsLost` | `crates/llm-memory-coordinator/src/worker.rs:446-455` | a raw an iteration did not list is lost as soon as that iteration writes a wiki stamped at or after it |
| `CoordinatorTheorems.LostForGood` | `crates/llm-memory-coordinator/src/worker.rs:221-342` | a lost raw is never listed again in any continuation |
| `CoordinatorTheorems.OneLiveWorker` | `crates/llm-memory-coordinator/src/worker.rs:39-86` | in every reachable state the number of workers claimed, running or not yet released is 1 when `running` is set and 0 otherwise |
| `CoordinatorTheorems.EpilogueOwnsFlag` | `crates/llm-memory-coordinator/src/worker.rs:55-84` | an epilogue that releases the slot finds its own worker as the only live one; a wrapper whose worker returned normally takes that worker off and leaves everything else as it is |
| `CoordinatorTheorems.NoLostWakeUp` | `crates/llm-memory-coordinator/src/state.rs:53-119` | after every append notice an append session has begun since, or one is still recorded or about to begin, or a panicked worker has yet to be forced idle, unless `force_idle` ran in between |
| `CoordinatorTheorems.NoticeIsOwed` | `crates/llm-memory-coordinator/src/coordinator.rs:20-29` | a notice leaves an append session recorded or at the head of the worker it starts (or a panicked worker has yet to be forced idle), whether or not a worker is running |
| `CoordinatorTheorems.DebtStep` | `crates/llm-memory-coordinator/src/state.rs:107-119` | no step other than the beginning of an append session or `force_idle` drops what `NoLostWakeUp` says is owed |
| `WorkerDecisions.MissedAppendGoesFirst` | `crates/llm-memory-coordinator/src/state.rs:72-119` | while an append is recorded as missed, every session handed out, to a new worker or to the running one, is an append session |
| `WorkerDecisions.NoManualBeforeMissedAppend` | `crates/llm-memory-coordinator/src/state.rs:98-119` | over runs: from a recorded notice on, no manual session is handed out before an append session has been, unless `force_idle` runs |
| `WorkerDecisions.MissedUntilHandedOut` | `crates/llm-memory-coordinator/src/state.rs:107-119` | a recorded notice stays recorded until an append session is handed out or `force_idle` runs |
| `WorkerDecisions.RequestStarts` | `crates/llm-memory-coordinator/src/state.rs:53-90` | on a free slot a request starts what was asked, except that a missed append goes before a manual request, which stays pending; on a held slot it starts nothing and is noted |
| `WorkerDecisions.SessionIsFollowed` | `crates/llm-memory-coordinator/src/worker.rs:121-193` | after a capped session another append session follows without asking the slot until the third in a row, and once more when raws are left; otherwise the missed append, then the pending request, then the release |
| `WorkerDecisions.LookupFindsRemainder` | `crates/llm-memory-coordinator/src/worker.rs:129-164` | the lookup says "remainder" exactly when it failed or an own raw lies above the watermark |
| `WorkerDecisions.ReadsAreCurrent` | `crates/llm-memory-coordinator/src/worker.rs:222-226` | the iteration starts at the current clock and lists exactly the own raws after the watermark it read, up to that start |
| `WorkerDecisions.ChosenByMode` | `crates/llm-memory-coordinator/src/worker.rs:228-337` | append without new raws ends the session; append and manual iterations take exactly the concepts their mode calls for; a new concept at the limit is given up and the session goes on appending |
| `WorkerDecisions.ChosenByReply` | `crates/llm-memory-coordinator/src/worker.rs:254-311` | an append iteration takes every valid existing concept the reply names and the first valid new names the budget of 200 has room for, and nothing else |
| `WorkerDecisions.WriteIsOneRow` | `crates/llm-memory-coordinator/src/worker.rs:437-455` | a write replaces exactly the row of its concept: content returned, exactly the returned references among the inputs, stamped with the start of the iteration |
| `WorkerDecisions.SessionEnds` | `crates/llm-memory-coordinator/src/worker.rs:333-358` | a session ends as done only in an iteration that found nothing to do and as capped only after the tenth |
| `CoordinatorTheorems.PendingIsFaithful` | `crates/llm-memory-coordinator/src/state.rs:150-156` | the pending request always equals "full rebuild if any was asked for since the last take, else the latest request" |
| `CoordinatorTheorems.BudgetHolds` | `crates/llm-memory-coordinator/src/worker.rs:281-327` | whatever the extractor answers and whoever asks, an owner never has more than 200 wikis |
| `CoordinatorTheorems.ReferencesAreOwn` | `crates/llm-memory-coordinator/src/worker.rs:437-455` | every id in a personal wiki's `source_refs` resolves, by id alone, to a raw of the same owner |
| `CoordinatorTheorems.RunIsSafe` | `crates/llm-memory-coordinator/src/worker.rs:105-358` | every reachable state satisfies the joint invariant: one worker, meaning of the pending request, budget, provenance, soundness of what a worker carries across awaits |
| `CoordinatorSafety.SafeStep` | `crates/llm-memory-coordinator/src/worker.rs:105-358` | each single step keeps the joint invariant |
| `CoordinatorSafety.ExclusiveStep` | `crates/llm-memory-coordinator/src/state.rs:53-140` | each step keeps "running exactly when one worker is live, and never two" |
| `CoordinatorSafety.PendingLeaves` | `crates/llm-memory-coordinator/src/state.rs:107-130` | a pending request leaves the slot only as the mode of the session that `mark_idle_or_continue` hands out, or in `force_idle` |
| `CoordinatorSafety.AppendWithinBudget` | `crates/llm-memory-coordinator/src/worker.rs:254-311` | the concepts an append iteration touches together with the existing ones stay within 200, for any reply, duplicates and invalid names included |
| `CoordinatorSafety.GatherOk` | `crates/llm-memory-coordinator/src/worker.rs:411-419` | the inputs of a synthesis are raws of the owner although old references are looked up by id alone |
| `CoordinatorSafety.UpsertRefs` | `crates/llm-memory-coordinator/src/worker.rs:437-444` | references that survive the filter name stored raws of the owner |
| `CoordinatorSafety.UpsertCounts` | `crates/llm-memory-coordinator/src/worker.rs:446-455` | an upsert cannot exceed the budget decided earlier in the iteration |
| `CoordinatorSafety.UpsertWatermark` | `crates/llm-memory-coordinator/src/worker.rs:446-455` | an upsert moves the watermark to exactly the iteration's `started_at` |
| `CoordinatorModel.KeepValid` | `crates/llm-memory-core/src/concept.rs:16-20` | the names kept are exactly the offered ones that satisfy the concept pattern |
| `CoordinatorModel.KeepIds` | `crates/llm-memory-coordinator/src/worker.rs:437-442` | the references kept are exactly those among the ids given to the synthesizer |
| `CoordinatorModel.KeepIdsInOrder` | `crates/llm-memory-coordinator/src/worker.rs:438-442` | they keep the order in which they were returned |
| `WorkerRank.TwelveSessionsAtMost` | `crates/llm-memory-coordinator/src/worker.rs:110-194` | from any reachable state, without further requests, a worker begins at most 12 sessions |
| `WorkerRank.SessionsArePaid` | `crates/llm-memory-coordinator/src/worker.rs:110-194` | sessions begun plus remaining potential never exceed the starting potential plus three per request: the ranking function over whole runs |
| `WorkerRank.PotentialStep` | `crates/llm-memory-coordinator/src/worker.rs:121-193` | no step raises the potential beyond what the step itself brings in as a request, and every session begun lowers it |
| `WorkerRank.GapSessions` | `crates/llm-memory-coordinator/src/worker.rs:128-191` | between two calls of `mark_idle_or_continue` at most 6 sessions run, and more than 3 only when the forced drain is spent in that gap |
| `WorkerRank.LongGapOnlyOnce` | `crates/llm-memory-coordinator/src/worker.rs:120-184` | a worker has at most one gap of more than 3 sessions |
| `WorkerRank.DrainedForLife` | `crates/llm-memory-coordinator/src/worker.rs:120-184` | once used, the forced drain stays used until the worker is gone |
| `WorkerLoop.Process.RunSession` | `crates/llm-memory-coordinator/src/worker.rs:215-359` | the session loop performs a legal run that ends where its result says, fails only if its last call failed and in the same way, uses up one session of the ranking function, and never reaches its trailing return |
| `WorkerLoop.Process.RunWorker` | `crates/llm-memory-coordinator/src/worker.rs:105-195` | the outer loop performs a legal run and fails only if its last call did; sessions run plus remaining potential stay within the initial potential; on a normal return the slot is free |
| `WorkerLoop.Process.SpawnWorker` | `crates/llm-memory-coordinator/src/worker.rs:39-86` | after an error or a panic the slot is free when the wrapper is done; after a normal return the wrapper only takes its own worker off, whoever holds the slot by then; sessions stay within the ranking function |
| `WorkerLoop.Process.Outlive` | `crates/llm-memory-coordinator/src/worker.rs:44-59` | between a normal return and the wrapper waking, requests may claim the slot and successors may run to any point; the worker is then gone and the last thing logged about it is the wrapper leaving |
| `WorkerLoop.Process.WakeAny` | `crates/llm-memory-coordinator/src/worker.rs:55-59` | a wrapper that wakes after a normal return changes neither slot nor data nor any other worker |
| `WorkerLoop.Process.RunIteration` | `crates/llm-memory-coordinator/src/worker.rs:221-357` | one iteration ends the session as the code does or leaves it at the opening of the next append iteration; one that ends as done writes nothing, and an append iteration that goes on without a failed call has written rows stamped with its start |
| `WorkerLoop.Process.OpenIteration` | `crates/llm-memory-coordinator/src/worker.rs:222-226` | clock, watermark, listing and concepts are read in this order, each possibly in a different state of the world |
| `WorkerLoop.Process.SelectConcepts` | `crates/llm-memory-coordinator/src/worker.rs:228-337` | the concepts wanted by the mode and, for an append, by what the extractor answered; nothing to do exactly when that is none; failed only if the last call did |
| `WorkerLoop.Process.SynthesizeConcepts` | `crates/llm-memory-coordinator/src/worker.rs:361-397` | up to four tasks at a time, in any interleaving, all finished at the end; only affected rows change; if no call of the fan-out failed, every affected concept has a row stamped with the start of the iteration; a failed concept does not fail the session |
| `WorkerLoop.Process.AdvanceTask` | `crates/llm-memory-coordinator/src/worker.rs:399-457` | after a call that succeeded a task goes from the row's own references to the built inputs to the written row, with the content and exactly the references returned; only a failed call finishes it without a write; each is one step of the transition system |
| `WorkerLoop.Process.MoveTask` | `crates/llm-memory-coordinator/src/worker.rs:374-395` | one await of one task: an error finishes it without a write, a panic breaks the worker, success moves it on |
| `WorkerLoop.Process.Fulfil` | `crates/llm-memory-coordinator/src/worker.rs:339-356` | the writing half of an iteration stamps every affected concept when no call failed, and ends the session only after the tenth iteration or a panic |
| `WorkerLoop.Process.FollowSession` | `crates/llm-memory-coordinator/src/worker.rs:123-192` | after a session the worker goes on, gives the slot up, or fails because its last call did |
| `WorkerLoop.Process.WeighRemainder` | `crates/llm-memory-coordinator/src/worker.rs:130-164` | the leftover lookup says "remainder" exactly when it finds raws above the watermark or its listing failed |
| `WorkerLoop.Process.AskSlot` | `crates/llm-memory-coordinator/src/worker.rs:124-127` | `mark_idle_or_continue` either continues with the mode it hands out or leaves the slot free |
| `WorkerLoop.Process.Submit` | `crates/llm-memory-coordinator/src/coordinator.rs:20-46` | a worker is spawned exactly when the slot was free, with the mode the slot decided |
| `WorkerLoop.Process.Await` | `crates/llm-memory-coordinator/src/worker.rs:44-52` | whatever other requests, commits, time and the wrappers of earlier workers do during an await, the waiting worker, its flag and its potential stand |
| `WorkerLoop.MaxLastRebuiltAt` | `crates/llm-memory-storage/src/wikis.rs:77-89` | the query returns the maximum over the owner's rows, 0 when there are none |
| `RebuildSlots.StateMap.TryStart` | `crates/llm-memory-coordinator/src/state.rs:53-90` | slot and outcome follow the claim rule from the old slot of that owner; no other owner's slot changes |
| `RebuildSlots.StateMap.MarkIdleOrContinue` | `crates/llm-memory-coordinator/src/state.rs:107-119` | slot and next mode follow the continue rule, missed appends first; no other owner's slot changes |
| `RebuildSlots.StateMap.ForceIdle` | `crates/llm-memory-coordinator/src/state.rs:123-130` | the owner's slot is as good as new, the others are untouched |
| `RebuildSlots.StateMap.ReleaseRunningPreservePending` | `crates/llm-memory-coordinator/src/state.rs:135-140` | only the running flag drops |
| `RebuildSlots.MergeIsPendingOf` | `crates/llm-memory-coordinator/src/state.rs:150-156` | merging one more request into the pending one is the same as reading the whole list of requests: full rebuild if any, else the last |
| `Storage.Insert` | `crates/llm-memory-storage/src/raws.rs:32-53` | the table gains exactly the new row |
| `Storage.InsertOrdered` | `crates/llm-memory-storage/src/raws.rs:32-53` | the table stays in (created_at, id) order whenever the row arrives |
| `Storage.Get` | `crates/llm-memory-storage/src/raws.rs:55-60` | lookup by id finds a row exactly when the id is present |
| `Storage.ListSince` | `crates/llm-memory-storage/src/raws.rs:62-79` | the result holds exactly the rows of the scope and owner in the (exclusive, inclusive] window |
| `Storage.ListSinceOrdered` | `crates/llm-memory-storage/src/raws.rs:62-79` | the result is in key order |
| `Storage.Watermark` | `crates/llm-memory-storage/src/wikis.rs:77-89` | the greatest `last_rebuilt_at`, attained by some row, 0 for no rows |
| `InputBuilder.Build` | `crates/llm-memory-coordinator/src/input_builder.rs:14-77` | the three early-exit stages return the first 50 of the deduplicated line "references that resolve, new raws, first 2 x remaining hits" |
| `InputBuilder.InputsFromSources` | `crates/llm-memory-coordinator/src/input_builder.rs:25-74` | no id repeats, at most 50 raws, each from one of the three sources |
| `InputBuilder.InputsMissNothing` | `crates/llm-memory-coordinator/src/input_builder.rs:25-74` | as long as fewer than 50 are out, every reference that resolves, every new raw and the first 2 x (50 - known) hits have their id in the result |
| `InputBuilder.SourcesInOrder` | `crates/llm-memory-coordinator/src/input_builder.rs:12-13` | references come first, then new raws, and neither is pushed out by what follows |
| `InputBuilder.Recall` | `crates/llm-memory-coordinator/src/input_builder.rs:25-37` | stage one either takes every reference or stops at 50 with nothing missed so far |
| `InputBuilder.Absorb` | `crates/llm-memory-coordinator/src/input_builder.rs:39-74` | stages two and three take candidates in order and stop at 50 |
| `InputBuilder.CutIsFinal` | `crates/llm-memory-coordinator/src/input_builder.rs:33-35` | an early exit at 50 cannot be overtaken by any later candidate |
| `Sequences.DedupMembers` | `crates/llm-memory-coordinator/src/input_builder.rs:22-23` | an element survives deduplication exactly when it is the first with its id |
| `Sequences.DedupKeys` | `crates/llm-memory-coordinator/src/input_builder.rs:22-23` | deduplication repeats no id and misses none |
| `CharText.AlignedOffsets` | `crates/vegapunk-memory-server/src/mcp/tools/handlers.rs:263-271` | on text that passes the guard every character starts at the same byte in the text and in its lowercase copy |
| `CharText.SliceAt` | `crates/vegapunk-memory-server/src/mcp/tools/handlers.rs:250-262` | slices between character offsets exist and are the expected characters |
| `WordMatch.ReplaceWord` | `crates/vegapunk-memory-server/src/mcp/tools/handlers.rs:360-422` | the lazy-buffer loop returns None exactly when the plain replacement changes nothing and otherwise returns it; every slice lies on character boundaries and the scan ends |
| `WordMatch.ContainsWord` | `crates/vegapunk-memory-server/src/mcp/tools/handlers.rs:292-320` | true exactly when the needle is not empty and some occurrence has no word character on either side |
| `WordMatch.WordStandsApart` | `crates/vegapunk-memory-server/src/mcp/tools/handlers.rs:300-315` | an occurrence counts exactly when the text before it does not end, and the text behind it does not begin, with a word character |
| `WordMatch.MatchesAreLeftmost` | `crates/vegapunk-memory-server/src/mcp/tools/handlers.rs:360-412` | the matches are bounded occurrences, do not overlap, and every bounded occurrence left out starts inside one that was taken |
| `WordMatch.LeftmostIsUnique` | `crates/vegapunk-memory-server/src/mcp/tools/handlers.rs:360-412` | no other list of positions has that property |
| `WordMatch.SomeMatch` | `crates/vegapunk-memory-server/src/mcp/tools/handlers.rs:292-320` | the replacement finds a match exactly when a bounded occurrence exists |
| `WordMatch.FoundIsLeftmost` | `crates/vegapunk-memory-server/src/mcp/tools/handlers.rs:298-299` | nothing occurs before the position that the search returns |
| `WordMatch.SpliceDiffers` | `crates/vegapunk-memory-server/src/mcp/tools/handlers.rs:376-394` | a first span that differs from the canonical name makes the whole result differ, whatever the lengths |
| `WordMatch.SpliceKeeps` | `crates/vegapunk-memory-server/src/mcp/tools/handlers.rs:399-403` | a span already canonical may stay in the pending prefix |
| `WordMatch.AcceptHit` | `crates/vegapunk-memory-server/src/mcp/tools/handlers.rs:376-404` | taking a hit keeps "output so far plus what is left to write equals the plain replacement" |
| `DedupScan.ScanText` | `crates/vegapunk-memory-server/src/mcp/tools/handlers.rs:554-625` | the scan with one cached lowercase copy and an early stop returns what the naive fold returns that lowercases afresh for every entry |
| `DedupScan.ScanMeans` | `crates/vegapunk-memory-server/src/mcp/tools/handlers.rs:554-625` | text that fails the guard proceeds; the first shared name that stands in it as a word blocks; otherwise it is rewritten exactly when some personal entry changes it |
| `DedupScan.RewritePersonal` | `crates/vegapunk-memory-server/src/mcp/tools/handlers.rs:594-619` | text and list of rewriting entries equal those of the naive fold |
| `DedupScan.UnalignedStops` | `crates/vegapunk-memory-server/src/mcp/tools/handlers.rs:612-616` | stopping after a canonical name broke the alignment loses nothing: no later entry could change the text |
| `DedupScan.FoldIsOverlay` | `crates/vegapunk-memory-server/src/mcp/tools/handlers.rs:594-619` | with trimmed, aligned names, rewriting entry by entry equals laying all matches found in the original text over it, the last entry on each character deciding |
| `DedupScan.RewriteAllKeepsLower` | `crates/vegapunk-memory-server/src/mcp/tools/handlers.rs:594-619` | with such names the rewrite keeps the lowercase text |
| `DedupScan.CaseOnly` | `crates/vegapunk-memory-server/src/mcp/tools/handlers.rs:594-619` | the rewrite keeps the lowercase text (and the alignment) exactly when no untrimmed or unaligned name occurs in the text |
| `DedupScan.UntrimmedGrows` | `crates/vegapunk-memory-server/src/mcp/tools/handlers.rs:594-619` | an untrimmed name and a text for which the rewrite changes the lowercase text, and again when repeated |
| `DedupScan.RewriteAllSettles` | `crates/vegapunk-memory-server/src/mcp/tools/handlers.rs:594-619` | when no untrimmed or unaligned name occurs in the text, applying the rewrite to its own result changes nothing |
| `DedupScan.RescanSettles` | `crates/vegapunk-memory-server/src/mcp/tools/handlers.rs:554-625` | when no untrimmed or unaligned personal name occurs in the text, the rewritten text still passes the shared scan and a second scan gives the same text |
| `DedupScan.UncleanLeavesMark` | `crates/vegapunk-memory-server/src/mcp/tools/handlers.rs:594-616` | an untrimmed or unaligned name that occurs in the text leaves it longer or unaligned, whatever later entries do |
| `DedupScan.ChangeIsReal` | `crates/vegapunk-memory-server/src/mcp/tools/handlers.rs:621-625` | for every catalogue: `Rewritten` carries a text different from the input exactly when an untrimmed or unaligned name occurs in it, or some character differs from what the last clean entry covering it lays there |
| `DedupScan.RewrittenUnchanged` | `crates/vegapunk-memory-server/src/mcp/tools/handlers.rs:621-625` | a catalogue and a text for which `Rewritten` carries the input itself |
| `DedupScan.SpellingsUndo` | `crates/vegapunk-memory-server/src/mcp/tools/handlers.rs:594-619` | two spellings of one key undo each other |
| `JobPaging.ListJobsPaged` | `crates/vegapunk-memory-server/src/mcp/tools/handlers.rs:1221-1294` | the map holds, per job id, the last status observed over all pages; at most 100 requests whatever the server answers; an RPC error ends the call |
| `JobPaging.NoJobIsMissed` | `crates/vegapunk-memory-server/src/mcp/tools/handlers.rs:1267-1290` | if jobs only arrive at the head, every job of the first list that is not pushed past 50,000 is returned, once, as last observed |
| `JobPaging.PassedJobsAreSighted` | `crates/vegapunk-memory-server/src/mcp/tools/handlers.rs:1236-1290` | a job never slips past the offset unseen |
| `JobPaging.LastByIdMeans` | `crates/vegapunk-memory-server/src/mcp/tools/handlers.rs:1275-1278` | overwriting per id keeps every observed id and the last observation of it |
| `JobPaging.CapBounded` | `crates/vegapunk-memory-server/src/mcp/tools/handlers.rs:1267-1273` | the effective cap never exceeds 50,000 |
| `ExportPaging.ExportPage` | `crates/llm-memory-server/src/mcp/tools/export.rs:30-90` | an invalid cursor is refused; otherwise page and next cursor are those of the rows beyond the cursor, with at most 100 rows and at most 8 MiB unless the page is a single row |
| `ExportPaging.FillPage` | `crates/llm-memory-server/src/mcp/tools/export.rs:66-81` | the page is the longest prefix within 100 rows and 8 MiB, or a single row; the overflow flag says exactly when bytes cut it |
| `ExportPaging.CursorRoundTrip` | `crates/llm-memory-server/src/mcp/tools/export.rs:32-47` | a formatted cursor parses back to the same pair for every 64-bit timestamp and any id, colons included |
| `ExportPaging.CursorMeans` | `crates/llm-memory-server/src/mcp/tools/export.rs:32-47` | the time is what stands before the first colon, the id what stands behind it; without a colon the id is empty; a time that is not a 64-bit integer is refused; no cursor is the start |
| `ExportPaging.PageIsLongest` | `crates/llm-memory-server/src/mcp/tools/export.rs:64-90` | a page is a head of the rows beyond the cursor, cut only where 100 rows are reached or one more row would pass 8 MiB |
| `ExportPaging.ExportIsComplete` | `crates/llm-memory-server/src/mcp/tools/export.rs:49-90` | following `next_cursor` delivers every row present at the start exactly once and in order while rows keep arriving anywhere |
| `ExportPaging.DeliveryInvariant` | `crates/llm-memory-server/src/mcp/tools/export.rs:49-90` | after every page, all starting rows up to the cursor were delivered, in order |
| `ExportPaging.ExportTerminates` | `crates/llm-memory-server/src/mcp/tools/export.rs:82-90` | on an unchanging table the export ends within one page more than there are rows |
| `ExportPaging.NextCursor` | `crates/llm-memory-server/src/mcp/tools/export.rs:85-88` | the next cursor reads back as the key of the last row of the page |
| `FanOut.MergePage` | `crates/vegapunk-memory-server/src/mcp/tools/handlers.rs:2004-2028` | merging two answers is slicing the personal-first deduplicated union; a failed shared fetch counts as empty |
| `FanOut.PageIsSlice` | `crates/vegapunk-memory-server/src/mcp/tools/handlers.rs:1968-1983` | within 1000, fetching offset + limit from both sides is enough: the page is the slice of the whole union |
| `FanOut.PagesTile` | `crates/vegapunk-memory-server/src/mcp/tools/handlers.rs:1968-2028` | consecutive pages lie edge to edge in the union |
| `FanOut.LimitIsExact` | `crates/vegapunk-memory-server/src/mcp/tools/handlers.rs:1979-1983` | for a non-empty page the clamp is harmless for all collections exactly when offset + limit is at most 1000 |
| `AuthTheorems.OneHolder` | `crates/vegapunk-memory-auth/src/authorization_server.rs:392-458` | pending entry, callback in flight, stored code, grant in flight and unrevoked refresh token of one `/authorize` together never count more than 1, in any interleaving and even when generated keys collide |
| `AuthTheorems.ClaimIsFixed` | `crates/vegapunk-memory-auth/src/authorization_server.rs:392-684` | the client of an authorization never changes, its user never changes once set, and it never returns to an earlier stage |
| `AuthTheorems.GoneForGood` | `crates/vegapunk-memory-auth/src/authorization_server.rs:137-163` | a right used up, refused, evicted, expired out of its map or revoked never comes back |
| `AuthTheorems.SingleUse` | `crates/vegapunk-memory-auth/src/authorization_server.rs:561-684` | per authorization: at most one redemption of a code, at most one use of each refresh token, no more uses than tokens stored, and one redemption or use behind every token response (sections 4.1.2 and 6 of RFC 6749) |
| `AuthTheorems.AcceptedOnce` | `crates/vegapunk-memory-storage/src/tokens.rs:75-95` | in any run each refresh token is accepted at most once, and is there and revoked from then on |
| `AuthTheorems.AnswersAreVouched` | `crates/vegapunk-memory-auth/src/authorization_server.rs:561-607` | behind every token response stand an `/authorize` of that client, the callback of that authorization that was told that user, and the redemption of that authorization's own code for that user, presented with its challenge, client and redirect address |
| `AuthTheorems.WrongPresentationIsFinal` | `crates/vegapunk-memory-auth/src/authorization_server.rs:570-598` | a stored code presented with a wrong verifier, client or address is burned together with its authorization |
| `AuthTheorems.RevocationIsFinal` | `crates/vegapunk-memory-auth/src/authorization_server.rs:694-698` | revoking the current refresh token ends the authorization |
| `AuthTheorems.Lineage` | `crates/vegapunk-memory-auth/src/authorization_server.rs:308-468` | along any run, every later claim of a known authorization carries on one held before: same client, same user once set, no earlier stage |
| `AuthTiming.RefreshInTime` | `crates/vegapunk-memory-storage/src/tokens.rs:75-95` | over runs: every use of a refresh token that gets anywhere happens strictly before the expiry given when that token was stored |
| `AuthTiming.CodeInTime` | `crates/vegapunk-memory-auth/src/authorization_server.rs:143-163` | over runs: every redemption happens, by the clock, within a minute of the callback that stored the code |
| `AuthTiming.CallbackInTime` | `crates/vegapunk-memory-auth/src/authorization_server.rs:121-142` | over runs: every callback that goes on comes, by the clock, within ten minutes of its `/authorize` |
| `AuthTiming.RefreshAccepted` | `crates/vegapunk-memory-storage/src/tokens.rs:80-95` | a refresh token is accepted exactly when its row is there, unrevoked, with its expiry to come |
| `AuthTiming.CodeAccepted` | `crates/vegapunk-memory-auth/src/authorization_server.rs:570-598` | a code is redeemed exactly when it stands unexpired and challenge, client and address are its own |
| `AuthProtocol.EventIsSafe` | `crates/vegapunk-memory-auth/src/authorization_server.rs:308-684` | each atomic piece of a handler keeps one holder per authorization, and every claim after it carries on a claim from before it |
| `AuthHandlers.AuthServer.Authorize` | `crates/vegapunk-memory-auth/src/authorization_server.rs:308-374` | a redirect is sent exactly for response type code, method S256, a known client, a registered address and the authorization_code grant, and then one right with the values of the request is opened for ten minutes; an eviction hits an oldest entry, exactly at the cap |
| `AuthHandlers.AuthServer.CallbackGoogle` | `crates/vegapunk-memory-auth/src/authorization_server.rs:388-468` | a redirect exactly when an unexpired entry stood under the state and none of the three calls failed; then the code stands for that entry and the user found, for a minute; any failure loses the entry and stores nothing |
| `AuthHandlers.AuthServer.IdentifyUser` | `crates/vegapunk-memory-auth/src/authorization_server.rs:396-437` | a user exactly when code exchange, userinfo and provisioning all succeed, and then the provisioned one; otherwise the error of the first that failed |
| `AuthHandlers.AuthServer.GrantAuthCode` | `crates/vegapunk-memory-auth/src/authorization_server.rs:561-609` | tokens exactly when an unexpired code is presented with its verifier, client and address, the client is readable, and issuing succeeds; they name the user of the code; a refresh token comes exactly when the client registered that grant |
| `AuthHandlers.AuthServer.TakeCode` | `crates/vegapunk-memory-auth/src/authorization_server.rs:570-598` | the checks in the code's order accept exactly an unexpired code presented with its verifier, client and address |
| `AuthHandlers.AuthServer.GrantRefresh` | `crates/vegapunk-memory-auth/src/authorization_server.rs:615-646` | tokens exactly when the row stands unrevoked with its expiry after the time read, the client registered the grant, and issuing succeeds; they name user and client of the row; invalid_grant exactly when the row does not fit |
| `AuthHandlers.AuthServer.ValidateAndRevoke` | `crates/vegapunk-memory-storage/src/tokens.rs:75-95` | a row is returned exactly when one stands under the hash with no revocation and an expiry after the given time, and it is revoked then |
| `AuthHandlers.AuthServer.IssueTokens` | `crates/vegapunk-memory-auth/src/authorization_server.rs:649-684` | exactly one answering event for the user and client of the grant when signing and storing succeed, with a refresh token for 30 days exactly when asked for; a failure issues nothing |
| `AuthHandlers.AuthServer.RevokeToken` | `crates/vegapunk-memory-storage/src/tokens.rs:61-69` | the token holds nothing afterwards, whether or not it was known |
| `AuthHandlers.AuthServer.Token` | `crates/vegapunk-memory-auth/src/authorization_server.rs:513-523` | any other grant type is refused without an event; a token response is always the answer of one grant |
| `AuthSessions.SessionMap.Put` | `crates/vegapunk-memory-auth/src/authorization_server.rs:121-135` | the put is a legal step of the history: prune, evict an oldest entry exactly at the cap, insert |
| `AuthSessions.SessionMap.Take` | `crates/vegapunk-memory-auth/src/authorization_server.rs:137-142` | the take is a legal step of the history |
| `AuthSessions.TakeReturnsLatestPut` | `crates/vegapunk-memory-auth/src/authorization_server.rs:137-163` | a take returns exactly the latest value put under its key that was not taken, evicted or expired since, whatever the clock did |
| `AuthSessions.HoldsStandingPuts` | `crates/vegapunk-memory-auth/src/authorization_server.rs:121-163` | the map holds exactly the standing puts of its history |
| `AuthSessions.SizeIsCapped` | `crates/vegapunk-memory-auth/src/authorization_server.rs:98-99` | at most 10,000 entries after any sequence of puts and takes |
| `AuthSessions.EvictionNeedsAFullMap` | `crates/vegapunk-memory-auth/src/authorization_server.rs:125-133` | an entry is evicted only when 10,000 unexpired puts stand and none of them expires before it |
| `AuthSessions.OldestKey` | `crates/vegapunk-memory-auth/src/authorization_server.rs:126-130` | the victim is an entry with the earliest expiry |
| `RateLimiter.GrantedIffConforming` | `crates/llm-memory-server/src/rate_limit.rs:56-77` | a schedule of checks is granted in full exactly when every window of it asks for at most per_minute + per_minute/60 x length |
| `RateLimiter.GrantedIffPermitted` | `crates/llm-memory-server/src/rate_limit.rs:56-77` | the exact answer to every check of every schedule, refusals included: granted exactly when every window ending with it stays within per_minute + per_minute/60 x length, this grant and the earlier ones counted |
| `RateLimiter.WindowBound` | `crates/llm-memory-server/src/rate_limit.rs:56-77` | in any window of any schedule the grants stay within that budget |
| `RateLimiter.WindowAccount` | `crates/llm-memory-server/src/rate_limit.rs:66-76` | grants of a window plus what is left never exceed what was there before plus the refill |
| `RateLimiter.Limiter.Check` | `crates/llm-memory-server/src/rate_limit.rs:56-77` | the answer is exactly the one the window rule gives for the key's own schedule; tokens stay in [0, per_minute]; no other user's or tier's bucket changes |
| `RateLimiter.NameDecidesTier` | `crates/llm-memory-server/src/rate_limit.rs:26-33` | tools whose tier has the same name have the same budget, so buckets keyed by the name never mix two |
| `FtsQuery.EscapeReadsBack` | `crates/llm-memory-storage/src/search.rs:20-32` | read as FTS5 strings, the escaped text gives exactly the white-space tokens of the input, or one empty phrase, and nothing but quoted phrases |
| `FtsQuery.SameQuestion` | `crates/llm-memory-storage/src/search.rs:20-32` | two texts are escaped alike exactly when they have the same tokens |
| `FtsQuery.SplitMeansRuns` | `crates/llm-memory-storage/src/search.rs:21-22` | the tokens are exactly the maximal runs without white space, in order |
| `FtsQuery.StringReadsBack` | `crates/llm-memory-storage/src/search.rs:23-25` | doubling quotes is undone by reading a quoted string |
| `PercentEncoding.UrlEncoding` | `crates/vegapunk-memory-auth/src/authorization_server.rs:470-485` | the byte loop computes the encoding specified byte by byte |
| `PercentEncoding.RoundTrip` | `crates/vegapunk-memory-auth/src/authorization_server.rs:470-485` | percent-decoding gives back the bytes, and the output holds only unreserved characters and upper-case %XX |
| `PercentEncoding.NormalFormIsUnique` | `crates/vegapunk-memory-auth/src/authorization_server.rs:470-485` | the output is the only text in the normal form of section 6.2.2 of RFC 3986 that decodes to these bytes |

## Left out

- HTTP and gRPC transport, JSON shapes, prompts, metrics and logs: plumbing around the modelled steps.
- Language models, search ranking, Google, the client table, signing and id generation: arbitrary answers of an oracle; only
  `count_concepts`, `list_concepts`, `list_since` and the other stated queries have a meaning here.
- Account deletion racing with a session, and a system clock that goes back during a coordinator run. A process restart is
  part of the authorization model only.
- Texts that no property depends on (titles, tags, wiki prompts): dropped from the rows.
- `str::to_lowercase` maps a final capital sigma by context; here lowercasing is a table per character, which is what the
  alignment guard checks.
- Floating point: the limiter is over reals, so rounding of the refill is not modelled.
- The SQL engine: each statement is its result on an ordered sequence or a map, and one statement is one atomic step.
- Foreign keys of the token table: users and clients are never deleted by the modelled code.
- CoordinatorTheorems.WatermarkCoverage: speaks of raws listed by an iteration that wrote a wiki, not of every affected
  concept, because a failed synthesis is skipped while the others move the watermark
  (`crates/llm-memory-coordinator/src/worker.rs:378-392`).
- JobPaging.NoJobIsMissed: assumes that each page request is answered from one consistent list, because the server that
  answers is not part of the repository.
- AuthProtocol.EventIsSafe: lets an eviction hit any key, which only adds runs; that the victim is an oldest entry is stated
  in `AuthSessions` and by the handlers.
- AuthTheorems.OneHolder: speaks of rights, not of access tokens, which stay valid for their hour after revocation.
- `await_extraction_jobs_for_schema`: a sampled heuristic without a crisp guarantee.
- `crates/llm-memory-auth` and `crates/llm-memory-storage/src/tokens.rs`: earlier versions of the modelled files.
- Validators, scope parsing, request builders, tool ownership, prompt sanitising, wikis and schema on the first export page:
  each settled by reading one function.
