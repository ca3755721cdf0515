# Verified model of Transoria's document, task and request cores

Transoria translates books with language models. This project models the parts of it where a mistake loses
text, repeats paid work or overruns a provider's limits, and proves what those parts promise:

- **EPUB text** (`XmlTree`, `ElementPaths`, `Epub*`). The parser names the text positions of a document tree,
  groups them into units, and stores each unit as paths and normalized texts. The writer finds the positions
  again in the re-read document and replaces the texts, moving text between positions when line counts differ
  or a drop cap is present. A node is identified by its address (child indices from the root), a position is an
  element's text or a node's tail, and a document's content maps positions to strings.
- **Tasks** (`Task*`). One transition system holds the persisted subtasks, the workers, the stop and pause
  handlers, crashes, re-runs, and any number of reconciles in the threads of requests, each with the snapshot it
  loaded. A step is what one coroutine does between two awaits, cut further at each write to the store.
- **Limits and keys** (`SlidingWindow`, `SharedRpm*`, `RateLimiters`, `KeyPool`). Sliding-window limiters
  on an injected clock and a rotating pool of API keys.
- **Retranslation** (`Quality*`, `Retranslate*`). Leader and follower batching of reviews, and writes that
  happen only while the stored translation is the one the job started from.
- **Client loops** (`Repetition`, `PayloadFallback`). The runaway-repetition detector and the retries without
  rejected payload fields.
- **Texts and paths** (`TextSplit`, `EpubPaths`, `EpubReferences`, `FontDedup`). Splitting and rendering plain text, and font
  de-duplication with rewritten references.

Where the original updates objects in place or loops, the model has classes and methods whose contracts tie the
new state to a specification function; the lemmas then speak about that function, over every input or every run.

## Conventions and assumptions

- Character classes, grapheme lengths, percent decoding, Unicode normalization and digests are parameters. SHA-1
  digests and source hashes are taken to identify the texts they are made of; the font digest is arbitrary.
- Element names are taken to be plain (`ElementPaths.PlainNames`): not empty, without `/` and `[`, and not `$node`.
  XML names are.
- Store, cache and archive accesses succeed, except that loading a task and saving its subtasks may fail in
  `Retranslate`. What a runner, a provider or a quality review answers is arbitrary.
- Each region under a lock, or between awaits, is one step. A step that is not enabled changes nothing, so a run
  is any list of actions.
- Where a promise fails in general, a lemma gives an input and another states when it holds, for all inputs:
  `TaskLostWork.LateCheckLoses` and `TaskReconcile.SafeExactlyIfQuiet` (a reconcile can undo a completed subtask),
  `TaskPauseReturns.PauseHangs` and `TaskPauseReturns.PauseReturnsExactly` (a paused run may never return: a worker
  cancelled at the gate goes on to the next queued subtask and waits there),
  `Retranslate.SplitExample` and `Retranslate.WritesOwnedUp` (a failed save can leave new translations behind),
  `KeyPool.AliveCountIsExact`, `FontDedup.RemovedIsExact`, `EpubPaths.RelativeHrefResolves`,
  `TextSplit.TranslatedRoundTrip`, `EpubRuby.RubyKeepsExtracted`.
- A reconcile *writes in time* (`TaskModel.Careful`) if the task has not been live since its snapshot was loaded.
  The source looks for a live run only after loading, so it does not see to this. The results on runs are about
  histories in which reconciles write in time; reconciles that write nothing may load and check at any moment.

## Model

| member | source | states |
|---|---|---|
| ElementPaths.PathRoundTrip | transoria/formats/epub_parser.py:731-766 | looking up the path of any node of any tree, elements as well as comments and the like, returns that very node |
| ElementPaths.PathsDistinct | transoria/formats/epub_parser.py:689-728 | two nodes never share a path |
| EpubExtraction.IterElemPathPairs | transoria/formats/epub_parser.py:705-720 | the stack-driven pass lists every element once, in document order, each with the path of recursive descent |
| EpubExtraction.BuildElemPathMap | transoria/formats/epub_parser.py:723-724 | the fast map holds exactly the elements, each with the path that climbing from it gives |
| EpubExtraction.BuildElemPath | transoria/formats/epub_parser.py:689-702 | climbing from an element to the root yields the path that names it from the root down |
| EpubExtraction.PairsAreSlow | transoria/formats/epub_parser.py:689-720 | the single-pass paths equal the slow paths, element by element |
| EpubDocument.Document.FindElement | transoria/formats/epub_parser.py:731-748 | the descent loop finds what the recursive lookup finds, and nothing when a step is out of range |
| EpubUnits.TextSlotPath | transoria/formats/epub_parser.py:751-766 | elements and nodes without a name get the path that leads back to them |
| EpubUnits.BuildSkippedMap | transoria/formats/epub_parser.py:523-529 | an element is marked skipped exactly if it or an ancestor is of a skipped kind |
| EpubUnits.BuildHasBlockDescendantMap | transoria/formats/epub_parser.py:532-540 | an element is marked exactly if some proper descendant is a block |
| EpubUnits.CollectDocumentUnits | transoria/formats/epub_parser.py:426-477 | the recursive collection over the two maps returns the units of the document's areas, in order |
| EpubUnits.WalkSlots | transoria/formats/epub_parser.py:480-520 | a unit's slots are the non-empty positions of the stopped walk with their paths and raw texts |
| EpubUnits.ExtractDocument | transoria/formats/epub_parser.py:426-520 | what the units of a document store, one unit after the other, is exactly what stands at its wanted positions, in document order and without the empty ones |
| EpubParser.ExactExtraction | transoria/formats/epub_parser.py:426-520 | the positions of all units are, in document order and each once, exactly those whose owner is in no skipped subtree and whose nearest deciding ancestor is a block |
| EpubSegments.ShortcutIsExact | transoria/formats/epub_parser.py:828-832 | the shortcut of the slot normalization gives the same text as the full normalization |
| EpubSegmentText.LinesAreSlots | transoria/formats/epub_parser.py:407-423 | without comments and ruby the lines of a segment's text are the normalized texts of its slots, one for each |
| EpubSegmentText.SegmentReadsUnit | transoria/formats/epub_parser.py:407-423 | but for white space the text given to translation is what the unit's slots read, in document order |
| EpubSegmentText.JoinedWith | transoria/formats/epub_parser.py:407-423 | the text is the parts' texts with exactly the stated separators: line breaks, next to comments a space if the document has one there, none in ruby |
| EpubWriter.SplitIsLead | transoria/formats/epub_writer.py:476-480 | the initial of a text is its leading white space, then the longest run of openers, then exactly one grapheme; where nothing follows the openers or the white space it is what backtracking leaves |
| EpubWriter.LeadIsUnique | transoria/formats/epub_writer.py:476-480 | a text has only one such lead |
| EpubWriter.CommonIsGreatest | transoria/formats/epub_writer.py:418-425 | the common container contains every slot's owner and lies below every other element that does |
| EpubWriter.CarrierBelowCommon | transoria/formats/epub_writer.py:428-473 | an initial's carrier lies strictly below the common container |
| EpubWriter.InitialScope | transoria/formats/epub_writer.py:428-473 | a found carrier has some of the unit's slots inside it and some outside |
| EpubDropCap.InitialScopeExactly | transoria/formats/epub_writer.py:428-473 | an element is found as the carrier of a drop cap if and only if it is the widest inline element around the first text that reads an initial and nothing else, with a letter in it, of no rich kind, with text of the unit outside it and none before it |
| EpubConservation.MatchedConserved | transoria/formats/epub_writer.py:508-530 | with a line for each slot and no borrowed initial, the unit reads exactly the joined lines |
| EpubConservation.BorrowedConserved | transoria/formats/epub_writer.py:516-530 | with a borrowed initial the unit reads the joined lines up to white space |
| EpubConservation.UnmatchedConserved | transoria/formats/epub_writer.py:532-555 | when the line counts differ the unit reads exactly the translation |
| EpubConservation.TextConserved | transoria/formats/epub_writer.py:492-555 | for any tree, unit, previous texts and translation, nothing is lost, repeated or reordered by the replacement |
| EpubDropCap.DropCapKept | transoria/formats/epub_writer.py:492-555 | position by position: with a line for each slot every slot reads its own, but for an initial that the carrier is owed; otherwise the whole translation stands in the shared container, and with a drop cap the carrier reads exactly its openers and one grapheme, what precedes and follows standing next to it |
| EpubLocality.ReplacedOutside | transoria/formats/epub_writer.py:492-555 | a replacement changes only positions of the unit's own region |
| EpubLocality.ReplacedAgree | transoria/formats/epub_writer.py:428-555 | what a replacement does depends only on what is in the unit's region |
| EpubDocument.Document.CommonContainer | transoria/formats/epub_writer.py:418-425 | the climbing loops return the greatest common container |
| EpubDocument.Document.InsertBefore | transoria/formats/epub_writer.py:483-489 | the text is appended to the position just before the node and nothing else changes |
| EpubDocument.Document.FindInitialScope | transoria/formats/epub_writer.py:428-473 | the widening loop finds the widest inline carrier whose text is still the initial, or none |
| EpubDocument.Document.FindUnmapped | transoria/formats/epub_writer.py:500-515 | formatting is reported lost exactly if some text outside the initial lost its boundary, or some inline text got nothing |
| EpubDocument.Document.ReplaceTextSlots | transoria/formats/epub_writer.py:492-555 | the in-place updates leave the document that the conservation and locality results are about |
| EpubDocument.Document.ResolveParts | transoria/formats/epub_writer.py:329-341 | the stored parts resolve one by one to the slots they name, or the segment is passed over |
| EpubDocument.Document.ApplyDocSegments | transoria/formats/epub_writer.py:325-384 | the loop leaves the document after applying the segments in turn, each only if its texts are still the extracted ones and it has a translation |
| EpubEdits.OrderFree | transoria/formats/epub_writer.py:325-384 | edits that each keep to positions of their own give the same document in any order |
| EpubRoundTrip.WriteBack | transoria/formats/epub_writer.py:303-384 | extract a document, translate any segments, write them back in any order: each chosen unit reads its translation and no other text changes |
| EpubRoundTrip.OrderIrrelevant | transoria/formats/epub_writer.py:325-384 | two orders of the same segments give the same text at every position |
| EpubStale.StaleKeepsAll | transoria/formats/epub_writer.py:343-344 | a segment one of whose texts has changed since its extraction, white space apart, leaves the whole document as it is |
| EpubStale.WriteBackLater | transoria/formats/epub_writer.py:325-384 | extract from one document, write back in any order into a later one with any content: stale units are unchanged, units still reading as extracted read their translations, and no other text changes |
| EpubRuby.RemoveAnnotations | transoria/formats/epub_writer.py:591-601 | the loop over the children hands each annotation's tail to what precedes it and drops the annotation |
| EpubRuby.RubyKeepsOutside | transoria/formats/epub_writer.py:591-601 | afterwards no annotation is left at any depth and the element reads exactly its positions outside annotations |
| EpubRuby.RubyKeepsExtracted | transoria/formats/epub_writer.py:591-601 | a cleared ruby element reads exactly what extraction takes from it if and only if nothing is written in it where extraction stops, annotations excepted |
| EpubRubyUnits.RubyUnitReads | transoria/formats/epub_writer.py:325-387 | extract, translate, write back in any order, clear the rubies around the unit: the element reads exactly what the written-back unit reads, that is its translation, if and only if nothing is left to read in it where extraction stopped |
| TaskInvariants.LiveStepOk | transoria/runtime/executor.py:240-506 | every step of workers and handlers keeps the run's invariant: each subtask in at most one pair of hands, unchanged since loaded until started |
| TaskRuns.RunOk | transoria/runtime/executor.py:184-578 | the state invariant holds after any actions, crashes included, in which reconciles write in time |
| TaskRuns.RunningIsActive | transoria/runtime/executor.py:240-506 | at every await the subtasks marked running, apart from stale ones, are the active runners, at most as many as workers, and of these there are as many as were pending or as the limit says, at least one, whichever is less |
| TaskRuns.RunOutcome | transoria/runtime/executor.py:184-224 | a returned run leaves nothing newly marked running; each pending subtask was started at most once and ends completed, failed or pending, and stays pending only in a stopped or paused task |
| TaskOutcomes.OutcomesDecide | transoria/runtime/executor.py:409-506 | over any run each subtask ends as the outcome of its one attempt says: completed with the returned response, failed with the kept or the old one, pending again with one more attempt when cancelled, else as it was; only an undisturbed run fails what is left pending |
| TaskOutcomes.CompletedExactly | transoria/runtime/executor.py:409-506 | a pending subtask is completed with a response if and only if its runner returned that response |
| TaskOutcomes.RerunDecides | transoria/runtime/executor.py:226-238 | a re-run decides the same from a start where exactly the failed subtasks are pending again, attempts and responses kept |
| TaskOutcomes.ReturnedStatus | transoria/runtime/executor.py:554-578 | stopped wins over paused; otherwise the old status stays while a subtask is pending or running, and else the task is failed exactly if some subtask is |
| TaskCleanRuns.CleanRunOutcome | transoria/runtime/executor.py:184-277 | without stop or pause each pending subtask is attempted exactly once and the task ends failed if any subtask is failed, else completed |
| TaskOutcomes.CleanRunVerdict | transoria/runtime/executor.py:184-277 | without stop or pause each pending subtask's runner ends exactly once, and the task ends failed if and only if some runner raised or some subtask was failed to begin with, else completed |
| TaskCleanRuns.CleanRunEnds | transoria/runtime/executor.py:184-277 | such a run takes at most seven steps for each pending subtask, one for each subtask and two more |
| TaskCleanRuns.CleanRunAdvances | transoria/runtime/executor.py:264-277 | until such a run returns some step of it is possible |
| TaskRuns.StopIsSafe | transoria/runtime/executor.py:279-320 | after a stop request no pending subtask is touched in any interleaving, and the run returns with the task stopped even if pause was requested too |
| TaskRuns.PausedIsQuiet | transoria/runtime/executor.py:322-350 | once paused, no runner is active at any point and none starts until the run returns |
| TaskRuns.PausedMeansObserved | transoria/runtime/executor.py:322-350 | a task that reads paused during a run has no active runner |
| TaskPausing.RequestsBoundStarts | transoria/runtime/executor.py:322-408 | after a pause request a run enters at most as many runners as workers were past the gate, none if runners are prepared, and after a stop request none |
| TaskPausing.PausesExactlyWhenQuiet | transoria/runtime/executor.py:336-350 | the handler's poll saves the task as paused and cancels every unfinished worker exactly when no worker is in a runner, unless stop ended its wait |
| TaskPausing.StatusDuringRun | transoria/runtime/executor.py:279-350 | at every moment of a run the stored status is running, pausing, paused or stopping, as its handlers have got to |
| TaskPauseReturns.PauseReturnsExactly | transoria/runtime/executor.py:322-367 | a paused run that nobody stops returns, on some schedule, if and only if no worker waits at the gate uncancelled and the queue is empty or every worker is finished or not begun; otherwise it never does |
| TaskPauseReturns.TellsAtPoll | transoria/runtime/executor.py:336-350 | at the poll that pauses the task this is so exactly if the queue is empty or no worker holds a subtask |
| TaskPauseReturns.PausedRuns | transoria/runtime/executor.py:322-367 | the same for every run, as soon as it is paused |
| TaskPauseReturns.PauseHangs | transoria/runtime/executor.py:358-367 | with two subtasks, one worker at the gate and a pause, the task reads paused and its run never returns unless stopped |
| TaskRuns.CompletedIsFinal | transoria/bridge/task_service.py:6952-7014 | over any steps, crashes, re-runs and reconciles that write in time a completed subtask is never run again and its stored result never changes |
| TaskReconcile.SafeExactlyIfQuiet | transoria/bridge/task_service.py:6975-7014 | with no other reconcile and no new run before it is through, a reconcile keeps every completed subtask, whatever the executor does, if and only if no runner is active when its snapshot is loaded |
| TaskReconcile.CanReturn | transoria/runtime/executor.py:264-367 | from any state of a run there is a way for it to return: stop it and let each worker take its next step |
| TaskLostWork.LateCheckLoses | transoria/bridge/task_service.py:6516-6537 | load while the subtask runs, let it complete and the run return, then check: the completed subtask is pending again and its result gone |
| TaskLostWork.NewRunLoses | transoria/bridge/task_service.py:6952-7014 | with snapshots loaded while no run is live, a run begun before a reconcile is through can lose its work too |
| TaskRuns.ReconcileHeals | transoria/bridge/task_service.py:6952-7014 | after any history a reconcile that has finished in time leaves no subtask marked running, changes nothing else, and leaves no transient task status |
| TaskExecutor.Executor.constructor | transoria/runtime/executor.py:184-262 | the start of a run queues the pending subtasks in order and creates the workers |
| TaskExecutor.Executor.Next | transoria/runtime/executor.py:264-277 | a worker takes the head of the queue, or finishes when stopped or when there is none |
| TaskExecutor.Executor.LeaveGate | transoria/runtime/executor.py:358-367 | a worker passes the gate only to wait for the limiter, or goes back when stopped |
| TaskExecutor.Executor.LeavePacing | transoria/runtime/executor.py:374-408 | a worker launches, or prepares first, unless stopped |
| TaskExecutor.Executor.LeavePrepare | transoria/runtime/executor.py:381-408 | a prepared worker launches unless stopped or pausing |
| TaskExecutor.Executor.Finish | transoria/runtime/executor.py:409-506 | the subtask is saved as completed, failed or rolled back and the active count goes down |
| TaskExecutor.Executor.HandleStop | transoria/runtime/executor.py:279-320 | the stop handler marks the task stopping |
| TaskExecutor.Executor.CancelEach | transoria/runtime/executor.py:316-320 | every unfinished worker is cancelled and no other |
| TaskExecutor.Executor.PollPause | transoria/runtime/executor.py:336-350 | the task becomes paused only when no runner is active; stop ends the wait |
| TaskExecutor.Executor.Drive | transoria/runtime/executor.py:240-262 | on any schedule the object goes through the states of the transition system, and its counter is the number of runners and of newly running subtasks, at most the pending ones and the limit |
| TaskExecutor.Finalize | transoria/runtime/executor.py:534-578 | the repair loop and the final status are the ones of the transition system, write by write |
| TaskExecutor.ResetFailed | transoria/runtime/executor.py:226-238 | every failed subtask is pending again when the run begins |
| TaskExecutor.ReconcileZombie | transoria/bridge/task_service.py:6952-7014 | on an earlier snapshot and what the registry says now, the reconcile writes the status first and then each subtask the snapshot shows running, as the transition system does |
| SlidingWindow.WindowBound | transoria/runtime/rate_limit.py:53-71 | a log in which limit + 1 consecutive stamps span a window never has more than limit stamps in a window |
| SharedRpmTickets.AnswersAgree | transoria/runtime/rate_limit.py:143-226 | over any run the deque decides as the current stamps of the unreleased tickets, told from the events alone, say: a reservation succeeds exactly if nobody waits and fewer than limit are less than a minute old, a claim exactly if the ticket's own is |
| SharedRpmTickets.NoWindowOverfull | transoria/runtime/rate_limit.py:143-226 | for any run with one positive limit and a forward clock no 60-second window holds more than limit current stamps, a stamp being the time of a ticket's last reservation, grant or claim |
| SharedRpmTickets.ReleaseRefunds | transoria/runtime/rate_limit.py:170-175 | a release takes exactly its ticket out of what the next reservation counts |
| SharedRpmTickets.ClaimHolds | transoria/runtime/rate_limit.py:177-186 | a successful claim moves the stamp to the present, so that the ticket counts for the next minute |
| SharedRpmLimiter.ServedInOrder | transoria/runtime/rate_limit.py:200-226 | waiters who stay are granted in the order in which they came |
| SharedRpmLimiter.NeverOvertakes | transoria/runtime/rate_limit.py:158-226 | at no point of any run does anybody hold a ticket who came after one who still waits, and a reservation succeeds exactly if nobody waits and there is room |
| SharedRpmLimiter.Limiter.TryReserve | transoria/runtime/rate_limit.py:158-168 | the ticket is logged, or nothing but aged entries changes; without a limit a ticket is free |
| SharedRpmLimiter.Limiter.ReleaseTicket | transoria/runtime/rate_limit.py:170-175 | exactly the ticket's entry is refunded |
| SharedRpmLimiter.Limiter.ClaimTicket | transoria/runtime/rate_limit.py:177-186 | the ticket's stamp moves to the present exactly if it has not aged out |
| SharedRpmLimiter.Limiter.AvailableAfterNow | transoria/runtime/rate_limit.py:188-198 | the wait is zero exactly when a reservation would succeed now; with nobody waiting one succeeds after it and, unless it is the least wait, none before |
| SharedRpmLimiter.Limiter.PollTicket | transoria/runtime/rate_limit.py:207-222 | a waiter is granted exactly if it is first and there is room, else told to sleep between 0.01 and 1 second |
| RateLimiters.RpmLimiter.Acquire | transoria/runtime/rate_limit.py:53-66 | one request is logged after at most one sleep, and it sleeps only if the window was full |
| RateLimiters.RpmLimiter.NoWindowOverfull | transoria/runtime/rate_limit.py:36-71 | no window of the limiter's own length ever holds more than limit requests |
| RateLimiters.TpmLimiter.Reserve | transoria/runtime/rate_limit.py:106-123 | the estimate is logged after at most as many sleeps as there were entries, whatever is settled meanwhile; with all that was ever reserved in the window ending now it is within the limit or alone; and the call slept only if at its first look it was neither |
| RateLimiters.TpmLimiter.Settle | transoria/runtime/rate_limit.py:125-131 | the scan settles the entry with the id, or nothing |
| RateLimiters.SettledExactly | transoria/runtime/rate_limit.py:125-131 | a settlement replaces the tokens of exactly the reservation it is for, if that is still held |
| RateLimiters.TpmLimiter.UsedInWindow | transoria/runtime/rate_limit.py:138-140 | the result is the sum of the tokens of all reservations ever made with a stamp in the window ending now |
| RateLimiters.TpmLimiter.NoWindowOverspent | transoria/runtime/rate_limit.py:80-140 | after any history, what was reserved in any window exceeds the limit at most by what settlements have added to it - by its overshoot if nothing was settled twice - unless it is a single reservation |
| RateLimiters.RoundLogs | transoria/runtime/rate_limit.py:110-120 | what fits, or is alone in its window, is logged |
| RateLimiters.SettleKeeps | transoria/runtime/rate_limit.py:125-131 | every settlement keeps the bound on every stretch of reservations made within a window |
| RateLimiters.RaisedIsOvershoot | transoria/runtime/rate_limit.py:125-131 | what settlements have added is what the entries hold over their estimates, if none is settled twice |
| RateLimiters.SettledTwiceOverruns | transoria/runtime/rate_limit.py:106-131 | with a reservation settled twice a window holds nearly twice the limit and no reservation is over its estimate |
| KeyPool.EachKeyOnce | transoria/runtime/key_pool.py:51-73 | after any history, in any stretch without an eviction, as many acquires as there are live keys hand out each of them, once if the keys are distinct, and no other |
| KeyPool.DeadStaysDead | transoria/runtime/key_pool.py:51-73 | over any history a key marked dead is never handed out again |
| KeyPool.AliveCountIsExact | transoria/runtime/key_pool.py:44-45 | the alive count is the number of live keys exactly if the keys are distinct |
| KeyPool.KeyRing.AcquireKey | transoria/runtime/key_pool.py:51-67 | the next live key in turn is returned; it fails exactly when every key is dead |
| KeyPool.KeyRing.Send | transoria/llm/client.py:1593-1718 | each request is sent with the next live key in turn, exactly the refused keys are evicted, and outcome and number of replies are those of the rotation on the number of live keys |
| KeyPool.RefusalsBounded | transoria/llm/client.py:1593-1718 | a request sees at most as many 401 and 403 replies as there are distinct live keys, fails exactly when it has seen that many, and ends with the first reply that is neither these nor a 429 |
| KeyPool.RefusedOnce | transoria/llm/client.py:1687-1706 | no key is sent again after it was refused |
| QualityReview.ExactlyOnce | transoria/bridge/task_service.py:3222-3337 | in every interleaving an item gets at most one result or error, is signalled done exactly when it has it, and otherwise has a leader to serve it |
| QualityReview.BatchesInOrder | transoria/bridge/task_service.py:3266-3280 | batches are non-empty, of at most five, within a positive token limit unless of one item, and without cancellation follow the order of arrival |
| QualityReview.OwnDecision | transoria/bridge/task_service.py:3326-3331 | each item of a batch gets the decision of its own index and no other item is touched |
| QualityAnswers.ErrorReachesBatch | transoria/bridge/task_service.py:3322-3331 | an error reaches exactly the items of its batch, and the leader goes on |
| QualityAnswers.CancelReachesAll | transoria/bridge/task_service.py:3313-3321 | a cancelled leader's error reaches exactly the items under review and in the queue, and the group is gone |
| QualityReview.LeaderEmptiesQueue | transoria/bridge/task_service.py:3244-3337 | after any history an item that waits behind k others has its one answer and is signalled done once the leaders have got through k + 1 more rounds, whatever the reviews bring and whoever joins meanwhile |
| QualityReview.LeaderMovesOn | transoria/bridge/task_service.py:3244-3337 | while somebody waits there is a leader whose next action is possible and leads to the next round |
| QualityReview.BatchSizeIsMaximal | transoria/bridge/task_service.py:3268-3280 | a batch stops only at five items, at the end of the queue, or where the next item would exceed the limit |
| QualityAnswers.NextBatch | transoria/bridge/task_service.py:3222-3280 | after any history the next batch comes off the front of the queue, as large as it may be within the limit of the caller who leads, by the tokens the items' own callers estimated |
| QualityReview.FormBatch | transoria/bridge/task_service.py:3266-3280 | the popping loop takes exactly the items of one batch off the front |
| QualityReview.ReviewGate.JoinGroup | transoria/bridge/task_service.py:3222-3229 | an item joins the registered group, or its caller becomes the leader of a new one |
| QualityReview.ReviewGate.HearReply | transoria/bridge/task_service.py:3313-3331 | decisions, an error or a cancellation reach every item they are for, and a cancelled leader clears the group |
| QualityReview.ReviewGate.CheckQueue | transoria/bridge/task_service.py:3333-3336 | the group is unregistered exactly when nobody waits |
| Retranslate.WritesFormChains | transoria/bridge/task_service.py:3106-3161 | in every interleaving of jobs, edits and failing saves the values of a segment form a chain, and each job's write goes from its recorded original to a result for an item that completed with it or, after a failed save, failed |
| Retranslate.WritesOwnedUp | transoria/bridge/task_service.py:672-705 | every write is the result of an item completed with it if and only if no save fails after another of the same call has succeeded |
| Retranslate.SplitExample | transoria/bridge/task_service.py:3916-3932 | with two subtasks and the second save failing, the first segment has the new translation and both items count as failed |
| Retranslate.CompletesIffUnchanged | transoria/bridge/task_service.py:3789-3932 | an item completes exactly if its segment still has the recorded source and translation, the result is new and approved, and no save fails; it is stored exactly then or, when a save fails, if its subtask came before |
| RetranslateSync.StartRecords | transoria/bridge/task_service.py:2419-2468 | a job is started exactly for one to five different stored segments, each once in the order first named, and records their present sources and translations |
| RetranslateSync.SyncStoresDue | transoria/bridge/task_service.py:2794-2839 | a late sync stores every finished result whose segment still has the recorded translation, or if a save raises those in earlier subtasks; the job counts as applied exactly if none raises |
| RetranslateSync.SyncLeavesOthers | transoria/bridge/task_service.py:2794-2839 | a late sync touches no segment that is not the job's |
| Retranslate.SegmentStore.Patch | transoria/bridge/task_service.py:656-705 | subtask after subtask is saved with all its new translations, until saving one fails |
| Retranslate.SegmentStore.ApplyCandidates | transoria/bridge/task_service.py:3789-3932 | all items are judged against the store as loaded, then the successes are saved; a failed save fails them all |
| Retranslate.SegmentStore.SyncCompleted | transoria/bridge/task_service.py:2794-2839 | the sync writes the results it finds pending, subtask by subtask, and stays open after a failed load or save |
| Repetition.RunawayRepetitionUnit | transoria/llm/client.py:686-708 | the shortest unit that fills the end of the text and whose run is not in the prompt is returned, and nothing exactly when there is none |
| Repetition.CountRepetitions | transoria/llm/client.py:695-699 | the cursor counts exactly the repetitions at the end of the text |
| Repetition.ShortestIsPrimitive | transoria/llm/client.py:686-708 | with an empty prompt the returned unit is not a power of a shorter string |
| PayloadFallback.DropKeepsCore | transoria/llm/client.py:881-893 | dropping an optional field changes nothing outside the optional and stream fields |
| PayloadFallback.DropRemoves | transoria/llm/client.py:863-893 | a dropped field is gone everywhere and no other has appeared |
| PayloadFallback.DropTakesOnly | transoria/llm/client.py:881-893 | every other optional field is there as before, with its value |
| PayloadFallback.FallbackExactly | transoria/llm/client.py:896-923 | there is a fallback exactly if a 400 or 422 answer rejects the usage request, an optional field that is there, or streaming, and it drops exactly that |
| PayloadFallback.FallbackProgress | transoria/llm/client.py:896-923 | every fallback strictly reduces the optional fields present and, unless the off setting was rejected, keeps the flags that turn thinking off |
| PayloadFallback.ApplyFallbacks | transoria/llm/client.py:1335-1411 | for any provider there are at most 13 retries, each without exactly what the answer before called for; every payload keeps the required fields and, with thinking off, the off flags; the last answer decides the outcome, and on success exactly the dropped fields are remembered |
| PayloadFallback.DropCachedFields | transoria/llm/client.py:1015-1027 | exactly the fields known to be rejected with their value are left out beforehand, off flags excepted when thinking is off, and the others are as they were |
| TextSplit.SplitSegments | transoria/formats/text.py:240-269 | the index loops return the lines with their own endings, and one empty line for an empty text |
| TextSplit.RenderTranslated | transoria/formats/text.py:272-277 | the rendered text is the lines with their translations and endings in order |
| TextSplit.RenderUndoesSplit | transoria/formats/text.py:240-277 | rendering the split of any text without translations gives the text back |
| TextSplit.SplitUndoesRender | transoria/formats/text.py:240-277 | splitting rendered lines gives them back exactly for lines that some text splits into |
| TextSplit.TranslatedRoundTrip | transoria/formats/text.py:240-277 | each line gets its own index's translation and keeps its ending, and the rendered document splits into these lines exactly if no translation holds a line break, empties a line between a lone CR and a lone LF, or empties a last line without ending |
| TextSplit.FaithfulTranslations | transoria/formats/text.py:240-277 | so it does, line by line, for line-break-free translations that are non-empty wherever the source line was |
| EpubPaths.RelativeHrefResolves | transoria/tools/epub_compressor.py:602-614 | a relative reference to a plain target, resolved from its directory, gives the target exactly if the target does not begin with a dot |
| EpubPaths.DirectoryOf | transoria/tools/epub_compressor.py:602-604 | the directory of a plain file name is its path without the last component |
| EpubPaths.NormDetour | transoria/formats/epub_paths.py:21-26 | going up and down again from a directory normalizes to the path meant |
| EpubReferences.SpellingResolves | transoria/formats/epub_paths.py:9-26 | however a relative reference is spelled - percent-encoded, with backslashes, with a query or fragment - it resolves to the path meant, exactly if that does not begin with a dot |
| EpubReferences.RootedSpellingResolves | transoria/formats/epub_paths.py:9-26 | a reference from the root does so always |
| FontDedup.BuildFontMap | transoria/tools/epub_compressor.py:474-489 | each font of the archive is sent to the first font of equal digest, and the removed count is the number sent elsewhere |
| FontDedup.MapIsIdempotent | transoria/tools/epub_compressor.py:474-489 | a kept font is sent to itself, and fonts of equal digest to the same font |
| FontDedup.RemovedIsExact | transoria/tools/epub_compressor.py:474-489 | the removed count is fonts less distinct digests exactly if no kept name is listed twice |
| FontDedup.WriteEntries | transoria/tools/epub_compressor.py:364-403 | the output holds the mimetype and exactly the entries that are not directories or replaced fonts |
| FontDedup.KeptIsWritten | transoria/tools/epub_compressor.py:372-378 | the font that any font is sent to is among the written entries |
| FontDedup.RewriteManifest | transoria/tools/epub_compressor.py:492-515 | in place, exactly the references to replaced fonts are rewritten |
| EpubReferences.DuplicateFollowed | transoria/tools/epub_compressor.py:492-515 | however a book refers to a font whose content an earlier one has, the reference is rewritten to that one, and to a kept font it stays |
| FontDedup.NoDangling | transoria/tools/epub_compressor.py:492-515 | a rewritten reference resolves to the kept font exactly if that font's path does not begin with a dot, and the kept font is in the output |
| FontDedup.NoDanglingUrl | transoria/tools/epub_compressor.py:545-560 | the same for style sheets, the kept font in the output and the fragment kept behind the path |
| FontDedup.DottedKeptDangles | transoria/formats/epub_paths.py:25-26 | a font kept under a directory that begins with a dot is missed by its rewritten reference |

## Left out

- Bilingual copies of blocks, language attributes, the direct slot replacement mode and the removal of characters that XML forbids (transoria/formats/epub_writer.py): the modelled loop is the plain one, on translations already cleaned.
- NCX labels, archive reading and writing, HTML repair, and the order of segments across documents: the model starts from one parsed tree.
- Address identity: nodes are identified by address because the modelled write-back does not restructure the tree; only `EpubRuby` removes nodes, and it works on values.
- ElementPaths.FindByPath: positions are plain decimal numbers; the signs, underscores and other digits that Python's `int` accepts do not occur in paths that the parser writes.
- EpubDocument.Document.ApplyDocSegments: warnings are computed per segment but their log records are not kept.
- TaskModel: token counts, timestamps, error texts and progress events are not modelled; `response` stands for everything a finished request stores. A load of the task is one step. Errors of the cache itself, `release_pause` and the reconcile of a stalled but live executor are not modelled.
- TaskRuns.CompletedIsFinal: not for reconciles that write from an outdated snapshot, because then it is false of the code (`TaskLostWork.LateCheckLoses`); `TaskReconcile.SafeExactlyIfQuiet` states when it holds.
- Retranslate: checks that do not look at the store (drift, quality, residue) are one arbitrary approval; one call's saves are one step, as they are under the task lock, of which any one may fail.
- QualityReview: the short wait for more items is any delay; one group key is modelled, since keys do not interact.
- KeyPool.KeyRing.Send: provider answers are status codes; transport errors end the call without touching the pool. Under endless 429 answers the loop does not end, so it is run on a finite list of answers.
- RateLimiters.TpmLimiter.UsedInWindow: settlements by others are interleaved with the sleeps of a reservation; a concurrent reading of the window is not.
- PayloadFallback: how an error text is read is arbitrary; a reply carries what the code concluded from it.
- Repetition: white space and letters are whatever the alphanumeric test says.
- TextSplit: decoding, script normalization and bilingual rendering.
- FontDedup: image compression, removal of all fonts, XML and the regular expression that finds `url(...)`.
- Settings, prompts, workflows, the bridge server and the user interface: only easy members.
