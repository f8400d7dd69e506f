# LokLingo: a verified model of the job pipeline and the OCR service

Five parts of the repository are modelled in Dafny and proved correct for all inputs, all runs and all behaviours
of the engines behind them. `dafny verify dfyconfig.toml` checks everything.

| part | files |
|---|---|
| chunked translation of a document | `Text`, `Normalize`, `Chunking`, `ChunkTranslation`, `ChunkCosts`, `JobChunks`, `Interruptions`, `Checkpoints`, `CheckpointKeys`, `PageProgress`, `BatchResults`, `Reassembly`, `Pipeline` |
| Redis job queue and worker protocol | `JobQueue`, `QueueProtocol`, `QueueSafety`, `QueueOrder`, `QueueCalm`, `QueueRetries`, `QueueLimits` |
| OCR page windows | `PageText`, `PagePlan`, `PageRequest`, `PageMerge` |
| OCR blocks | `Sorting`, `Layout`, `Ensemble`, `Columns`, `ReadingOrder`, `CorrectionChunks`, `Correction` |
| evaluation and failover | `Levenshtein`, `ProviderHealth`, `Orchestrator`, `OcrChain` |
| shared | `Numbers`, `Options`, `PythonText` |

## How it is modelled

Code that works by loops and updates is a method (with a class where the source keeps fields), proved equal to a
specification function or against a stated property; the properties are lemmas about those functions. Translators,
OCR engines, the sidecar, the language model, hashes and clocks are arbitrary function parameters, indexed by a call
counter where an engine may answer the same request differently each time. Lookups and stores that may fail, slow
chunks and the order of concurrent steps are nondeterministic choices inside the methods.

**Queue.** Redis lists are sequences, sorted sets and hashes are maps. Every script, pipelined command and payload
write is one step of a transition system in which enqueues, replays, stale recovery, promotion and a crash may come
between any two steps of the worker. The methods of `JobQueue.Store` and the worker's methods in `QueueProtocol` are
proved to take exactly these steps. Assumptions: one live worker, replaced after a crash; payload writes succeed and
no entry reaches its time to live; the SET and LPUSH of an enqueue are one step, and so are a pop and its mark, the
commands of a dead-letter entry, and each script; ids are fresh on enqueue; a job survives the round trip through
JSON. A failing queue command counts as a crash of the worker that may leave any of the pending replay requests alive;
a failing requeue and a failing dead-letter entry are steps of their own and part of `QueueProtocol.HandleFailedJob`.

**Documents.** Goroutines of a batch take up to four steps each (checkpoint lookup, translation, report to the page
counter, checkpoint storage), in any interleaving; translations of a batch overlap in time on one clock, from which
each starts at any moment since the batch began. A select between a done context and a free slot or an elapsed delay
may pick either. A key collision of SHA-256 is excluded where a checkpoint store is in use; the byte strings written to
the hash are modelled in full. The page counter is modelled for PDF jobs. `int(float64(n) * 0.8)` is `4 * n / 5`.
Numbers that the source keeps as floats are reals.

**Text.** Characters are Unicode code points; blanks are those of Go's `unicode.IsSpace`, and in the Python service
those of `str.strip` and `str.split`, which are four more.

## Where code and documentation differ

- The "hard cap words" of a chunk (backend/jobs/worker.go:33) is one for units, not for packed chunks. In the worker it
  holds for every document if and only if the configured minimum is one word (`Chunking.WorkerHardCapIff`); for other
  unit sizes see `Chunking.HardCapIff`.
- A page window is documented to split "on page-count mismatch" (ocr-service/app.py:2241). It splits only when pages
  are missing; superfluous ones are cut (`PageRequest.SplitsIff`).
- Chunk checkpoint keys separate their fields by NUL characters that are not escaped. Among the chunks one job can have
  they are collision-free if and only if texts hold no NUL or the minimum is one word; otherwise a full unit can spell
  out the two units after it (`CheckpointKeys.KeysDistinguishIff`).
- Checkpoints are kept "for later resume/retry reuse" (backend/jobs/store.go:473-474), but a retry after a failed attempt
  cannot reach them: the attempt has deleted the uploaded PDF (backend/jobs/worker.go:898-911). Runs that follow a crash
  or a recovery of a job still held do. For a service that answers by text, the checkpoints they find are what an
  undisturbed attempt gives, unless a chunk call timed out on its own (`Interruptions.TransparentIff`).
- `QueueLimits` names the exact faults that break what the queue seems to promise: a mark for each inflight entry, a
  dead-letter entry for each failed job, no second execution of a completed job, attempts within the limit.

## Model

| member | source | states |
|---|---|---|
| Normalize.FilterInPlace | backend/jobs/translate.go:15-21 | filtering paragraphs into the front of the array being ranged over gives the filter-map of the original paragraphs |
| Normalize.NormalizeText | backend/jobs/translate.go:13-23 | the loop computes the non-blank paragraphs with collapsed blanks, joined by blank lines |
| Normalize.NormalizedKeepsWords | backend/jobs/translate.go:13-23 | the result has the words of the input in order |
| Normalize.NormalizedIdempotent | backend/jobs/translate.go:13-23 | normalising twice is normalising once, by the split-join round trip on blank lines |
| Normalize.NormalizePages | backend/jobs/translate.go:25-33 | pages are normalised and blank ones dropped |
| Normalize.NormalizedPagesFacts | backend/jobs/translate.go:25-33 | no word is lost or moved, no page is blank, and a second pass changes nothing |
| Chunking.SplitByWordBudget | backend/jobs/worker.go:367-384 | the parts hold the words of the text in order, each between one word and the budget |
| Chunking.BuildChunkUnits | backend/jobs/worker.go:395-408 | units follow page order, stay within the budget, are cut only where one is full, and carry exactly the words of their page; they are a function of the pages, the same in every attempt |
| Chunking.BuildTextChunks | backend/jobs/worker.go:410-428 | the loop packs as the specification does |
| Chunking.TextChunksPacking | backend/jobs/worker.go:410-428 | chunks partition the units in order, none is empty, and one is closed exactly when it has the minimum and the next unit would exceed the maximum |
| Chunking.ChunkWordBound | backend/jobs/worker.go:410-428 | a chunk has at most max(max, U, min - 1 + U) words for units of at most U words |
| Chunking.HardCapIff | backend/jobs/worker.go:410-428 | for units of at most U words, the maximum caps every chunk of every document if and only if min - 1 + U fits it; otherwise one-word pages followed by a full one break it |
| Chunking.WorkerHardCapIff | backend/jobs/worker.go:1539-1555 | in the worker, where U is the maximum, it caps every chunk of every document if and only if the minimum is one |
| Chunking.WordRangeOptionValid | backend/jobs/worker.go:80-92 | any option applied to a range with 1 <= min <= max gives such a range |
| Chunking.ReduceRangeStep | backend/jobs/worker.go:430-449 | a reduction keeps 1 <= min <= max and raises neither bound |
| Chunking.ReductionsBounded | backend/jobs/worker.go:430-449 | any number of reductions keeps the range valid, below the start, and min at or above the smaller of 40 and its start |
| Chunking.ReductionsReachFloor | backend/jobs/worker.go:430-449 | enough reductions bring the range to its floor and keep it there |
| ChunkTranslation.Worker.TranslateWithRetry | backend/jobs/worker.go:317-365 | the back-off loop computes the specified reply for any service, any cancellation and any choice of a select; a call is repeated exactly after a transient failure within the budget, and the reply is the last answer unless the back-off was cut short |
| ChunkTranslation.FailuresOfRetries | backend/jobs/worker.go:333-363 | undisturbed, a transient failure is reported only after all four calls, and a permanent one after one |
| ChunkTranslation.AnswerAfterRetries | backend/jobs/worker.go:333-363 | undisturbed, an answer after at most three transient failures is the reply, with no further call |
| ChunkTranslation.Worker.TranslateChunk | backend/jobs/worker.go:492-601 | the recursive split on failure, with the fallback for altered delimiters, computes the specified outcome and counts |
| ChunkTranslation.ChunkResultShape | backend/jobs/worker.go:492-601 | success on n units gives n units on the same pages in order, whatever failed or altered the delimiters |
| ChunkTranslation.ChunkResultCost | backend/jobs/worker.go:492-601 | n units cost at most 2n - 1 retried requests, four service calls each, and n - 1 splits |
| ChunkCosts.CombinedTaken | backend/jobs/worker.go:523-551 | an answer in as many pieces as units is taken apart, trimmed, with one call in all |
| ChunkCosts.AlteredCosts | backend/jobs/worker.go:531-541 | an answer in another number of pieces costs one call a unit more, and no split |
| ChunkCosts.SplittingCosts | backend/jobs/worker.go:558-601 | a service that fails on every combined payload is called exactly 2n - 1 times, with n - 1 splits |
| ChunkCosts.EndedCosts | backend/jobs/worker.go:492-557 | once the job has ended nothing is called or split, and its end is reported |
| ChunkCosts.EndReported | backend/jobs/worker.go:504-556 | a failure that arrives after the job's end is reported as that end |
| ChunkCosts.FallbackIgnoresTimeouts | backend/jobs/worker.go:531-541 | the fallback runs under the job's context: chunk timeouts do not reach it |
| ChunkTranslation.OneByOneMapped | backend/jobs/worker.go:531-541 | the fallback for altered delimiters translates each unit with the service's unit-wise translation |
| ChunkTranslation.ChunkResultMapped | backend/jobs/worker.go:492-601 | a service that translates unit by unit, whether or not it alters the delimiters of combined payloads, yields exactly the unit-wise translation, however the chunk was split |
| ChunkTranslation.ChunkResultUncancelled | backend/jobs/worker.go:464-472 | without cancellation every failure of a chunk is recoverable |
| ChunkTranslation.ChunkResultSucceeds | backend/jobs/worker.go:492-601 | failures of combined payloads alone never fail a chunk |
| ChunkTranslation.ChunkResultDeterministic | backend/jobs/worker.go:492-601 | undisturbed, a deterministic service gives an outcome that depends neither on the attempt nor on the time |
| Interruptions.ChunkInterrupted | backend/jobs/worker.go:317-601 | for a service that answers by text and an attempt whose job may end at any moment: a chunk still translated is translated as undisturbed, and one that fails does so undisturbed or after the job's end |
| Interruptions.ChunkSettled | backend/jobs/worker.go:317-601 | so every attempt, whenever it starts and ends, agrees with one fixed outcome of the chunk |
| Interruptions.PairIsChunk | backend/jobs/worker.go:395-428 | the chunk on which a timeout shows is one of a two-page document, whatever the range with room for two words |
| Interruptions.TransparentIff | backend/jobs/worker.go:317-601 | over the chunks of all documents, this holds for all attempts if and only if chunk calls do not time out before the job does, or the maximum is one word: after such a timeout a chunk is split and its halves are translated without their context |
| Checkpoints.ChunkCheckpointKey | backend/jobs/worker.go:386-393 | the key is the hash of the specified byte string |
| Checkpoints.PreimageInjective | backend/jobs/worker.go:386-393 | for NUL-free text that byte string determines languages, page indexes and texts |
| JobChunks.JobChunkRun | backend/jobs/worker.go:1554-1707 | a chunk of a job, at whatever point of an attempt and after whatever reductions, is a run of its units packed within a range below the configured one |
| CheckpointKeys.GluedWords | backend/jobs/worker.go:386-393 | the bytes of a chunk's texts with the separators in between hold as many words as the chunk, less one for each further unit |
| CheckpointKeys.SameBytes | backend/jobs/worker.go:386-393 | with a minimum of one word, two chunks of one job with the same key bytes are the same chunk, NULs or not |
| CheckpointKeys.CollidingChunks | backend/jobs/worker.go:410-428 | with a larger minimum there is a document whose chunks include the colliding pair |
| CheckpointKeys.KeysDistinguishIff | backend/jobs/worker.go:386-393 | over an alphabet with 1 and blank, the keys of the chunks a job can have are collision-free if and only if it has no NUL or the minimum is one word |
| CheckpointKeys.KeysSuffice | backend/jobs/worker.go:386-393 | so a job's chunks have keys of their own if its pages hold no NUL, then even among the chunks of all such documents, or if the minimum is one word |
| Checkpoints.CachePreimageInjective | backend/jobs/store.go:52-56 | for NUL-free language codes the cached byte string determines the triple, whatever the text holds |
| Checkpoints.CacheDistinguishesIff | backend/jobs/store.go:52-56 | as a function on arbitrary strings the key is collision-free if and only if language codes have no NUL, which the handlers ensure for every job |
| Checkpoints.SoundSet | backend/jobs/store.go:475-485 | among chunks with keys of their own, storing a fresh result keeps every stored result one that its own chunk can produce |
| Checkpoints.CheckpointTransparent | backend/jobs/worker.go:1575-1588 | for a service that answers by text, whatever interrupted attempts filled the store: a hit is the chunk's undisturbed translation, and what any attempt that translates it gives |
| PageProgress.Tracker.CompleteChunk | backend/jobs/worker.go:1640-1655 | reporting a chunk counts its units, and a page when its last unit is done |
| PageProgress.CountUnitsExact | backend/jobs/worker.go:1640-1655 | the counter stays the number of pages all of whose units are done |
| PageProgress.CountUnitsMonotone | backend/jobs/worker.go:1640-1655 | the counter never decreases within an attempt |
| PageProgress.RunExact | backend/jobs/worker.go:1540-1655 | after any order of completions the counter is the number of complete pages, hence at most the page count |
| BatchResults.TranslatedHonest | backend/jobs/worker.go:1602-1664 | what a call of translateChunk leaves is a translation some allowed attempt gives, or the chunk itself with a failure that really occurred by then |
| BatchResults.CountStep | backend/jobs/worker.go:1640-1655 | one fresh result reported keeps the page counter exact and equal to the fresh units counted, however the chunks of a batch interleave |
| Pipeline.Processor.Lookup | backend/jobs/worker.go:1575-1588 | what is stored is found unless the lookup fails; a hit in a sound store is a result of the very chunk asked for |
| Pipeline.Processor.Translate | backend/jobs/worker.go:1590-1602 | starting at any moment since the batch began, the result is honest: a translation, or the chunk with a failure, also when the job ended before |
| Pipeline.Processor.Save | backend/jobs/worker.go:1660-1666 | a fresh result is stored under the chunk's key unless storing fails, and the store stays sound |
| Pipeline.Processor.Step | backend/jobs/worker.go:1570-1667 | each of a goroutine's steps keeps results honest and the store sound; only the report touches the page counter, and it counts exactly the answer's units |
| Pipeline.Processor.RunBatch | backend/jobs/worker.go:1559-1670 | every interleaving of lookups, overlapping translations, reports and stores of a batch ends with one honest result a chunk and an exact page counter |
| Pipeline.Processor.TranslateUnits | backend/jobs/worker.go:1554-1707 | the adaptive batch loop ends, covers all units in order, and keeps counter and store right; each batch is the first chunks, as many as run together, of what remains at a range reduced once for each slow batch before |
| Pipeline.Processor.Reassemble | backend/jobs/worker.go:1708-1740 | pages are the joined texts of their units in result order; only an unrecoverable failure prevents them |
| Pipeline.Processor.TranslatePages | backend/jobs/worker.go:1533-1740 | end to end, without a store or with a sound one that tells the job's chunks apart: a service that echoes or fails recoverably ends with the words of each page in order; a unit-wise one with each unit's translation, or the unit in a degraded chunk; one that answers by text with pages that do not depend on the store; altered delimiters included |
| Reassembly.ResultUnitsMix | backend/jobs/worker.go:1659-1740 | honest results of a unit-wise service are, unit by unit, the translation or the input |
| Reassembly.PageTextWords | backend/jobs/worker.go:1730-1740 | the words of a reassembled page are the words its units carry |
| Reassembly.EndedTranslation | backend/jobs/worker.go:1533-1740 | a run with a unit-wise service that is not cancelled, delimiters altered or not, yields all pages, with the translated words of each in order, and all units translated when nothing was degraded |
| Reassembly.EndedEcho | backend/jobs/worker.go:1533-1740 | if every answer is the text asked for, or a combined one in another number of pieces, and failures are recoverable, each output page has exactly the words of its input page in order |
| Reassembly.EndedSettled | backend/jobs/worker.go:1533-1740 | for a service that answers by text, finished pages and the degraded count are the function of the chunks that undisturbed translation gives |
| Reassembly.StoreDoesNotShow | backend/jobs/worker.go:1575-1740 | two finished runs over the same chunks, whatever sound stores they started from, have the same units chunk by chunk and the same pages |
| JobQueue.Store.Enqueue | backend/jobs/store.go:139-150 | stores the payload and pushes the id |
| QueueOrder.LineGrows | backend/jobs/store.go:139-437 | whatever queues jobs puts them, in order, behind all that wait, and changes nothing ahead |
| QueueOrder.PopTakesFront | backend/jobs/store.go:177-208 | a pop takes the front of the line |
| QueueOrder.FirstInFirstOut | backend/jobs/store.go:139-437 | in every run, crashes and recovery included: who stood in line and who arrived, in order, are those taken, in order, and those in line |
| QueueOrder.TakenInTurn | backend/jobs/store.go:177-208 | a job with n ahead of it is taken by exactly the pop after n others |
| QueueOrder.EnqueuedInTurn | backend/jobs/store.go:139-208 | jobs enqueued to an empty queue without other arrivals are taken in the order of their enqueueing |
| JobQueue.Store.RecoverStale | backend/jobs/store.go:260-303 | moves the stale ids, in score order, from the inflight list to the queue and drops their marks |
| QueueRetries.StaleIff | backend/jobs/store.go:260-303 | recovery takes a job exactly from 600 whole seconds after its pop on |
| QueueRetries.HeldJobIsSpared | backend/jobs/store.go:177-303 | so a job whose worker takes less than that is in no recovery, whatever else happens |
| JobQueue.Store.PromoteDueRetries | backend/jobs/store.go:210-245 | moves the due ids, in score order, from the retry set to the queue |
| JobQueue.Store.Dequeue | backend/jobs/store.go:177-208 | recovery, promotion, pop with mark; a job whose payload vanished is acknowledged |
| JobQueue.Store.Requeue | backend/jobs/store.go:305-318 | pushes at once or schedules the retry |
| QueueRetries.RetryComesDue | backend/jobs/store.go:210-318 | a scheduled retry is promoted exactly from the second on in which its delay ends |
| JobQueue.Store.DeadLetter | backend/jobs/store.go:320-331 | records the id and the reason and cancels its retry |
| JobQueue.Store.ReplayEval | backend/jobs/store.go:386-431 | one script: only a dead-lettered id is queued again with the given payload; returns how many entries it removed |
| QueueRetries.ReplayRenews | backend/jobs/store.go:386-431 | a replayed job is pending with no attempt used and its old limit |
| QueueRetries.DeadAreListed | backend/jobs/store.go:320-431 | in every reachable state exactly the dead-lettered jobs have a recorded reason |
| JobQueue.RangeByScore | backend/jobs/store.go:210-300 | the selection of due members: exactly those up to the limit, each once, by score and then member |
| QueueProtocol.RetryDelay | backend/jobs/worker.go:680-695 | doubling from two seconds to a minute, plus at most a quarter of jitter |
| QueueRetries.BaseDelayDoubles | backend/jobs/worker.go:680-695 | the base delay of attempt a is the smaller of a minute and 2000 * 2^(a - 1) milliseconds |
| QueueProtocol.HandleFailedJob | backend/jobs/worker.go:801-888 | retry, overload and dead-letter decisions, with a requeue or dead-letter entry that fails: pending exactly when the failure is transient, attempts are left and the requeue works |
| QueueProtocol.HandledGoes | backend/jobs/worker.go:801-888 | a pending job is scheduled for its retry, a failed one dead-lettered with its reason, unless a command fails |
| QueueRetries.RetryDecision | backend/jobs/worker.go:813-830 | in calm runs a transient failure is retried exactly while the job has been executed less often than its limit, under overload one less; any other failure never |
| QueueRetries.TransientFailuresExhaust | backend/jobs/worker.go:801-888 | in a calm run with transient failures only, a job is dead-lettered after exactly its limit of executions |
| QueueProtocol.HandlingIsARun | backend/jobs/worker.go:801-888 | that handling is two enabled steps of the protocol, with the same store and job after them |
| QueueProtocol.RunOnce | backend/jobs/worker.go:186-210 | one turn of the worker loop is a run of enabled steps ending idle |
| QueueSafety.StepSafe | backend/jobs/store.go:139-437 | every step, a crash included, keeps each unfinished job queued, scheduled for retry, or inflight with a mark |
| QueueSafety.NoJobIsLost | backend/jobs/worker.go:186-210 | so in every reachable state |
| QueueSafety.RecoveryRequeuesAll | backend/jobs/store.go:210-303 | from any reachable state without a live worker, one full recovery and one full promotion queue every unfinished job |
| QueueLimits.AllMarkedIff | backend/jobs/worker.go:843-850 | in all runs every inflight id has a mark, if and only if no crash is allowed |
| QueueLimits.StepKept | backend/jobs/worker.go:801-888 | each step but a crash, a failing requeue and a failing dead-letter entry keeps every failed job dead-lettered or in the worker's hand |
| QueueLimits.FailedIsKeptIff | backend/jobs/worker.go:843-888 | in all runs every failed job is dead-lettered or in the worker's hand, if and only if none of these three is allowed; each alone breaks it |
| QueueLimits.NotRunAgainIff | backend/jobs/store.go:260-303 | in all runs no completed job is processed again, if and only if neither a crash nor recovery of a job still held is allowed |
| QueueLimits.WithinLimitIff | backend/jobs/worker.go:801-888 | in all runs attempts stay within the limit, if and only if neither is allowed |
| QueueLimits.AttemptsGrow | backend/jobs/worker.go:801-888 | with either of them, the attempts of one job with the default limit of three grow without bound, round by round |
| QueueLimits.RankZeroIsFinished | backend/jobs/worker.go:801-888 | a job whose rank has come down to zero is completed or failed |
| QueueCalm.StepCalm | backend/jobs/store.go:139-437 | without crash and recovery of the held job, each step keeps one claim a job, the inflight list equal to the held job, and the budgets |
| QueueCalm.CalmRunsAreBounded | backend/jobs/worker.go:801-888 | in such runs no id is twice in queue plus retry set, and attempts and executions since enqueue or replay stay within the limit |
| QueueCalm.RankFalls | backend/jobs/worker.go:801-888 | no step but an enqueue or replay raises a job's rank, and each that carries it on lowers it |
| QueueCalm.RankBound | backend/jobs/worker.go:801-888 | the rank is bounded by the limit and zero exactly when nothing claims the job |
| QueueCalm.AdvancesAreBounded | backend/jobs/worker.go:801-888 | hence a job is carried on at most as often as its rank says |
| PageText.SplitPagesOfAnswer | ocr-service/unlimited_ocr.py:451-457 | pages written after markers are read back stripped, blank ones included, except a single blank page |
| PageText.PlainAnswer | ocr-service/unlimited_ocr.py:451-457 | an answer without markers is one page, unless it is blank |
| PageText.TextBeforeMarker | ocr-service/unlimited_ocr.py:451-457 | text before the first marker is a page of its own |
| PagePlan.PlanPageWindows | ocr-service/unlimited_ocr.py:434-448 | the loop gives the closed-form windows: multiples of the stride, 1 + ceil((N - W) / (W - overlap)) of them when N > W |
| PagePlan.BelowCount | ocr-service/unlimited_ocr.py:434-448 | the count is exactly the number of windows that start while pages are left over |
| PagePlan.PlanShape | ocr-service/unlimited_ocr.py:434-448 | windows are non-empty, move forward, cover the document, and share exactly the clamped overlap |
| PageRequest.RequestWindow | ocr-service/app.py:2237-2285 | the recursive request with retries of degenerate pages computes the specified entries and calls, exceptions included |
| PageRequest.SplitsIff | ocr-service/app.py:2248-2285 | a window splits if and only if more than one page was asked for and fewer came back |
| PageRequest.WindowShape | ocr-service/app.py:2237-2285 | for every sidecar: n entries with the given page numbers in order, at most 2n - 1 calls |
| PageRequest.EmptyAnswersCost | ocr-service/app.py:2237-2285 | that bound is met by a sidecar that finds nothing |
| PageRequest.RetriedShape | ocr-service/app.py:2255-2271 | a retry replaces a degenerate page only, and by a readable one |
| PageRequest.RetryUsed | ocr-service/app.py:2255-2271 | each degenerate page of a larger window is asked for once more, and a readable answer to that is what it ends as |
| PageRequest.WindowRaises | ocr-service/app.py:2237-2285 | a window fails only if the engine is off or its last call raised |
| PageRequest.FormattedAnswer | ocr-service/unlimited_ocr.py:451-507 | a well-formed answer is taken at once, page by page |
| PageRequest.WindowGrounded | ocr-service/app.py:2237-2285 | every text delivered for a page stood at this page's place in an answer to a request for consecutive pages that held it, or is empty |
| PageMerge.OcrPdf | ocr-service/app.py:2320-2477 | the merge over overlapping windows, which fills the result list in place, computes the specified response; the branch for missing pages is dead |
| PageMerge.ResponseShape | ocr-service/app.py:2320-2477 | a response has one result a page, numbered in order, and text in page order; only a document over the limit is refused |
| PageMerge.TextOfWords | ocr-service/app.py:2410-2413 | the words of that text are the words of the pages, page after page |
| PageMerge.MergedShape | ocr-service/app.py:2345-2417 | each page comes from the first window that holds it; a later copy changes nothing |
| PageMerge.HealthyResponds | ocr-service/app.py:2320-2477 | if neither sidecar nor renderer nor parser raises, every document within the page limit gets a response |
| PageMerge.MergedCalls | ocr-service/app.py:2320-2417 | all windows together make at most two calls a page read, less one a window |
| Sorting.SortFacts | ocr-service/app.py:847-852 | list.sort as modelled permutes, sorts, and keeps equal keys in order |
| Sorting.StableSortUnique | ocr-service/app.py:847-852 | any sort with these properties gives the same list |
| Ensemble.IouFacts | ocr-service/app.py:804-816 | overlap is symmetric and in [0, 1] for all boxes, crossed and flat ones included |
| Ensemble.IouIsShare | ocr-service/app.py:804-816 | it is the share of the common area in the covered one; for a box inside another, of its area; none for boxes apart |
| Ensemble.IouOneIff | ocr-service/app.py:804-816 | it is 1 exactly for equal boxes with an area |
| Ensemble.EnsembleMerge | ocr-service/app.py:819-852 | greedy matching, winners, leftovers, sort and numbering as specified |
| Ensemble.BestFacts | ocr-service/app.py:829-838 | the match is unused, overlaps, and is the first of the largest overlap |
| Ensemble.MatchFacts | ocr-service/app.py:829-843 | every match is with a block not used before, at or above the threshold |
| Ensemble.MatchedOnce | ocr-service/app.py:829-843 | no engine block is matched twice |
| Ensemble.PaddleRepresented | ocr-service/app.py:838-845 | each block of the first engine is represented by itself or its match, at no lower confidence |
| Ensemble.EngineRepresented | ocr-service/app.py:838-848 | and so is each block of the second |
| Ensemble.MatchingMaximal | ocr-service/app.py:829-848 | two blocks left unmatched do not overlap enough to be matched |
| Ensemble.EnsembleFacts | ocr-service/app.py:819-852 | the result has one block for each input less the matches, sorted by top and left edge, numbered from 1 |
| Columns.DetectColumns | ocr-service/app.py:972-1014 | the loops compute the specified column of each block |
| Columns.SameColumnIff | ocr-service/app.py:972-1014 | two blocks share a column if and only if no gap of at least the threshold between neighbouring centres separates them; columns grow with the centre |
| Columns.NoEmptyColumn | ocr-service/app.py:972-1014 | every column up to the last holds a block |
| ReadingOrder.AssignReadingOrder | ocr-service/app.py:1113-1191 | grouping, row clustering, column order and numbering as specified |
| ReadingOrder.PagePermuted | ocr-service/app.py:1113-1191 | the page holds exactly the classified blocks, in both writing directions |
| ReadingOrder.PageInOrder | ocr-service/app.py:1113-1191 | left to right it is sorted by column, top and left edge; right to left by descending column |
| ReadingOrder.ColumnPermuted | ocr-service/app.py:1150-1178 | row clustering loses and duplicates nothing |
| ReadingOrder.RowsAreClusters | ocr-service/app.py:1158-1173 | from the top down, each block of a row overlaps the span of those before it, and the spans of different rows are apart |
| ReadingOrder.OverlapSharesRow | ocr-service/app.py:1158-1173 | two blocks of a column that overlap vertically are in the same row |
| ReadingOrder.RowsReadRightToLeft | ocr-service/app.py:1150-1178 | a right-to-left column is its clusters of vertical overlap from the top, each from the right, with every block in one of them |
| CorrectionChunks.ChunkLowConfidenceBlocks | ocr-service/app.py:1457-1474 | the doubtful lines in order, each in one chunk; no chunk over the limit unless it is one line, and none closed early |
| CorrectionChunks.DoubtfulIff | ocr-service/app.py:1458 | doubtful are exactly the lines with a visible character and a confidence up to the threshold |
| Correction.ApplyLlmCorrection | ocr-service/app.py:1538-1648 | gates, chunk loop, guards and statistics as specified, each prompt holding the original lines |
| Correction.AfterJobsAt | ocr-service/app.py:1584-1633 | a block becomes the correction some chunk proposes for it, or stays |
| Correction.AcceptableIsApplied | ocr-service/app.py:1605-1627 | a proposed line that differs and is similar enough is taken over with the raised confidence, and any other one leaves the block |
| Correction.CorrectedCounts | ocr-service/app.py:1635-1644 | the statistics count exactly the blocks with such a proposal, and the run is applied exactly if there is one |
| Correction.LastReasonIs | ocr-service/app.py:1597-1603 | the reason kept is that of the last chunk that could not be used |
| Correction.OrderIndependent | ocr-service/app.py:1584-1633 | given the replies, the order of the chunks does not matter |
| Correction.RunKeeps | ocr-service/app.py:1572-1633 | only doubtful blocks change, only in text and confidence, and only to a line similar enough |
| Correction.FailedChunkUntouched | ocr-service/app.py:1598-1603 | after a provider failure or a wrong line count the chunk is untouched |
| Correction.BoostRaises | ocr-service/app.py:1626-1627 | on confidences of four decimals, as every engine's are, the boost is the larger of the confidence and 0.90, unchanged by its rounding |
| Correction.RunNeverLowers | ocr-service/app.py:1584-1633 | whatever the threshold, no block of a run loses confidence, one that is corrected has at least 0.90, and all keep their four decimals |
| Levenshtein.Compute | ocr-service/eval_ocr.py:38-51 | the two-row table with swapped arguments gives the recurrence's distance |
| Levenshtein.DistanceIsCheapest | ocr-service/eval_ocr.py:38-51 | that distance is the cost of the cheapest insert, delete and substitute script |
| Levenshtein.DistanceSymmetric | ocr-service/eval_ocr.py:39-40 | it is symmetric, so the swap is sound |
| Levenshtein.DistanceZeroIff | ocr-service/eval_ocr.py:38-51 | it is zero exactly for equal sequences |
| Levenshtein.Triangle | ocr-service/eval_ocr.py:38-51 | it satisfies the triangle inequality |
| Levenshtein.DistanceBounds | ocr-service/eval_ocr.py:38-51 | it lies between the length difference and the longer length |
| Levenshtein.Cer | ocr-service/eval_ocr.py:34-59 | the character error rate is that of the normalised texts, blanks being Python's |
| Levenshtein.Wer | ocr-service/eval_ocr.py:34-67 | the word error rate is that of the words of the composed texts: joining and splitting again changes none |
| Levenshtein.PerfectTranscription | ocr-service/eval_ocr.py:54-67 | both rates are zero exactly when the texts have the same words |
| ProviderHealth.HealthInRange | backend/services/orchestrator.go:84-117 | over every history the score stays in [0.15, 1.2], so the clamp never acts |
| ProviderHealth.FourOutcomesDecide | backend/services/orchestrator.go:94-117 | four failures in a row score below four successes in a row, whatever came before |
| ProviderHealth.ThreeDoNotDecide | backend/services/orchestrator.go:94-117 | three do not |
| ProviderHealth.OrderedProvidersByHealth | backend/services/orchestrator.go:119-145 | the tried order is the stable order of the scores, for all registries |
| ProviderHealth.OrderFacts | backend/services/orchestrator.go:119-145 | it is a permutation of the registration order, best score first, ties by registration |
| ProviderHealth.TieBreakRedundant | backend/services/orchestrator.go:132-137 | the comparison by index adds nothing to the stable sort |
| Orchestrator.Orchestrator.CurrentProviderHealth | backend/services/orchestrator.go:102-110 | the score read is the one the provider's history gives, the default for an unknown one |
| Orchestrator.Orchestrator.UpdateProviderHealth | backend/services/orchestrator.go:112-117 | the stored score stays the one the provider's history gives |
| Orchestrator.Orchestrator.FailingTriedLater | backend/services/orchestrator.go:119-145 | in the next request a provider with four failures comes after one with four successes |
| Orchestrator.TryProviderWithRetry | backend/services/orchestrator.go:243-337 | the retry loop computes the specified result, calls and base waits |
| Orchestrator.TryExact | backend/services/orchestrator.go:243-337 | from answers and cancellation alone: calls are repeated exactly after transient failures within the budget of a live request, and the error says which of the reasons ended them |
| Orchestrator.BackoffBounded | backend/services/orchestrator.go:250-330 | all base waits are within the maximum if and only if the first is |
| Orchestrator.BackoffDoubles | backend/services/orchestrator.go:250-330 | they double up to the maximum |
| Orchestrator.Orchestrator.Translate | backend/services/orchestrator.go:167-238 | the failover loop computes the specified run and records one outcome for each provider tried; of these, exactly those with the winner's name end in a success |
| Orchestrator.RunRecordsResult | backend/services/orchestrator.go:185-238 | a success is recorded exactly for the provider whose text is returned, for every other one tried what its last error calls for; none is tried after the request ended |
| Orchestrator.FailoverLearns | backend/services/orchestrator.go:119-238 | after four requests in which one provider gave up and another's text was taken, the second is tried before the first |
| Orchestrator.FirstSuccessWins | backend/services/orchestrator.go:167-337 | undisturbed, the first provider in the tried order that succeeds within its budget decides, and none after it is called |
| Orchestrator.RunCalls | backend/services/orchestrator.go:167-337 | at most P(1 + MaxRetries) provider calls, none for negative retries |
| OcrChain.ProvidersForRequest | backend/internal/services/ocr_provider_chain.go:152-169 | the two loops put the requested engine first |
| OcrChain.ForRequestFacts | backend/internal/services/ocr_provider_chain.go:152-169 | all providers are kept once, a requested one is at the front, else the order is unchanged |
| OcrChain.KeptInOrder | backend/internal/services/ocr_provider_chain.go:152-169 | behind the requested engine the others stay in their configured order |
| OcrChain.ExtractWithFallback | backend/internal/services/ocr_provider_chain.go:264-424 | the first valid result within the budget, its place added to the retries, none called after it; the check at the loop head never fires |
| OcrChain.DeliveredNames | backend/internal/services/ocr_provider_chain.go:326-333 | provider and engine of a delivered result agree |
| OcrChain.ValidIff | backend/internal/services/ocr_provider_chain.go:426-440 | a document's result counts with a word or a page, an image's with a block |
| OcrChain.EngineTold | backend/internal/services/ocr_provider_chain.go:285-292 | only the first provider of an automatic request chooses its engine |

## Left out

- HTTP handlers, middleware, configuration, metrics, Postgres logging, the frontend, scripts: plumbing.
- Redis networking, expiry, several live workers and failing payload writes: outside the assumptions above.
- Image preprocessing, OCR engines, PDF rendering and overlay drawing: arbitrary functions or not modelled.
- Regular-expression parsing of OCR markup, degenerate-page detection and region classes: arbitrary functions.
- Error-string classification: an arbitrary predicate.
- The image-job branches of process, raw text in visual-diff mode, lifecycle events, warnings and file cleanup.
- Overflow of a back-off duration beyond 64 bits; language, resolution and timeout options of the OCR chain.
- Pipeline.Processor.TranslatePages: with a checkpoint store it needs a hash without collisions and chunks with keys of their own, which `CheckpointKeys.KeysSuffice` gives for pages without NUL or a minimum of one word; otherwise keys can collide. Without a store it needs neither.
- Reassembly.StoreDoesNotShow: compares runs over the same chunks; a slow batch changes the chunk sizes of the batches after it.
- Correction.ApplyLlmCorrection: not the latency, retry, character, rejection and confidence-delta statistics.
- CheckpointKeys.KeysDistinguishIff: a job's chunks are those of any rest of its units, where an attempt reaches only the rests that end a batch; the colliding pair are the first two chunks of a document.
- QueueProtocol.RunOnce: one undisturbed pass with no crash inside; the interleaving with other steps is covered by the protocol lemmas, not by this method.
- OcrChain.ExtractWithFallback: one method for the PDF and the image loop, which differ in the provider call and the validity test only.
- Chunking.ReduceRangeStep: exact arithmetic instead of the float product.
