# Verification of the resume-processing platform

This project models, in Dafny, the parts of the platform whose correctness does not show in any single
function, and proves what they promise.

- **Agent kernel (Go).** The single-flight service (`SingleFlight`, `SingleFlightRuns`) is a protocol over
  atomic steps: the regions under the mutex, with time as a number that does not decrease. The agent loop
  (`AgentLoop`) runs against an arbitrary model service (`ModelClient`) and the read-only tools (`Registry`,
  `Search`, `Lines`); its only exit with a result is the evidence gate (`Evidence`). `Protocol` holds the budgets.
- **Prompt versions and the model connection (Python).** `PromptStore` is the store with its actions, `PromptRuns`
  all interleavings of administrators, tests and connection changes, `PromptHarness` and `PromptContent` the content
  of prompts and the stored key.
- **Processing runs (Python).** `ProcessingRun` holds the row and its updates, `RunLifecycle` all interleavings of
  workers, `RunClaim` the claim and the loss of cancel requests.
- **Job import (Python).** `Departments` is the department tree, `JobFile` the file, `JobImport` what an import
  decides and leaves behind, `JobMigration` the legacy jobs, `JobStore` the table that is rewritten in place.
- **Event logs and aggregates (Python).** `Attempts` holds the assignment attempts and the actions that write their event
  logs, `HandlingTime` the two computations over one log, `AttemptRuns` what they give on every log that is written.
  `Archive` and `ArchiveNames` with `Decimal` (export archive), `UsageTrend`, `CandidateStatus` and `ResultReport`,
  `AnalyticsScope` and `Drilldown`.

Objects that the source updates in place are classes with specification functions; loops are loops. Properties over
whole runs are lemmas about sequences of states. Unicode tables, hashes, fingerprints, the check of a URL, the clock,
the replies of the model and the existence of files on disk are parameters. Tables are sequences of records, a record is
identified by its position, and a transaction with row locks is one step.

Where code and comment differ the code is followed: the limit on the resume text counts bytes although its message
speaks of characters (`agent-kernel/internal/protocol/contracts.go`, lines 117-118).

Some promises hold only under a condition, which is proved exact, with a concrete counterexample where the code breaks
it. The outcome counters of a finished run partition its total exactly if no item was closed by the shortcut for finished
workflows (`RunLifecycle.FinalisationResult`, `RunLifecycle.ShortcutBreaksPartition`). An accepted cancel request survives
the preparation of the fourth stage exactly if it was accepted before the check (`RunClaim.SaveErasesCancelIff`,
`RunClaim.CancelRequestCanBeLost`). Every row of a dashboard ranking counts the candidates found by drilling down, except
the row of candidates without school tags, which finds nobody (`Drilldown.RankingsDrillDown`). The school tag filter
misses candidates that the ranking lists under the tag of their first degree, in exactly one case
(`Drilldown.TagFilterAgreesIff`).

Dashboard and export report the same total exactly for the logs described by `HandlingTime.TotalsAgreeIff`, and
`HandlingTime.TotalsDifferAfterClosing` gives logs where they differ. No action of the platform writes such a log:
in every log that creation, review, dispatch, transfer, feedback and cancellation can write, in any order and with any
refusals, the two totals agree (`AttemptRuns.TotalsAgree`).

Until a run is finalised, its fourth stage lags behind the run by exactly the reports whose second statement is still to
come, because a worker updates the two rows one after the other (`RunLifecycle.StageFollowsRun`).

Assumptions about data, stated as preconditions: the department tree suits the imported file (looked-up names have the
expected level, and no row without primary department names the primary of another row as its secondary; without this
a second import of the same file can be refused, `JobImport.UnfitFileRepeatsKeys`); the clock that stamps events does not
run backwards, and logs are read in time order; workflows name resumes of their own candidate and attempts belong to the
candidate of their resume; ids are unique; the tags of a candidate are distinct and have names.

## Model

| member | source | states |
|---|---|---|
| `Evidence.GateIff` | agent-kernel/internal/tools/registry.go:150-162 | a quote passes the evidence gate if and only if it has at least four visible characters and some contiguous slice of the resume normalises to the same text |
| `Evidence.NormalFormsAgreeIff` | agent-kernel/internal/tools/registry.go:150-157 | two texts normalise alike if and only if they differ only in white space, anywhere, and in the case of other characters |
| `Evidence.GateIgnoresCaseAndSpace` | agent-kernel/internal/tools/registry.go:150-162 | changing case and white space of the resume and of the quote never changes the answer of the gate |
| `Evidence.SlicePreimage` | agent-kernel/internal/tools/registry.go:150-162 | every stretch of the normalised resume comes from a contiguous stretch of the resume itself |
| `Evidence.SliceContained` | agent-kernel/internal/tools/registry.go:150-162 | a slice of the resume passes the gate if and only if it has four visible characters |
| `Greedy.Unique` | agent-kernel/internal/tools/registry.go:173-187 | there is only one leftmost greedy choice of non-overlapping occurrences, so the scan cannot return another |
| `Greedy.Disjoint` | agent-kernel/internal/tools/registry.go:173-187 | reported offsets increase by at least the query length |
| `Greedy.Covered` | agent-kernel/internal/tools/registry.go:173-187 | when fewer than the limit are reported, every occurrence is reported or overlaps a reported one |
| `Search.SearchWindows` | agent-kernel/internal/tools/registry.go:164-189 | the search returns exactly the leftmost greedy occurrences, at most the limit, each with an in-bounds slice of the text around it |
| `Search.WindowPassesGate` | agent-kernel/internal/tools/registry.go:177-185 | every window with four visible characters passes the evidence gate |
| `Search.WindowsShowMatches` | agent-kernel/internal/tools/registry.go:164-189 | at every reported offset the text agrees with the query rune by rune whatever the case, and its window is the text from up to 80 runes before to 80 after |
| `Lines.JoinSplit` | agent-kernel/internal/tools/registry.go:74 | joining the split lines with newlines gives back the resume, and no line holds a newline |
| `Lines.NormalizeJoin` | agent-kernel/internal/tools/registry.go:74-84 | joining lines with any white space does not change what they normalise to |
| `Lines.LinesPassGate` | agent-kernel/internal/tools/registry.go:74-84 | every run of consecutive lines, joined with any white space, passes the gate once it has four visible characters |
| `Lines.PagingReadsEverything` | agent-kernel/internal/tools/registry.go:74-84 | following next_line with any page sizes returns every line once, in order, and none twice |
| `Registry.Execute` | agent-kernel/internal/tools/registry.go:39-123 | a tool call is rejected exactly for the stated reason, the first in the order of the checks, and otherwise answers from the resume as the tool promises |
| `Registry.ReadSections` | agent-kernel/internal/tools/registry.go:66-84 | the two argument errors are distinguished exactly, and an accepted call returns the clamped page of lines with its count |
| `Registry.VerifyQuotes` | agent-kernel/internal/tools/registry.go:101-119 | both rejections hold exactly when the argument or one of the quotes is unusable; otherwise every quote is judged by the gate, and all_verified is true exactly when each is verified |
| `ModelClient.Complete` | agent-kernel/internal/model/http_client.go:56-76 | the client stops at the first success, the first final error or the last attempt, whichever comes first, and reports that outcome with the number of requests and the time slept, a pause that is interrupted counting until the interruption |
| `ModelClient.PauseBound` | agent-kernel/internal/model/http_client.go:68 | the doubling pauses of one call add up to at most 250 * (2^retries - 1) milliseconds, reached when every attempt fails retryably |
| `Protocol.ValidateReportsFirst` | agent-kernel/internal/protocol/contracts.go:92-148 | the violation returned applies and is the first that applies in the order of the checks; none is returned if and only if none applies, so all limits on texts, budgets, retries and durations are met |
| `Protocol.Validate` | agent-kernel/internal/protocol/contracts.go:92-148 | an envelope without violation has the turn, tool and retry budgets that the agent loop relies on |
| `Protocol.AcceptedIff` | agent-kernel/internal/protocol/contracts.go:92-148 | an envelope passes if and only if its versions are the supported ones, every required text has a visible character, the checksum is 64 hexadecimal digits and every number is within its limit |
| `AgentLoop.VerifyFinalEvidence` | agent-kernel/internal/runtime/kernel.go:201-213 | the final gate passes exactly if all quotes of the decision and the specialist are verified and there is one unless archiving; each cause is returned exactly for its case |
| `AgentLoop.ToolAgreesWithGate` | agent-kernel/internal/runtime/kernel.go:201-213 | quotes that the verification tool confirmed can be used in a final answer that the gate accepts |
| `AgentLoop.AcceptableIff` | agent-kernel/internal/runtime/kernel.go:166-213 | what may leave the kernel, in terms of the resume: equal action and recommendation, one of the three actions, scores in [0,1], evidence unless archiving, and every quote with four visible characters matched by a slice of the resume |
| `AgentLoop.RunTools` | agent-kernel/internal/runtime/kernel.go:143-162 | every call is executed in order, and the trace gains exactly one entry for each |
| `AgentLoop.TakeTurn` | agent-kernel/internal/runtime/kernel.go:123-183 | one turn either returns, or adds one assistant and one user message and the tool calls of that turn to the trace |
| `AgentLoop.Run` | agent-kernel/internal/runtime/kernel.go:98-186 | for every sequence of replies the loop ends within its turns and tool calls; the messages are two opening messages and one exchange per tool turn; the trace lists exactly the executed calls and its token counts are the sums over the answered requests; a returned proposal has equal action and recommendation, scores in [0,1] and verified evidence, a failure has the first cause that applies to the last request or turn, and the turns are exhausted only when all are used; requests and pauses stay within the budget |
| `AgentLoop.Ceilings` | agent-kernel/internal/runtime/kernel.go:123-125 | for a validated envelope that is at most 48 requests and 62 seconds of pauses |
| `SingleFlight.Service.EvictLocked` | agent-kernel/internal/runtime/kernel.go:82-96 | eviction removes exactly the finished leases older than six hours, and only above a thousand leases |
| `SingleFlight.Service.Enter` | agent-kernel/internal/runtime/kernel.go:56-69 | a caller joins the lease of its key, or becomes the leader of a fresh one that eviction leaves in place |
| `SingleFlight.Service.Finish` | agent-kernel/internal/runtime/kernel.go:72-78 | the outcome is stored and the channel closed at once; a failure removes the entry of the key |
| `SingleFlight.Service.Admit` | agent-kernel/internal/runtime/kernel.go:45-69 | an invalid or mismatched request is refused before any lease is touched |
| `SingleFlightRuns.StepKeeps` | agent-kernel/internal/runtime/kernel.go:56-95 | the protocol invariant holds after every step of every caller |
| `SingleFlightRuns.OneRunPerKey` | agent-kernel/internal/runtime/kernel.go:56-78 | in every interleaving at most one run per key is in progress, and the map entry of the key is its lease |
| `SingleFlightRuns.RunningLeasesStay` | agent-kernel/internal/runtime/kernel.go:73-76 | no step of another caller takes away the entry of a running lease, and a failing leader removes its own and nothing else |
| `SingleFlightRuns.ResultsAreFinal` | agent-kernel/internal/runtime/kernel.go:72-78 | a published result never changes |
| `SingleFlightRuns.WaitersShareTheLeadersResult` | agent-kernel/internal/runtime/kernel.go:57-64 | a waiter that does not leave by its own context returns exactly what its leader returned |
| `SingleFlightRuns.SuccessesAreSixHoursApart` | agent-kernel/internal/runtime/kernel.go:82-95 | two successful runs of one key: the later lease was created more than six hours after the earlier |
| `SingleFlightRuns.FailuresAreNotReused` | agent-kernel/internal/runtime/kernel.go:74-76 | whoever joins a lease joins a running or a successful run, never a failed one |
| `SingleFlightRuns.NoWaiterIsStuck` | agent-kernel/internal/runtime/kernel.go:59-64 | a waiting caller can receive its result already, or a leader is still running its lease |
| `PromptHarness.NormalizeModules` | backend/apps/pipeline/ai/prompt_harness.py:109-141 | a set of modules is accepted exactly if it is complete and every text and the total fit after cleaning, and the result is the cleaned set |
| `PromptHarness.AcceptedIff` | backend/apps/pipeline/ai/prompt_harness.py:109-141 | a submission is accepted if and only if it holds the five texts and no others, each with 1 to 8000 characters after cleaning and at most 24000 together |
| `PromptHarness.NormalizeIsIdempotent` | backend/apps/pipeline/ai/prompt_harness.py:109-141 | a normalised set normalises to itself, so a stored prompt can always be saved again |
| `PromptStore.Service.SaveDraft` | backend/apps/pipeline/prompt_management.py:133-152 | a save is accepted exactly if the submission can be normalised and the lock value is current; then the draft holds the normalised submission and its digest, the lock is one higher, the test is gone and every other record is unchanged; a refused save changes nothing |
| `PromptStore.Service.ResetDraft` | backend/apps/pipeline/prompt_management.py:155-184 | under the same lock rule the draft holds the cleaned modules of the active record or of the defaults, and no other record changes |
| `PromptStore.Service.RestoreVersion` | backend/apps/pipeline/prompt_management.py:391-417 | under the same lock rule the draft holds the cleaned modules of the published version, and an unknown version is refused |
| `PromptStore.Service.RecordTest` | backend/apps/pipeline/prompt_management.py:306-331 | a test is recorded only if neither the content nor the tested connection changed meanwhile |
| `PromptStore.Service.ClearFailedTest` | backend/apps/pipeline/prompt_management.py:276-281 | a failed test clears the test of the record only if its content is still the tested one |
| `PromptStore.Service.PublishDraft` | backend/apps/pipeline/prompt_management.py:334-388 | publication needs the current lock value and a valid test; it archives the active record, releases the draft under the next sequence and opens a copy as new draft, and a refused one changes nothing |
| `PromptStore.Service.ClearSharedDraftTest` | backend/apps/pipeline/prompt_management.py:51-63 | exactly the test of the draft is cleared |
| `PromptStore.Service.SaveConnection` | backend/apps/pipeline/ai_config.py:203-237 | saving a connection keeps the stored key only for the same address, and clears the connection test and the test of the draft |
| `PromptStore.Service.InvalidateConnectionTest` | backend/apps/pipeline/ai_config.py:254-267 | the connection test, its mode and the test of the draft are cleared together |
| `PromptStore.Service.MarkConnectionTested` | backend/apps/pipeline/ai_config.py:270-297 | the fingerprint of the stored connection is recorded, and a change of mode clears the test of the draft |
| `PromptRuns.StepKeeps` | backend/apps/pipeline/prompt_management.py:133-184 | every action of every administrator keeps the layout of the store |
| `PromptRuns.OneDraftOneActive` | backend/apps/core/models.py:979-992 | every reachable store has exactly one draft and one active record, and every hash fits its modules |
| `PromptRuns.PublishedRecordsAreImmutable` | backend/apps/pipeline/prompt_management.py:334-388 | content, version, sequence and lock of a published record never change again |
| `PromptRuns.ReleasesAreOrdered` | backend/apps/pipeline/prompt_management.py:352-368 | release sequences are strictly increasing and versions unique |
| `PromptRuns.AcceptedWriteSawLatestContent` | backend/apps/pipeline/prompt_management.py:138-146 | a write accepted with lock value v means that the content of that draft did not change since v was read |
| `PromptRuns.AcceptedWriteStores` | backend/apps/pipeline/prompt_management.py:133-184 | in every run, after an accepted save, restore or reset the draft holds exactly the cleaned submission, the cleaned modules of that version, or the cleaned active or default ones, and nothing else changed |
| `PromptRuns.ContentOrigin` | backend/apps/pipeline/prompt_management.py:334-388 | in every run, a published or unpublished record holds what the last accepted write to it stored; without such a write it holds its initial content or that of the release before it |
| `PromptRuns.TestOrigin` | backend/apps/pipeline/prompt_management.py:306-330 | the test of a draft was recorded by some step, and since then neither the draft nor the connection test was touched |
| `PromptRuns.MarkOrigin` | backend/apps/pipeline/ai_config.py:270-297 | a stored connection fingerprint was stored by a successful test, and the connection did not change since |
| `PromptRuns.SessionOrigin` | backend/apps/pipeline/prompt_management.py:284-294 | what a running test has read was in the store at some earlier moment of the run, hash first and fingerprint later |
| `PromptRuns.PublicationIsBacked` | backend/apps/pipeline/prompt_management.py:66-81 | a successful publish is preceded, in order, by the last invalidation of the connection test, a successful connection test and a recorded test of the same draft for exactly the published hash, with no change of the draft in between |
| `PromptContent.HarnessIsIdempotent` | backend/apps/pipeline/ai/prompt_harness.py:109-141 | the cleaning used by the store meets what the store relies on |
| `PromptContent.StoredVersionsStayUsable` | backend/apps/pipeline/prompt_management.py:391-417 | restoring a version or resetting to the active prompt is refused only for a stale lock, in every run |
| `PromptContent.RestoringGivesBackTheVersion` | backend/apps/pipeline/prompt_management.py:391-417 | in every run an accepted restore of a version, or reset to the active prompt, leaves exactly the modules of that record in the draft |
| `PromptContent.KeyOrigin` | backend/apps/pipeline/ai_config.py:218-236 | a stored API key was submitted for the address it is stored under |
| `PromptContent.StoredKeyGoesToItsAddress` | backend/apps/pipeline/ai_config.py:403-415 | model discovery sends a stored key only to the address it was saved for |
| `ProcessingRun.Store.RecordOutcome` | backend/apps/pipeline/runner.py:267-312 | a fresh terminal outcome raises exactly its counters, once, on the run and then on the fourth stage, and only while the run is active; anything else changes nothing |
| `ProcessingRun.Store.CancelUnstarted` | backend/apps/pipeline/runner.py:322-352 | exactly the unstarted items become cancelled and are added to the counters, whatever the status of the run |
| `ProcessingRun.Store.FinalizeIfComplete` | backend/apps/pipeline/runner.py:355-408 | the run is closed exactly if every item is terminal, with counters recounted from the items |
| `ProcessingRun.Store.RequestCancellation` | backend/apps/pipeline/cancellation.py:29-56 | a request is accepted exactly for a pending, running, waiting or cancelling run; it records the cancel flag, cancels a pending run at once and marks any other as cancelling, and changes nothing else |
| `RunLifecycle.CountingStep` | backend/apps/pipeline/runner.py:267-352 | every step of every worker keeps the counters in agreement with the items |
| `RunLifecycle.StageFollowsRun` | backend/apps/pipeline/runner.py:305-312 | until finalisation the fourth stage and the reports whose second update is still to come make up, counter by counter, what the run counted since the stage was prepared; the stage equals it exactly if no report is underway |
| `RunLifecycle.CountersAgree` | backend/apps/pipeline/runner.py:226-312 | until finalisation processed_count equals chunk_done, the sum of the five outcome counters and the number of recorded items |
| `RunLifecycle.FinalisationResult` | backend/apps/pipeline/runner.py:355-408 | finalisation succeeds exactly if all items are terminal, ends cancelled exactly if a cancel request is recorded, sets total and processed to the number of items, and its counters partition the total if and only if no item was closed by the shortcut for finished workflows |
| `RunLifecycle.CancelledIffRequested` | backend/apps/pipeline/cancellation.py:29-56 | in every run, the finalised run is cancelled if and only if it started with the flag or a request was made before the finalisation |
| `RunLifecycle.FinalStatusFollowsItems` | backend/apps/pipeline/runner.py:388-408 | without a request the final status is partial failure exactly if an item failed, else needs attention exactly if an item does, else success |
| `RunLifecycle.ShortcutBreaksPartition` | backend/apps/pipeline/services/allocate.py:1219-1227 | a run of one item closed by that shortcut ends with one processed item and five zero counters |
| `RunLifecycle.RecountConfirmsCounters` | backend/apps/pipeline/runner.py:363-387 | if every outcome was recorded and no shortcut was taken, recounting confirms what the workers had added up |
| `RunLifecycle.FinalIsStable` | backend/apps/pipeline/runner.py:305-312 | after finalisation no step, not even a late update of the fourth stage, changes the status, the totals, the outcome counters or the outcome of an item |
| `RunClaim.RunRow.Claim` | backend/apps/pipeline/runner.py:467-492 | a worker passes exactly if the run is pending without a cancel request, and then the run is running |
| `RunClaim.ClaimPassesIff` | backend/apps/pipeline/runner.py:467-492 | in every interleaving a claim passes exactly if the row is pending and not asked to cancel, and a failed claim only ends a cancelling run |
| `RunClaim.OneWorkerPasses` | backend/apps/pipeline/runner.py:467-492 | for any number of workers and cancel requests at most one worker passes the claim |
| `RunClaim.CancelledPendingNeverStarts` | backend/apps/pipeline/cancellation.py:39-47 | a run cancelled while pending stays cancelled, and no worker ever passes |
| `RunClaim.SaveErasesCancelIff` | backend/apps/pipeline/runner.py:226-249 | the full save of a prepared stage erases an accepted cancel request if and only if it was accepted after the check |
| `RunClaim.EarlyRequestStopsWorker` | backend/apps/pipeline/cancellation.py:24-26 | a request accepted before the check stops the worker and stays recorded |
| `RunClaim.CancelRequestCanBeLost` | backend/apps/pipeline/runner.py:226-249 | a check, a request and a save in this order lose the request |
| `Departments.GetDepartmentFinds` | backend/apps/ingestion/sources.py:166-191 | asking for a path creates what is missing and nothing else; a path that exists is found unchanged |
| `Departments.GetDepartmentNames` | backend/apps/ingestion/sources.py:166-191 | in a tree that suits the file, the department found for a path carries exactly its names |
| `Departments.NamesSurviveGrowth` | backend/apps/core/departments.py:20-53 | adding departments does not change the path of any department |
| `Departments.SecondaryIff` | backend/apps/core/departments.py:20-53 | the second-level department of a department is itself or the parent of a third-level one, and only if it really has level two |
| `Departments.PrimaryIff` | backend/apps/core/departments.py:20-53 | the first-level department is the department itself or the parent of its second-level one, and only if it really has level one |
| `JobFile.ReadRows` | backend/apps/ingestion/sources.py:511-539 | a file is accepted exactly if every named row has a secondary department and no two named rows share a key, and its usable rows are returned; otherwise the first row without secondary department, or exactly the groups of rows that share a key, are reported |
| `JobFile.RepeatedKeys` | backend/apps/ingestion/sources.py:332-339 | exactly the groups of rows that share a key are reported |
| `JobFile.UsableKeysAreDistinct` | backend/apps/ingestion/sources.py:534-539 | leaving out rows keeps the keys of the rest distinct |
| `JobFile.UsableAreKept` | backend/apps/ingestion/sources.py:511-539 | the imported rows are all rows with a name and responsibilities, in the order of the file |
| `Wrappers.KeptInOrder` | backend/apps/ingestion/sources.py:534-539 | a kept row comes after exactly as many others as qualifying rows come before it in the file |
| `JobImport.CompletableIsUnique` | backend/apps/ingestion/sources.py:391-411 | at most one legacy job per legacy key can be completed, so the choice of a job to reuse is never ambiguous |
| `JobImport.SupersededIff` | backend/apps/ingestion/sources.py:391-414 | in terms of the fields of jobs and rows: a legacy job is retired if and only if some new row could complete it and no row of its legacy key is the only new one |
| `JobImport.TargetIff` | backend/apps/ingestion/sources.py:418-455 | in the same terms: a row goes to the job with its key, else to the legacy job that it alone can complete, else to a new job |
| `JobImport.TargetsAreDistinct` | backend/apps/ingestion/sources.py:448-470 | every row ends on its own job |
| `JobImport.KeysStayDistinct` | backend/apps/ingestion/sources.py:418-472 | after a synchronisation all jobs still have pairwise distinct keys |
| `JobImport.NothingNewIsSuperseded` | backend/apps/ingestion/sources.py:394-414 | what a second import would retire, the first has retired |
| `JobImport.ImportIsIdempotent` | backend/apps/ingestion/sources.py:418-472 | importing the same file twice leaves the same jobs, majors, states and departments as importing it once, in both modes, and the second import is never refused for repeated keys |
| `JobImport.UnfitFileRepeatsKeys` | backend/apps/ingestion/sources.py:166-181 | two rows with different keys, the one without primary department naming the primary of the other, leave two jobs that share a key, so the table is refused by the next import |
| `JobImport.ReplaceActivatesExactlyTheRows` | backend/apps/ingestion/sources.py:468-471 | replace mode leaves active exactly the jobs of the rows |
| `JobImport.IncrementalKeepsTheRest` | backend/apps/ingestion/sources.py:376-415 | an incremental import changes no job outside the file, except that superseded legacy jobs are retired |
| `JobMigration.SupersededByGroup` | backend/apps/ingestion/sources.py:394-414 | the branches for one legacy key retire exactly the superseded jobs |
| `JobMigration.ReuseByGroup` | backend/apps/ingestion/sources.py:401-411 | the branches for one legacy key reuse a job exactly if one row is unmatched and one job fits it |
| `JobStore.IndexKeys` | backend/apps/ingestion/sources.py:342-363 | the jobs are indexed by key in one pass, and exactly the jobs that share a key are reported |
| `JobStore.Table.ExistingJobs` | backend/apps/ingestion/sources.py:342-363 | fails exactly if two jobs share a key, with the ids of all of them |
| `JobStore.Table.MigrateGroup` | backend/apps/ingestion/sources.py:390-414 | for one legacy key exactly the superseded jobs are retired, and the reuse reported is the only one |
| `JobStore.Table.PrepareMigrations` | backend/apps/ingestion/sources.py:376-415 | over all legacy keys exactly the superseded jobs are retired, and the map says for every row which job it takes over, if any |
| `JobStore.Table.StoreRow` | backend/apps/ingestion/sources.py:426-460 | a row is written over the job found for it or as a new job: entity, both names, category, details and majors are those of the row, the job is active, and its department has the primary and secondary name of the path; no other job changes |
| `JobStore.Table.SyncJobs` | backend/apps/ingestion/sources.py:418-472 | every row is stored as its own active job with exactly its fields, majors and department path; every other job is kept but for superseded and replaced ones, the count returned is the number of rows; refused without change exactly if the table has repeated keys |
| `JobStore.Table.Import` | backend/apps/ingestion/sources.py:511-539 | the job part of an import is refused exactly for a missing secondary department, repeated keys in the file, or repeated keys in a table that rows are imported into; a refused or empty file changes nothing even in replace mode |
| `HandlingTime.BuildHandling` | backend/apps/api/analytics.py:400-458 | the dashboard's pass over the log yields the fold of its steps up to the closing event, and the age of the open segment; what the fold counts is stated from the stops alone in the next row |
| `HandlingTime.CountedSegments` | backend/apps/api/analytics.py:400-445 | for every log in time order, from the stops alone: a stop is counted, under its own department and with the time until the next stop, exactly if a manual transfer follows and it names a department; the segments come in order, and only a closing feedback adds the last stop |
| `HandlingTime.ProcessingValues` | backend/apps/api/resume_export.py:229-299 | the export's search of the log yields its first dispatch, last feedback, last entry and durations |
| `HandlingTime.ExportedDurations` | backend/apps/api/resume_export.py:267-298 | each exported duration is the difference of two exported times and is missing exactly if one is missing or they are out of order; the time in the department ends with the feedback, else now, unless cancelled |
| `HandlingTime.SegmentsFillTheSpan` | backend/apps/api/analytics.py:400-445 | the counted segments, automatic transfers, repeated dispatches and unowned time fill the span from the first stop to the feedback exactly |
| `HandlingTime.CountedPlusAutomaticIsTotalIff` | backend/apps/api/analytics.py:421-445 | counted and automatic segments make up the total if and only if no time was lost to a second dispatch or to stops without department |
| `HandlingTime.CountedPlusAutomaticIsTotal` | backend/apps/api/analytics.py:421-445 | for one dispatch, any transfers and a feedback they make up exactly feedback minus dispatch |
| `HandlingTime.DashboardAndExportAgree` | backend/apps/api/resume_export.py:267-298 | if the feedback ends the handling and the current department is the last destination, both computations give the same dispatch, hiring-team time and total, and the export's department time is the last dashboard segment |
| `HandlingTime.OpenSegmentsAgree` | backend/apps/api/analytics.py:450-458 | while the attempt is open both report the same age |
| `HandlingTime.TotalsAgreeIff` | backend/apps/api/resume_export.py:246-298 | exact condition for equal totals over all logs |
| `HandlingTime.TotalsDifferAfterClosing` | backend/apps/api/analytics.py:421-445 | after a dispatch, a feedback that follows a cancellation or another feedback at a later time makes the totals differ |
| `Attempts.Workflow.Create` | backend/apps/pipeline/services/allocate.py:580-678 | a new attempt with its log: one event, or three if it goes straight to a third-level department |
| `Attempts.Workflow.Confirm` | backend/apps/pipeline/services/allocate.py:2442-2456 | only an attempt under review is confirmed; anything else changes nothing |
| `Attempts.Workflow.Dispatch` | backend/apps/pipeline/services/allocate.py:2197-2221 | only an attempt waiting for dispatch is dispatched, to its current department |
| `Attempts.Workflow.Transfer` | backend/apps/pipeline/services/allocate.py:2259-2302 | only a dispatched attempt is transferred, to another department, and only if it still is where the caller saw it |
| `Attempts.Workflow.CancelUnfeedbacked` | backend/apps/pipeline/services/allocate.py:204-234 | exactly the attempts without feedback, of the wanted sources, are cancelled |
| `Attempts.Workflow.SubmitFeedback` | backend/apps/pipeline/services/allocate.py:2305-2437 | only a dispatched attempt without feedback is answered, and a positive answer cancels the other attempts without feedback |
| `Attempts.Workflow.Cancel` | backend/apps/pipeline/services/allocate.py:2458-2502 | only an attempt before its dispatch can be cancelled by hand |
| `AttemptRuns.StepKeeps` | backend/apps/pipeline/services/allocate.py:485-511 | every action keeps the log of every attempt in the form that its status promises: in time order, dispatched at most once, transferred up to the current department, and closed by its last event |
| `AttemptRuns.AnsweredAttemptsAgree` | backend/apps/api/resume_export.py:267-298 | in every run, an attempt with feedback has the same dispatch, hiring-team time and total in dashboard and export, none missing, its department time is the last segment, and counted plus automatic segments are the total |
| `AttemptRuns.DispatchedAttemptsAgree` | backend/apps/api/analytics.py:450-458 | in every run, both report the same age of an attempt that a department has |
| `AttemptRuns.TotalsAgree` | backend/apps/api/resume_export.py:246-298 | in every run both report the same total for every attempt, and there is one exactly if there was a feedback |
| `Decimal.DigitsAreInjective` | backend/apps/api/resume_export.py:570-573 | different suffixes are written differently |
| `Decimal.DigitsRoundTrip` | backend/apps/api/resume_export.py:570-573 | reading a written suffix gives the number back |
| `ArchiveNames.TakenNumbersAreBounded` | backend/apps/api/resume_export.py:566-573 | only as many numbered names are taken as names are used, so the search ends |
| `ArchiveNames.FreeName` | backend/apps/api/resume_export.py:557-573 | the name chosen is the first free one of the base name and the numbered names, for every set of used names |
| `ArchiveNames.NameFiles` | backend/apps/api/resume_export.py:554-575 | all stored files get pairwise distinct names, each the first free one after the files before it |
| `ArchiveNames.NameShapes` | backend/apps/api/resume_export.py:554-575 | a file keeps its name if no other has it; otherwise the application stands between stem and extension, followed by a number from 2 only if that name is taken |
| `Archive.LatestIsLast` | backend/apps/api/resume_export.py:515-519 | the record kept for a candidate is its last one |
| `Archive.LatestHasNoRepeats` | backend/apps/api/resume_export.py:515-519 | no candidate is kept twice |
| `Archive.LatestKeepsOrder` | backend/apps/api/resume_export.py:515-519 | records are kept in the order in which their candidates first appeared |
| `Archive.UniqueKeepsEachOnce` | backend/apps/api/resume_export.py:529-535 | every resume is taken exactly once |
| `Archive.UniqueKeepsFirst` | backend/apps/api/resume_export.py:529-535 | of several resumes with one id the first is taken, and the order is kept |
| `Archive.LastIsKept` | backend/apps/api/resume_export.py:515-519 | the last record of every candidate is kept, whatever came before it |
| `Archive.BaseNameIsLast` | backend/apps/api/resume_export.py:509-512 | the name on disk is what follows the last slash of the stored path |
| `Archive.DeduplicatedRecords` | backend/apps/api/resume_export.py:515-519 | the dictionary pass computes the kept records |
| `Archive.BuildArchive` | backend/apps/api/resume_export.py:527-579 | every distinct resume is stored or reported missing exactly once, stored plus missing is their number, and no two members of the archive share a name |
| `Archive.DistinctNamesAreKept` | backend/apps/api/resume_export.py:558-564 | files whose names differ keep their names |
| `UsageTrend.FloorIsStart` | backend/apps/api/usage_analytics.py:153-160 | rounding down gives the beginning of the hour, day or Monday week that a time lies in |
| `UsageTrend.NumberIsUnique` | backend/apps/api/usage_analytics.py:153-160 | buckets are contiguous and every time lies in exactly one |
| `UsageTrend.FillRows` | backend/apps/api/usage_analytics.py:181-204 | one row per bucket, contiguous, zero-filled, up to the first bucket that reaches the end |
| `UsageTrend.TrendRows` | backend/apps/api/usage_analytics.py:163-204 | the rows count the views of their buckets and cover the range |
| `UsageTrend.RowsAgree` | backend/apps/api/usage_analytics.py:163-204 | views of the rows add up; distinct sessions and users of a bucket are at most those of all buckets, which are at most the sum |
| `UsageTrend.RowsCountViews` | backend/apps/api/usage_analytics.py:163-204 | every row holds the number of views from the beginning of its bucket up to the next, and of their different sessions and signed users |
| `UsageTrend.SummaryCounts` | backend/apps/api/usage_analytics.py:207-235 | the summary holds the number of views in the range, not in the future and of the wanted page, and of their different sessions and signed users |
| `UsageTrend.BuildOverview` | backend/apps/api/usage_analytics.py:207-235 | the trend adds up to the summary: page views exactly, sessions and users between each bucket and the sum |
| `CandidateStatus.AttemptsAgreeIff` | backend/apps/api/result_report.py:89-97 | report and status look at the same attempt, except for a candidate without resumes whose workflow names none but has an attempt |
| `CandidateStatus.StatusMirrorsAttempt` | backend/apps/core/system_status.py:89-109 | for a candidate with a resume the status speaks of an attempt exactly if the report finds one, and it is the status of that attempt |
| `CandidateStatus.RawHasNoAttempts` | backend/apps/core/system_status.py:737-760 | an unprocessed candidate has no attempt, not even a cancelled one |
| `CandidateStatus.LatestEffective` | backend/apps/core/candidate_summary.py:67-78 | the attempt chosen is the latest of those not cancelled, and none exists if none is chosen |
| `CandidateStatus.CurrentResumeIs` | backend/apps/core/system_status.py:74-88 | the resume that the workflow names is current, else the first by rank, day and id |
| `CandidateStatus.LatestDecides` | backend/apps/core/system_status.py:91-106 | the last attempt of the current resume that is not cancelled decides the status |
| `CandidateStatus.NothingToDecide` | backend/apps/core/system_status.py:107-109 | without such an attempt exhausted headcount comes first, and a candidate is unprocessed exactly if there is no sign of earlier work |
| `ResultReport.Tally` | backend/apps/api/result_report.py:123-174 | the table has a row for exactly the groups that occur, with the counts of their entries, and a total of all entries; for every group and reason the listed number is the number of rejected entries of that group with that reason, and exactly the pairs with a positive number and a reason that is not empty are listed |
| `ResultReport.CellsCountEntries` | backend/apps/api/result_report.py:123-146 | every cell of a row is the size of a set of entries: those of the group, those of them with an attempt, those with the status |
| `ResultReport.ReasonsCountEntries` | backend/apps/api/result_report.py:167-174 | a reason is listed for a group if and only if it is not empty and some rejected entry of the group has it, with the size of the set of these entries |
| `ResultReport.GroupNames` | backend/apps/api/result_report.py:128-140 | the group of an entry is the pair of names of the first- and second-level department above the receiving one, with the labels for a missing one |
| `ResultReport.ColumnsAgree` | backend/apps/api/result_report.py:67-76 | imported is the sum of the eight status columns and allocated of the five with an attempt, in every row and the total; each total is the sum of its rows; coded rejections are at most the rejected column, all of it exactly if none lacks a code |
| `ResultReport.BuildReport` | backend/apps/api/result_report.py:112-174 | the same for the report over candidates, with one imported resume per candidate entry |
| `AnalyticsScope.FirstIsDetermined` | backend/apps/core/analytics_scope.py:111-134 | the first resume of a candidate depends only on which resumes it has, not on the order they are read in |
| `AnalyticsScope.EffectiveIs` | backend/apps/core/analytics_scope.py:107-138 | the effective resume is the current one, else the first imported in the range for the entity by rank, day and id, missing ones last |
| `AnalyticsScope.CurrentAttemptIs` | backend/apps/core/analytics_scope.py:145-178 | the current attempt is the last by number and id of those for the effective resume that are not cancelled |
| `AnalyticsScope.ScopedIff` | backend/apps/core/analytics_scope.py:78-202 | a resume is in scope if and only if it was imported in the range for the entity and its candidate satisfies every filter that is set |
| `AnalyticsScope.EffectiveIds` | backend/apps/core/analytics_scope.py:205-219 | the second computation of effective resumes takes the current resume or the first in scope |
| `AnalyticsScope.EffectiveResumesAgree` | backend/apps/core/analytics_scope.py:205-219 | for a candidate in scope it is the effective resume that the scope was decided by |
| `AnalyticsScope.AttemptIsOwn` | backend/apps/core/analytics_scope.py:142-186 | the current attempt of a candidate belongs to that candidate, if workflows name resumes of their own candidate |
| `Drilldown.DepartmentRanking` | backend/apps/api/analytics.py:140-208 | the rankings of departments of both levels group exactly the candidates of each row |
| `Drilldown.CodeRanking` | backend/apps/api/analytics.py:95-114 | the distributions of sources and rejection reasons group exactly the candidates of each code, and list no empty code |
| `Drilldown.RowsOfAttempt` | backend/apps/api/analytics.py:140-208 | the rows an attempt counts in: its source, the reason of a rejection, and the departments above it by level with the labels for missing ones; no row for an empty code |
| `Drilldown.JobRanking` | backend/apps/api/analytics.py:211-234 | the counter of jobs holds the number of effective resumes of each row |
| `Drilldown.TagRanking` | backend/apps/api/analytics.py:237-266 | the counter of school tags holds the number of occurrences of each tag, and of candidates without tags |
| `Drilldown.DrillDepartments` | backend/apps/core/analytics_scope.py:380-427 | drilling down on departments finds exactly the candidates with an attempt in a row that matches a pair |
| `Drilldown.DrillCodes` | backend/apps/core/analytics_scope.py:376-379 | drilling down on sources or rejection reasons finds exactly the candidates with an attempt of a wanted code |
| `Drilldown.DrillJobs` | backend/apps/core/analytics_scope.py:460-482 | drilling down on jobs finds exactly the candidates whose effective resume lies in a row that matches a pair |
| `Drilldown.DrillTags` | backend/apps/core/analytics_scope.py:483-505 | drilling down on school tags finds exactly the candidates with a tag that matches a pair |
| `Drilldown.FoundIff` | backend/apps/core/analytics_scope.py:299-304 | a candidate is found if and only if one of its rows has the key of a pair, and the label of that pair unless it is empty |
| `Drilldown.TagsFoundIff` | backend/apps/core/analytics_scope.py:483-505 | a candidate is found if and only if one of its tags has the id of a pair, and the name of that pair unless it is empty |
| `Drilldown.TagFilterAgreesIff` | backend/apps/core/analytics_scope.py:91-103 | the school tag filter selects a candidate exactly if the ranking lists it under the tag, if and only if the tag is not the first degree of a candidate without own tags whose highest degree has another one |
| `Drilldown.UntaggedAreCounted` | backend/apps/api/analytics.py:244-260 | the row of candidates without tags counts the candidates without own tags and degrees |
| `Drilldown.OccurrencesAreCandidatesIff` | backend/apps/api/analytics.py:211-266 | counting occurrences counts candidates exactly if none occurs twice in a row |
| `Drilldown.KeyTextIsInjective` | backend/apps/core/analytics_scope.py:299-304 | comparing keys as text confuses no two keys of a ranking |
| `Drilldown.CollectedIdsAreEffective` | backend/apps/core/analytics_scope.py:205-219 | the ids collected for drilling down are exactly the effective resumes of the candidates in scope |
| `Drilldown.TagRowsDrillDown` | backend/apps/api/analytics.py:237-266 | a listed row of school tags counts the candidates found by drilling down if and only if it is not the row of candidates without tags, for which nobody is found |
| `Drilldown.RankingsDrillDown` | backend/apps/core/analytics_scope.py:376-516 | for any tables and filters, every listed row of the rankings of sources, rejection reasons, departments, primary departments, jobs and school tags counts exactly the candidates found by drilling down on it, with that one exception |
| `Drilldown.StagesNest` | backend/apps/api/analytics.py:565-594 | passed lies within feedback within dispatched within allocated within the candidates in scope |
| `Drilldown.AtStageIff` | backend/apps/api/analytics.py:565-594 | the statuses of the attempts that make a candidate count at each stage |

## Left out

- HTTP, TLS, JSON encoding and decoding, request parsing, logging, panics and error texts.
- Deadlines and cancelled contexts: a model request that is interrupted is one of the possible replies; a waiter may
  leave at any moment.
- Registry.IntegerArg: integers are unbounded, so the conversion of huge JSON numbers to a machine integer is not modelled.
- Who changed a prompt and when, and the summary of a prompt test.
- PromptStore.Service.MarkConnectionTested: one atomic step; it does not claim that the stored connection is the one that
  the connection test contacted.
- PromptRuns.PublicationIsBacked: does not claim that the recorded test ran wholly under the recorded connection, because
  the code compares the connection only at the beginning and at the end of the test.
- Attempts.Workflow.Create: when an attempt may be created is decided elsewhere, so a run may create any; the follow-up
  attempt after a rejection is a step of its own. Permissions and the form of a request enter as one flag.
- Counters for review, dispatch and archive, the counters of the fourth stage after finalisation and the list of chunk
  errors: they follow decision rows and reason codes set elsewhere.
- Allocation, headcount, deduplication, the scheduler and the failure to enqueue a task: only the outcomes of items enter.
- The `entity` of departments that an import updates, departments of the third level, and the other tables of an import.
- JobStore.Table.SyncJobs: texts are trimmed and split into majors before they reach the model, and keys are compared by an
  arbitrary normalisation of their parts.
- Rounding to two decimals, averages, medians and percentiles of handling times, and the grouping of segments by department.
- The workbook of an export, the order in which the rows of a report are sorted, and rankings cut off after the first rows.
- UsageTrend.BuildOverview: a fixed offset from UTC; the ranking of pages and the cleanup schedule are not modelled.
- ResultReport.BuildReport: the detail sheet and the protection of cell texts are not modelled.
- Drilldown.RankingsDrillDown: the dimensions that use the same database expression on both sides (classified, archived,
  archive reason, education, AI recommendation and AI error) are not modelled.
- Encryption, OCR, OAuth, name transliteration, the frontend, deployment and backup.
