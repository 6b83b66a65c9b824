# Verified model of the knowledge-base service

A Dafny model of the parts of the service where many requests, workers and failures meet, and of the
algorithms around them. `dafny verify dfyconfig.toml` checks the whole project.

The model has four layers.

* **Document cleanup and the version registry.** `transactions.dfy` gives every `session_scope` block as a
  function from table values to a committed or aborted transaction (`app/db/session.py:126-153`).
  `protocol.dfy` interleaves those transactions with the moves of any number of workers: a worker looks at an
  event, acquires it, loads its context, runs handlers, records stages, writes audit records, reports failures
  or dies. A run is any sequence of steps, so every theorem over `Execute` or `At` holds for every schedule.
  `transaction_effects.dfy` says row by row what each transaction changes. `metadata_store.dfy` has the same
  transactions as methods that assign table fields, and `cleanup_worker.dfy` the stage loop as an imperative
  worker; the loop is shown to be a run of the protocol whatever the rest of the system does between its moves.
  `cleanup_interference.dfy` says what that can be for one event, and `cleanup_driver.dfy` is the background job
  that retries it.
* **Sessions, limiters, breaker, task stores.** Mutable dictionaries, queues and counters are classes; each
  method is proved against a step function, and the trace theorems are about those functions.
* **Collections.** `collection_server.dfy` is a vector database that records every state it has been in and
  whose calls may fail, before or after doing part of their work. The legacy rebuild and the migration script
  run against it.
* **Algorithms.** Filter printing and reading, base64url and credential texts, the Markdown splitter and
  merger, rank fusion, and filling the prompt within its budget.

Several results say that the code gives less than its names or comments suggest. Each comes with a condition
that holds if and only if the stronger property does, or with the run that breaks it.

* COMPLETED is not final when the audit write after the last commit fails: the failure handler reopens the
  event, and such an event never completes again (`CompletedIsLeftOnlyByALateFailure`, `AuditFailureReopens`,
  `ReopenedNeverCompletes`).
* The automatic chain of retries can be lost: when the audit record of a reported failure, or the read of the event
  after it, raises, or the queue allows fewer retries than the event has attempts, the event stays in RETRYING and
  no execution comes back to it (`AbandonedIff`, `LostAuditLosesTheChain`, `QueueCutsTheChain`).
* `attempts` stays within `max_attempts` exactly when no worker acquires an event that is already in
  DEAD_LETTER (`AttemptsStayWithinMaximum`, `AttemptsCanPassMaximum`).
* An upload of new content is refused exactly when its namesake has been rolled back to an older version or a
  deleted document still owns the hash, because `uq_document_kb_hash` has no exemption for deleted rows
  (`UploadAcceptedIff`, `RollbackRefusesAndMisleads`, `DeletedContentIsRefused`).
* Known content is answered with a version that holds it exactly when the active version has the content of the
  latest one; after a rollback by one version it never does (`KnownContentIsAnsweredWithItself`).
* An upload is attached to a document whose deletion has been requested, and is then deleted with it, because the
  registration queries look at deletion marks only (`LandsOnLeavingIff`, `AcceptedUploadIsDeleted`).
* The migration check decides equality of scopes exactly when no source scope contains a line break or a tab, or
  when the counts of the source rule out that any target passes (`CheckDecidesEqualityIff`, `WrongTargetPasses`).

Smaller ones: the two task stores agree exactly on traces that restart no finished node (`BackendsAgreeIff`);
the fixed-window limiter admits up to twice its limit in one window length, and does (`AtMostTwiceTheLimit`,
`TwiceTheLimitHappens`); the label in the prompt is the number of the citation exactly when no blank document
stands before it (`LabelIsCitationIff`); headings do not keep unsplit sections apart although the comment at
`node_document_split.py:203` says that merging stays within one parent title
(`UnsplitSectionsIgnoreHeadings`).

## Model

| member | source | states |
|---|---|---|
| CleanupTheorems.MutualExclusion | app/services/lifecycle.py:198-204 | in every reachable state at most one worker is between acquiring and releasing an event |
| CleanupTheorems.StagesAreAPrefix | app/db/lifecycle_repositories.py:201-218 | recorded stages are always a duplicate-free prefix of the fixed stage order |
| CleanupTheorems.RecordedStageNeverReruns | app/services/lifecycle.py:212-222 | once a stage is recorded, no later step of any worker calls its handler for that event |
| CleanupTheorems.LeavingActiveIsFinal | app/db/lifecycle_repositories.py:349-350 | a document that left ACTIVE never returns, and activating any of its versions afterwards changes nothing |
| CleanupTheorems.RepeatedRequestsShareOneEvent | app/db/lifecycle_repositories.py:30-73 | a repeated request finds the one existing event of the document and changes nothing |
| CleanupTheorems.StepAges | app/db/lifecycle_repositories.py:254-305 | no step removes a document, an event, a recorded stage or a handler success, or makes a document ACTIVE again |
| CleanupInvariants.StepKeepsCleanup | app/db/lifecycle_repositories.py:113-136 | the inductive invariant behind these theorems: event rows, worker snapshots and positions, exclusivity and earned stages survive every step |
| CleanupTheorems.RunsKeepCleanup | app/db/session.py:126-153 | the invariant holds after every prefix of every run |
| CleanupCoupling.StatusesStayCoupled | app/db/lifecycle_repositories.py:221-251 | if the audit record of a committed last stage is always written, event and document status stay coupled over all runs |
| CleanupCoupling.StepKeepsCoupling | app/db/lifecycle_repositories.py:308-332 | the coupling of every event with its document survives every step but a failing audit after the final commit |
| CleanupCoupling.CompletionIsEarned | app/services/lifecycle.py:218-222 | a COMPLETED event has had every external handler succeed since it was created, and none before, audits or not |
| CleanupCoupling.CompletedIsLeftOnlyByALateFailure | app/services/lifecycle.py:223-232 | a step leaves COMPLETED if and only if it is the committed failure report of the worker that holds the event with an exception in hand |
| CleanupCoupling.CompletedIsTerminal | app/db/lifecycle_repositories.py:254-305 | COMPLETED is terminal in every run whose final audit records are written |
| CleanupLimits.AttemptsStayWithinMaximum | app/db/lifecycle_repositories.py:113-136 | attempts never pass the maximum in a run if and only if no acquisition hits a DEAD_LETTER event |
| CleanupLimits.AttemptsCanPassMaximum | app/services/lifecycle.py:195-201 | a run of two workers and one failing handler in which attempts pass the maximum |
| CleanupLimits.AuditFailureReopens | app/services/lifecycle.py:223-232 | a run in which a failing audit write reopens a completed event |
| CleanupLimits.ReopenedNeverCompletes | app/services/lifecycle.py:212-216 | an event reopened after its last stage never completes in any continuation |
| MetadataStore.Store.RequestDocumentDeletion | app/db/lifecycle_repositories.py:30-73 | commits exactly the request transaction and returns the document's deletion event |
| MetadataStore.Store.MarkCleanupStarted | app/db/lifecycle_repositories.py:113-136 | commits exactly the acquisition, or refuses it, or reports a missing event |
| MetadataStore.Store.RecordCleanupStage | app/db/lifecycle_repositories.py:201-218 | appends the stage once and changes nothing else |
| MetadataStore.Store.MarkCleanupFailure | app/db/lifecycle_repositories.py:221-251 | RETRYING with the next retry time or DEAD_LETTER, and the document CLEANUP_FAILED |
| MetadataStore.Store.FinalizeDocumentDeletion | app/db/lifecycle_repositories.py:254-305 | document DELETED, all versions off and event COMPLETED in one commit, or nothing |
| MetadataStore.Store.RetryCleanupEvent | app/db/lifecycle_repositories.py:308-332 | resets a failed event, with fresh attempts only after DEAD_LETTER, and leaves the others alone |
| MetadataStore.Store.ActivateDocumentVersion | app/db/lifecycle_repositories.py:335-388 | makes an existing version of an ACTIVE document the only active and current one |
| MetadataStore.Store.RegisterUpload | app/db/repositories.py:224-319 | reuses equal content, else adds the next version of the latest live namesake, else a document; a unique constraint aborts with no change |
| MetadataStore.Store.SoftDeleteBase | app/db/repositories.py:203-221 | once, marks the knowledge base and exactly the documents in it deleted, and touches no other row or column |
| TransactionEffects.BaseDeletionIsExact | app/db/repositories.py:203-221 | afterwards a base or document is marked deleted if and only if it was before, or is that base, or belongs to it; every other column, row and table is as before |
| TransactionEffects.DocumentDeletionIsExact | app/db/repositories.py:505-512 | the one document is marked deleted and nothing else changes |
| TransactionEffects.ActivationIsExact | app/db/lifecycle_repositories.py:335-388 | when it is accepted, and that then exactly this version of the document is active and current and no other document, version or column changes |
| TransactionEffects.RegistrationIsExact | app/db/repositories.py:224-319 | an accepted upload changes nothing, adds one active version to the live namesake, or adds one document, as its answer says; nothing else changes |
| TransactionEffects.RequestIsExact | app/db/lifecycle_repositories.py:30-73 | commits exactly for a document of the tenant; a first request sets it to DELETING and adds one PENDING event with a full budget, a repeated one changes nothing; nothing else changes |
| TransactionEffects.AcquisitionIsExact | app/db/lifecycle_repositories.py:113-136 | an acquired event is PROCESSING with one attempt more and no error or retry time, and a document in CLEANUP_FAILED becomes RETRYING; nothing else changes |
| TransactionEffects.RecordingIsExact | app/db/lifecycle_repositories.py:201-218 | the stage is among the recorded ones afterwards, once, and nothing else changes |
| TransactionEffects.FailureIsExact | app/db/lifecycle_repositories.py:221-251 | keeps the error, sets the document to CLEANUP_FAILED, and the event to RETRYING with a time not in the past while attempts are left, else to DEAD_LETTER; nothing else changes |
| TransactionEffects.RetryIsExact | app/db/lifecycle_repositories.py:308-332 | a failed event becomes PENDING, with attempts back to 0 only after DEAD_LETTER, and its document RETRYING; nothing else changes |
| TransactionEffects.FinalizationIsExact | app/db/lifecycle_repositories.py:254-305 | the document is DELETED and marked deleted, exactly its versions are off, and its event is COMPLETED with the last stage; nothing else changes |
| TransactionEffects.OnlyTheTenantsEvents | app/db/lifecycle_repositories.py:113-122 | the transactions on an event commit exactly for events of the calling tenant; to others they are missing |
| CleanupInterference.BystanderRun | app/db/lifecycle_repositories.py:308-332 | while no other worker turns to an event, everybody else together can do only one thing to its row: a manual retry resets it when it has failed |
| CleanupInterference.HeldRowIsOwn | app/services/lifecycle.py:198-241 | while a worker holds an event and no other one looks at it, no step of anybody else changes its row |
| CleanupWorker.Cluster.ProcessCleanupEvent | app/services/lifecycle.py:189-242 | each call is a run of the protocol under any interference and ends idle, with all four stages recorded when it ends normally; with no other worker turning to a waiting event, the failures of the reads, commits, handlers and audits decide how it ends: which exception the caller gets, and attempts, status and recorded stages of the event |
| CleanupWorker.Cluster.VisitStage | app/services/lifecycle.py:214-241 | one turn of the stage loop is a run of the protocol: skip, or handler, record and audit, or the failure report; it fails exactly when an unrecorded stage has a failing handler, commit or audit, and with no other worker turning to the event the row it leaves is known |
| CleanupDriver.RunTask | app/worker/tasks.py:45-63 | one execution of the job for a waiting event that no other worker has or looks at, whatever fails: it asks for a retry exactly when a stage failed, the report and its audit record were written with attempts left, and the event read back still says RETRYING; then countdown and stored retry time are both the capped exponential delay; the status it leaves is `StatusAfter` |
| CleanupDriver.AbandonedIff | app/worker/tasks.py:53-63 | an execution leaves the event in RETRYING with no further one to come exactly when the look or the acquisition of a RETRYING event raised, or the report was committed with attempts left and then its audit record or the read-back raised or the queue refused the retry |
| CleanupDriver.FairEnds | app/services/lifecycle.py:217-241 | when only handlers, stage commits and earlier success audits fail, an execution asks for another one, with a stage left to do, or ends in COMPLETED, DEAD_LETTER, or PENDING after a manual retry |
| CleanupDriver.DriveCleanup | app/worker/tasks.py:44-63 | the chain of retries of one driver ends within the attempts left and the retries the queue allows, whatever fails; all countdowns equal the stored delays, the first one of a fresh event is min(base, cap) and each next one min(cap, twice the one before); it ends in RETRYING only as `AbandonedIff` says, and when nothing fails but stages in COMPLETED, DEAD_LETTER, or PENDING after a manual retry, unless the queue refuses a retry while attempts are left |
| CleanupAbandonment.LostAuditLosesTheChain | app/services/lifecycle.py:223-240 | a reachable event and a world with one failing handler and one lost failure audit that leaves the event in RETRYING with attempts left and no further execution |
| CleanupAbandonment.QueueCutsTheChain | app/worker/tasks.py:56-62 | with the default of five attempts and a queue that allows three retries, the fourth failure leaves the event in RETRYING with an attempt left and no further execution |
| CleanupDriver.DelaysGrowWithinBounds | app/db/lifecycle_repositories.py:237-246 | delays are nondecreasing and lie between min(base, cap) and cap |
| CleanupDriver.TotalDelayIsBounded | app/worker/tasks.py:56-61 | n delays of a fresh chain total at most n caps and at most base times (2^n - 1) |
| CleanupDriver.ChainDoubles | app/db/lifecycle_repositories.py:237-246 | the delays of a chain start at min(base, cap) for a fresh event and double up to the cap |
| CleanupDriver.TotalIsGeometricIff | app/worker/tasks.py:56-61 | n delays that start at min(base, cap) and double up to the cap total base times (2^n - 1) if and only if none was capped |
| VersionRegistry.RegisterKeepsRegistry | app/db/repositories.py:224-319 | registering keeps versions 1..n with exactly one active and current, live namesakes unique, hashes unique, whether it commits or aborts |
| VersionRegistry.ActivateKeepsRegistry | app/db/lifecycle_repositories.py:335-388 | so does activating a version |
| VersionRegistry.RetiringKeepsRegistry | app/db/repositories.py:505-512 | so does every transaction that at most deletes documents and switches versions of deleted documents off |
| RegistryTheorems.RunsKeepRegistry | app/db/models.py:158-230 | the registry invariant holds after every run of the protocol |
| RegistryTheorems.UploadAcceptedIff | app/db/repositories.py:224-319 | every upload to a live base is accepted, except new content that a deleted document of the base still owns, or that would be the next version of a rolled-back namesake |
| RegistryTheorems.NewVersionAcceptedIff | app/db/repositories.py:251-288 | a changed file becomes version n+1 if and only if its namesake is not rolled back and no other row owns the hash |
| RegistryTheorems.LandsOnLeavingIff | app/db/repositories.py:233-258 | an accepted upload lands on a document that has left ACTIVE if and only if the live document with its content or, without one, its live namesake has left ACTIVE |
| RegistryTheorems.SameContentIsReused | app/db/repositories.py:233-249 | equal content is answered with the one existing document and its current version, whose row is always there |
| VersionContents.KnownContentIsAnsweredWithItself | app/db/repositories.py:233-249 | the version returned for known content carries the uploaded hash if and only if it holds the content of the latest version: always when the document is not rolled back, never when it is rolled back by one version |
| VersionContents.RunsKeepContents | app/db/repositories.py:259-288 | after every run the latest version carries the content hash of its document and neighbouring versions differ |
| RegistryLimits.RollbackRefusesAndMisleads | app/db/repositories.py:233-288 | a run of two uploads and a rollback after which a changed upload is refused, and the second content is answered with the version holding the first |
| RegistryLimits.RolledBackToTheSameContent | app/db/repositories.py:233-249 | a run whose third upload repeats the first content: rolled back to version 1, that content is still answered with itself |
| RegistryLimits.DeletedContentIsRefused | app/db/models.py:160-162 | a run of one upload and its deletion after which the same file is refused although no document has its name |
| RegistryLimits.AcceptedUploadIsDeleted | app/db/repositories.py:251-288 | a run in which an upload after a deletion request is accepted as version 2 and then deleted by the cleanup |
| RegistryTheorems.BackfillMeetsIndexIff | alembic/versions/d4e5f6a7b8c9_add_lifecycle_outbox.py:44-63 | the backfilled table meets the one-active-version index if and only if no document has two rows with its current number |
| SessionStore.PurgingIsInvisible | app/core/oidc_session.py:109-145 | with a clock that never goes back, lazy purging answers every call as a map that merely lets entries expire |
| SessionStore.StoreIsBounded | app/core/oidc_session.py:115-118 | the store never holds more than 10,000 entries |
| SessionStore.FoundIff | app/core/oidc_session.py:109-133 | on any trace a read finds a value if and only if the last put, consumption or deletion of the key put that value and its time is not over |
| SessionStore.FullIff | app/core/oidc_session.py:115-118 | a put is refused if and only if ten thousand entries are alive |
| SessionStore.MemoryStore.Put | app/core/oidc_session.py:109-118 | purges, refuses at capacity, else stores with its expiry |
| SessionStore.MemoryStore.Get | app/core/oidc_session.py:120-133 | purges, answers the live entry and removes it when consuming |
| SessionStore.MemoryStore.PurgeMemory | app/core/oidc_session.py:142-145 | exactly the entries still alive remain |
| LoginProtocol.KeysAreDistinct | app/core/oidc_session.py:104-107 | keys of different kinds or identifiers differ, whatever colons the identifier contains |
| LoginProtocol.SessionManager.ConsumeLoginTransaction | app/core/oidc_session.py:165-175 | removes the live transaction of the state and returns it only if it was made for that state |
| LoginProtocol.ConsumeIsExact | app/core/oidc_session.py:165-175 | a state is redeemed if and only if a transaction for it is stored and alive; that one is returned and gone afterwards |
| LoginProtocol.CallbackRedeemsIff | app/api/auth_router.py:102-109 | a callback reaches the store only with a code, without an error and with the state of its cookie; it redeems that state if and only if moreover a live transaction is stored for it |
| LoginProtocol.OpenedSessionIsFound | app/core/oidc_session.py:187-205 | an opened session is found as it was stored until its time is over, and not after |
| LoginProtocol.CallbackGetsItsLogin | app/api/auth_router.py:102-145 | over any interleaving a callback gets the transaction that a login made for its state, nonce and verifier included, before its time is over |
| LoginProtocol.RunsKeepOnePlace | app/api/auth_router.py:69-151 | a login state is stored, held by one callback or spent on one session, never two of these |
| LoginProtocol.OneSessionPerLogin | app/api/auth_router.py:102-145 | over any interleaving one login transaction yields at most one browser session, and only an issued state yields one |
| SlidingWindow.PruningDecidesAsCounting | app/core/middleware.py:139-153 | the pruned queues decide every request of every trace as counting the full log would |
| SlidingWindow.EverySpanHoldsAtMostLimit | app/core/middleware.py:139-153 | of the calls of one client in any span of one window the middleware lets at most the limit through |
| SlidingWindow.RequestWindows.MemoryLimited | app/core/middleware.py:139-153 | the method makes exactly that decision and shows each client its pruned queue, also when empty queues are dropped |
| SlidingWindow.ApplyApiRateLimit | app/utils/rate_limit_utils.py:20-39 | sleeps exactly when the window is full, exactly until the oldest kept request leaves it, and records the time |
| SlidingWindow.WaitingDecidesAsCounting | app/utils/rate_limit_utils.py:20-39 | at every call of a trace the pruned deque is as long as the full log has times in the window, so a call sleeps exactly when the window is full |
| SlidingWindow.WaitingKeepsEverySpan | app/utils/rate_limit_utils.py:7-40 | every call is recorded and every span of one window holds at most the limit |
| FixedWindow.RefusedExactlyBeyondLimit | app/core/middleware.py:84-113 | a request is refused exactly beyond the limit of its clock window; the expiry of window + 1 never resets a counter early |
| FixedWindow.AdmittedIsTotalUpToLimit | app/core/middleware.py:100-113 | the admitted requests of a clock window are the smaller of its requests and the limit |
| FixedWindow.CountersExpire | app/core/middleware.py:84-113 | every counter expires window + 1 seconds after a request that it counts |
| FixedWindow.AtMostTwiceTheLimit | app/core/middleware.py:100-113 | any span of one window length admits at most twice the limit |
| FixedWindow.TwiceTheLimitHappens | app/core/middleware.py:100-113 | two calls that reach this bound |
| ModelGateway.OpenIffThresholdReached | app/lm/lm_utils.py:84-107 | in every reachable breaker state a circuit is open exactly when its failures reach the threshold |
| ModelGateway.RefusedIff | app/lm/lm_utils.py:84-107 | a call is refused if and only if the failures have reached the threshold and the last one is younger than the reset time |
| ModelGateway.CircuitCycle | app/lm/lm_utils.py:84-107 | after a success, failures in a row are counted; calls are refused from the threshold on until the last failure is as old as the reset time, and the next call finds the circuit as new |
| ModelGateway.TurnsAreEvents | app/lm/lm_utils.py:147-167 | a turn of a model takes its circuit to the state reached by the check and the recorded outcome, so what holds of reachable circuits holds of those of a gateway |
| ModelGateway.AnsweringForgives | app/lm/lm_utils.py:84-107 | a model that answered is let through at any later time with no failure counted |
| ModelGateway.FewFailuresPerReset | app/lm/lm_utils.py:84-107 | in a success-free run of sequential calls a span shorter than the reset time holds at most threshold failures |
| ModelGateway.AcceptedChains | app/lm/lm_utils.py:136-145 | a chain is accepted exactly when all its names are allowed; it starts with the primary model and names each once, in the order configured |
| ModelGateway.Gateway.Invoke | app/lm/lm_utils.py:147-167 | the answer is that of the first model its circuit admits and that answers; it fails exactly when there is none; each circuit up to it had its turn and no other |
| TaskStore.RedisListsAreCleanAndDisjoint | app/utils/task_store.py:118-135 | the Redis lists never repeat a node and never share one |
| TaskStore.MemoryListsAreClean | app/utils/task_store.py:75-86 | the memory lists never repeat a node and the done list holds exactly the reported nodes |
| TaskStore.MemoryRunningIff | app/utils/task_store.py:75-86 | a node is listed as running if and only if it was started and not reported done since |
| TaskStore.MemoryDoneGrows | app/utils/task_store.py:81-86 | done nodes stay listed in the order of their first reports |
| TaskStore.RedisListsIff | app/utils/task_store.py:118-135 | in Redis running nodes are those started and not done since, done nodes those done and not started since |
| TaskStore.BackendsAgreeIff | app/utils/task_store.py:150-176 | both stores show equal lists throughout a trace if and only if it restarts no finished node |
| TaskStore.MemoryTaskStore.AddDone | app/utils/task_store.py:81-86 | changes exactly the lists of one task |
| TaskStore.RedisTaskStore.AddDone | app/utils/task_store.py:164-176 | changes exactly the lists of one task |
| CollectionServer.ReadAll | app/clients/milvus_utils.py:48-67 | the batches put together are the rows of the collection, in order |
| LegacyRebuild.RebuildLegacyCollection | app/clients/milvus_utils.py:91-176 | in every intermediate state the original rows exist under one of the two names, whichever call fails before or after taking effect; success leaves the backup and a row-by-row copy with only missing fields added; a handled failure restores the name; the undo is left unfinished exactly when the rename took effect and raised, or the copy and then a call of the undo failed |
| LegacyRebuild.CopyRows | app/clients/milvus_utils.py:151-161 | the batches copy every row once, in order, if and only if no insert fails, and the backup is never touched |
| LegacyRebuild.FillIn | app/clients/milvus_utils.py:153-158 | a copied row keeps all its own values, loses only the generated key and gains only missing metadata |
| LegacyRebuild.CopiesAreRebuilt | app/clients/milvus_utils.py:69-88 | each missing field of a copied row gets its legacy value: default tenant and base, active, private, version 1, names and hash from the row, position as chunk index |
| LegacyRebuild.Restore | app/clients/milvus_utils.py:163-168 | undoing a half-finished copy gives the rows their name back if and only if none of its own calls fails; the rows stay under one of the two names in any case |
| ScopeMigration.CleanCheckIsEquality | scripts/migrate_milvus_v2.py:257-277 | for clean scopes, passing the check means that the target holds exactly the scopes of the source |
| ScopeMigration.CheckDecidesEqualityIff | scripts/migrate_milvus_v2.py:257-277 | the check decides equality if and only if all source scopes are clean, or the source is one that no target passes: a scope is unnamed or two scopes with the same flattened form have different counts |
| ScopeMigration.PassesIffCountable | scripts/migrate_milvus_v2.py:257-277 | some target passes the check if and only if all source scopes are named and those with the same flattened form have equal counts |
| ScopeMigration.WrongTargetPasses | scripts/migrate_milvus_v2.py:257-277 | a source with line breaks in its scopes and a target with other scopes that passes |
| ScopeMigration.QueryCountsScope | scripts/migrate_milvus_v2.py:73-88 | a scope filter counts exactly the target rows of the flattened scope |
| ScopeMigration.Verify | scripts/migrate_milvus_v2.py:257-277 | succeeds exactly when totals and all expected scope counts agree |
| ScopeMigration.InsertAll | scripts/migrate_milvus_v2.py:252-254 | the batches insert every row exactly once, in order |
| ScopeMigration.Migrate | scripts/migrate_milvus_v2.py:179-288 | the alias moves only after the check passed, also when the alias call itself fails; the source never changes; row i of a target made by this run is source row i with the fields `NormalizingKeepsRow` says; when all source rows name their scope in text, the target has the scopes of the source |
| ScopeMigration.NormalizingKeepsRow | scripts/migrate_milvus_v2.py:140-170 | a normalised row keeps every other own field, keeps a non-empty tenant, base, document, version, task, title and item, gives an empty one its default, fills four gaps and adds nothing else |
| ScopeMigration.ScopesArePreserved | scripts/migrate_milvus_v2.py:151-156 | rows that name tenant and base in text keep their scopes, in order |
| FilterText.ChainIsPerCharacter | app/utils/milvus_utils.py:4-38 | the chained replacements are one rewriting per character |
| FilterReader.FilterRoundTrip | app/utils/milvus_utils.py:4-82 | reading a printed filter by the quoting rules gives back its conditions, values changed only in line breaks and tabs |
| FilterReader.ScopeFilterSelects | app/utils/milvus_utils.py:55-82 | a printed scope filter selects exactly the rows of its tenant, knowledge base, document and item |
| FilterReader.ChunkFilterSelects | app/utils/milvus_utils.py:41-52 | a printed chunk filter selects the active rows of its scope named by one of the non-blank items |
| FilterExpression.NoComplaintIff | app/utils/milvus_utils.py:55-82 | arguments are accepted if and only if tenant and base are given and nothing given is blank |
| FilterExpression.KnownConditions | app/utils/milvus_utils.py:55-82 | the text of an equality and of the active flag |
| FilterExpression.KnownFilter | app/utils/milvus_utils.py:55-82 | two conditions are joined by the conjunction |
| FilterExpression.KnownList | app/utils/milvus_utils.py:41-52 | the text of a list condition |
| FilterExpression.BuildScopeFilter | app/utils/milvus_utils.py:55-82 | the builder prints exactly the asked conditions or reports the first blank argument |
| FilterExpression.BuildChunkFilter | app/utils/milvus_utils.py:41-52 | the builder prints the scope conditions and the non-blank item names |
| HeadingSplit.CutAllCutsAtHeadings | app/import_process/agent/nodes/node_document_split.py:366-427 | the lines are cut exactly at the marked headings: every section but the first starts at one, and none has another inside |
| HeadingSplit.SplitIsExact | app/import_process/agent/nodes/node_document_split.py:348-427 | told by the lines alone: a section other than the first starts at a line if and only if it looks like a heading, is no fence and has an even number of fences before it; each section is its lines up to the next start under its stripped heading; without such a line the document is one section |
| HeadingSplit.HeadingPatternIff | app/import_process/agent/nodes/node_document_split.py:383 | a line looks like a heading if and only if the regular expression matches: white space, one to six hashes, white space, something |
| HeadingSplit.FenceIff | app/import_process/agent/nodes/node_document_split.py:405-408 | a line is a fence if and only if three backticks or tildes follow its leading white space |
| MarkdownText.LinesHoldNoBreak | app/import_process/agent/nodes/node_document_split.py:386 | no line holds a line break, so with the lines joining to the text it is cut at every one |
| HeadingSplit.SplitByTitles | app/import_process/agent/nodes/node_document_split.py:366-427 | the loop computes that cut, its titles and the number of headings |
| HeadingSplit.SplitKeepsText | app/import_process/agent/nodes/node_document_split.py:348-427 | the joined sections are the input with only recognised headings trimmed |
| HeadingSplit.SectionCount | app/import_process/agent/nodes/node_document_split.py:348-427 | one section per heading, one more exactly when the first line is no heading, and one when there is none |
| HeadingSplit.SplitDocument | app/import_process/agent/nodes/node_document_split.py:348-363 | the method does both steps, with the no-heading fallback that keeps the whole text; `SplitIsExact` says what comes out |
| SectionMerge.MergeFoldsRuns | app/import_process/agent/nodes/node_document_split.py:200-250 | the merge partitions its input into consecutive runs of equal parent title, each going on for as long as it may |
| SectionMerge.FoldedContent | app/import_process/agent/nodes/node_document_split.py:227-238 | a merged chunk has the first chunk's titles and all the contents in order |
| SectionMerge.FoldedPart | app/import_process/agent/nodes/node_document_split.py:227-238 | a merged chunk has the part number of the last of its chunks that has one |
| SectionMerge.BodyLosesOnlyTitle | app/import_process/agent/nodes/node_document_split.py:229-233 | a merged chunk loses only a repeated parent title and the white space after it |
| SectionMerge.MergedLength | app/import_process/agent/nodes/node_document_split.py:222-235 | no merged chunk is longer than the longest input plus 501 |
| SectionMerge.MergedIsSettled | app/import_process/agent/nodes/node_document_split.py:222-246 | no neighbouring pair of the result could still be merged |
| SectionMerge.MergeIsIdempotent | app/import_process/agent/nodes/node_document_split.py:200-250 | merging twice is merging once, and a list is unchanged exactly when it is settled |
| SectionMerge.UnsplitSectionsIgnoreHeadings | app/import_process/agent/nodes/node_document_split.py:222-227 | a list of unsplit sections is left as it is if and only if all but the last have 500 characters, whatever their headings; merging them loses no text |
| ChunkRefinement.MergeShortSections | app/import_process/agent/nodes/node_document_split.py:200-250 | the loop computes that merge |
| ChunkRefinement.LongBodyKeepsText | app/import_process/agent/nodes/node_document_split.py:277-280 | before cutting, a section loses exactly the one copy of its title that stands at its start, if any, and white space around it |
| ChunkRefinement.SplitFits | app/import_process/agent/nodes/node_document_split.py:252-310 | with pieces that fit, cutting leaves a chunk over 2000 characters exactly when the section was too long and its title leaves no room |
| ChunkRefinement.OnlyLongSectionsAreCut | app/import_process/agent/nodes/node_document_split.py:252-344 | a document of sections up to 2000 characters, or with titles that leave no room, is only merged |
| ChunkRefinement.RefineChunks | app/import_process/agent/nodes/node_document_split.py:312-344 | cutting, merging and filling in parent titles, loop by loop; `RefineKeepsText` says what is kept |
| ChunkConservation.CutKeepsPieces | app/import_process/agent/nodes/node_document_split.py:290-307 | the chunks of a cut section are, in order, its non-blank pieces, each numbered and, white space aside, the section's title followed by the piece |
| ChunkConservation.SectionTextIs | app/import_process/agent/nodes/node_document_split.py:262-280 | what cutting keeps of a section is its text apart from white space, without at most one title at its start |
| ChunkConservation.SplitKeepsText | app/import_process/agent/nodes/node_document_split.py:252-310 | with a splitter that loses white space only, cutting a section loses white space and at most one copy of its title |
| ChunkConservation.MergeKeepsText | app/import_process/agent/nodes/node_document_split.py:200-250 | merging loses white space and repeated parent titles only: the merged chunks share the texts of the given ones, in order |
| ChunkConservation.RefineKeepsText | app/import_process/agent/nodes/node_document_split.py:312-344 | so does the whole refinement: the refined chunks share the texts of the sections, in order, each with its parent title in front at most once |
| DocumentConservation.RefinedDocumentKeepsText | app/import_process/agent/nodes/node_document_split.py:312-427 | the refined chunks of a document share the texts of its sections |
| ChunkRefinement.RefinedParents | app/import_process/agent/nodes/node_document_split.py:312-344 | every refined chunk of every input takes its titles from a piece cut from an input section: its parent title is that section's title or parent title, or, for an untitled section, the chunk's own title |
| ChunkRefinement.RefinedLength | app/import_process/agent/nodes/node_document_split.py:312-344 | no refined chunk is longer than the longest chunk after cutting plus 501, whatever the splitter does |
| ChunkRefinement.RefinedChunks | app/import_process/agent/nodes/node_document_split.py:252-344 | with pieces that fit, refined chunks have at most 2501 characters, or the longest section whose title of 1998 or more kept it whole plus 501 |
| RankFusion.KeysOfOneKind | app/query_process/agent/nodes/node_rrf.py:126-141 | two documents have the same key if and only if their strongest evidence (chunk identifier, content hash, provenance, digest of the text) is of the same kind and equal |
| RankFusion.ProvenanceIff | app/query_process/agent/nodes/node_rrf.py:134-137 | provenance is equal if and only if document, version and chunk number are, as long as the first two hold no colon |
| RankFusion.RrfMerge | app/query_process/agent/nodes/node_rrf.py:90-123 | returns the sorted, truncated list of fused entries; untruncated, their scores add up to the shares of all list positions |
| RankFusion.FusedItemsAreFirsts | app/query_process/agent/nodes/node_rrf.py:101-109 | a fused entry has the first document seen with its key and the sum of weight/(k+rank) over all occurrences |
| RankFusion.ShareTimesRank | app/query_process/agent/nodes/node_rrf.py:104-105 | a share times k + rank is the weight |
| RankFusion.SortIsStable | app/query_process/agent/nodes/node_rrf.py:111-116 | the sort is descending, keeps all elements and the order of equal scores |
| RankFusion.FirstSeenGrows | app/query_process/agent/nodes/node_rrf.py:98-109 | keys, and so equal scores, stand in the order in which they were first met |
| RankFusion.ResultsAreBest | app/query_process/agent/nodes/node_rrf.py:111-123 | the results are the first `max_results` or all, none scores less than one left out, and every key that occurs is among all |
| RankFusion.SortedKeysAreDistinct | app/query_process/agent/nodes/node_rrf.py:98-116 | no key is returned twice |
| RankFusion.RanksDecide | app/query_process/agent/nodes/node_rrf.py:101-105 | for keys without repetition, standing higher in a list is having the smaller rank |
| RankFusion.DominantIsAhead | app/query_process/agent/nodes/node_rrf.py:90-123 | a document at least as high in every list and strictly higher in a weighted one is returned ahead |
| Base64Url.UnpaddedRoundTrip | app/core/oidc_session.py:43-44 | dropping the padding and putting it back loses no byte string |
| Base64Url.EncodeRoundTrip | app/core/security.py:95-110 | the padded encoding decodes to what was encoded |
| Base64Url.KnownGroup | app/core/security.py:95-110 | a test vector of RFC 4648 |
| Base64Url.KnownEncodings | app/core/security.py:95-110 | the two padded test vectors of RFC 4648 |
| Base64Url.KnownSafeLetters | app/core/oidc_session.py:43-44 | the two letters that are special to the URL-safe alphabet |
| Credentials.FrameRoundTrip | app/core/oidc_session.py:58-72 | a frame splits back into the nonce, tag and ciphertext it was made of |
| Credentials.FrameIff | app/core/oidc_session.py:66-78 | what is read as a frame: the version, a dot and unpadded base64 of a nonce of 12 bytes, a tag of 16 and the rest |
| Credentials.SessionRoundTrip | app/core/oidc_session.py:58-78 | decrypting an encrypted session gives the session |
| Credentials.RecordVerifies | app/core/security.py:86-114 | a record verifies a secret if and only if its iterations are between 100,000 and 2,000,000 and the secret derives the same key |
| Credentials.VerifiesIff | app/core/security.py:102-115 | any text verifies a secret if and only if it is the algorithm, an iteration count in range, a salt and the key derived from the secret with them |
| Decimals.KnownDecimals | app/core/security.py:95-110 | numbers in the record are written in decimal |
| Credentials.KeyRoundTrip | app/core/security.py:131-139 | a key names its account and secret if and only if the identifier has 36 characters and no underscore and the secret at least 32 characters |
| Credentials.ParsedKeysAreMade | app/core/security.py:131-139 | a text parses as a key if and only if it was made from an identifier and a secret of the right shape, and gives those |
| Credentials.KeysAreUnambiguous | app/api/admin_router.py:381 | two accounts never share a key |
| AnswerContext.FillBudget | app/query_process/agent/nodes/node_answer_output.py:161-201 | the loop takes candidates in order up to the first that does not fit, and reports what is left of the budget |
| AnswerContext.FilledFits | app/query_process/agent/nodes/node_answer_output.py:161-201 | the text holds all candidates before the first that would break the budget, and fits it |
| AnswerContext.FilledHolds | app/query_process/agent/nodes/node_answer_output.py:161-201 | every candidate before the one at which the budget ends stands in the text |
| AnswerContext.ConstructContext | app/query_process/agent/nodes/node_answer_output.py:146-149 | context and history together never exceed the budget |
| AnswerContext.EntryCarriesLabel | app/query_process/agent/nodes/node_answer_output.py:168-179 | an entry opens with the label of its position |
| AnswerContext.EntryShowsDocument | app/query_process/agent/nodes/node_answer_output.py:166-181 | an entry shows source, every present field with its name, and score, and ends with the document's text |
| AnswerContext.LineShowsMessage | app/query_process/agent/nodes/node_answer_output.py:188-197 | a history line names its speaker and gives the text; exactly blank messages and other roles have none |
| AnswerContext.LabelsDiffer | app/query_process/agent/nodes/node_answer_output.py:169 | different positions have different labels |
| AnswerContext.PrepareEvidence | app/query_process/agent/nodes/node_answer_output.py:87-92 | the filter and the cut keep the positions of the first non-blank documents |
| AnswerContext.BuildCitations | app/query_process/agent/nodes/node_answer_output.py:112-135 | the loop numbers these documents from 1 |
| AnswerContext.LabelIsCitationIff | app/query_process/agent/nodes/node_answer_output.py:87-179 | the prompt entry and the citation with the same number are about the same place of the ranked list if and only if no blank document stands before it; each labelled document has a citation, with that number or a smaller one |
| AnswerContext.BlankShiftsCitations | app/query_process/agent/nodes/node_answer_output.py:87-92 | a blank document before another: the prompt says [2], the citation [1], and there is no citation [2] |

## Left out

- Row locks (`FOR UPDATE`) and SQLite's handling of them: a transaction is one atomic step.
- The broker, and progress after a worker is killed: only safety is claimed then. How many retries the queue allows is a parameter (`limit`).
- Audit records and metrics have no effect beyond failing; CleanupCoupling's theorems assume, by name, that the audit record of a committed last stage is written.
- CleanupDriver.DriveCleanup: claims nothing once another worker turns to the event; errors of metrics and logging, and of a commit whose outcome the caller cannot know are not modelled.
- CleanupDriver.RunTask: the same, for one execution. The background mode without a queue (`process_cleanup_event_safely`) is ProcessCleanupEvent without retries.
- Import tasks, chunk rows, object paths, timestamps such as `deleted_at` and `completed_at`, and actor columns; nothing is claimed about the import status of a deleted document.
- RegisterDocument: the row a query returned is an argument; a row the query could not return is refused like a missing one.
- The clock is read just before the critical section in the source; traces here are ordered by the time that was read.
- Refreshing a browser session is atomic; an interleaved logout and replacement are not modelled.
- The encryption of stored sessions is proved to round-trip on its own (`Credentials.SessionRoundTrip`); the session store keeps payloads.
- AES-GCM, PBKDF2, SHA-256, JSON, `casefold`, `strip` and the white-space class are parameters.
- Credentials.VerifiesIff: numbers and base64 are those of `ParseDecimal` and `Base64Url.Decode`, see below.
- Credentials.FrameIff: base64 is that of `Base64Url.Decode`, see below.
- Base64Url.Decode: text outside the alphabet is refused, where the library skips it; Credentials.ParseDecimal reads plain digits only.
- Redis: scripts are atomic, its clock is the application's, and the expiry of task records is not modelled; task identifiers contain no colon.
- TaskStore: results and statuses are not modelled.
- ModelGateway.Gateway.Invoke: calls of several threads between a check and its record are covered by `OpenIffThresholdReached` only; streaming is not modelled.
- ScopeMigration.Migrate: the dry run, the schema construction and the name checks before the first server call.
- LegacyRebuild.RebuildLegacyCollection: schema and index descriptions; rows hold exactly the fields of their collection.
- ChunkRefinement.MergeShortSections: works on values; that the growing chunk is the caller's own dictionary is not captured.
- The text splitter of the library is a parameter, and length bounds assume that its pieces fit the room they are given.
- RankFusion.DominantIsAhead: scores are real numbers; floating-point rounding is not modelled.
- RankFusion.RrfMerge: `max_results` is not negative.
- `_prepare_evidence`'s confidence figure, `_reconcile_generated_evidence`, the fixed texts for an empty context or history, and prompt templates.
- HTTP routing, settings validation, access decisions, row-level security and the rerank cut-off: plumbing, or only easy members.
