# Verified model of the shop's stateful core

This project models, in Dafny, the parts of the shop that carry real state or real arithmetic, and proves
what they promise. Nothing was executed: every statement below is a proof about the model.

| file | subject |
|---|---|
| `AlertTables.dfy` | the two alert tables, the SQL statements on them, and the constraints they keep |
| `AlertProtocol.dfy` | any number of alert workers against one database: stale snapshots, row locks, crashes, lost replies, late writes |
| `OwnerAlertWorker.dfy` | the alert repository and `OwnerAlertWorker.runOnce` as objects over a mutable database, and draining by one worker |
| `MediaMigration.dfy` | copying media into two object stores: one candidate, a whole run, and the loop over mutable stores |
| `PublishSaga.dfy` | publishing a reference from the admin page, with every request free to land late or never |
| `ReferenceCreatePage.dfy` | the page object whose `onSubmit`, cut at its awaits, takes the steps of that saga |
| `WorkerLoops.dfy` | the background timers, their flags and the stop function |
| `PagedMerge.dfy` | merging pages by id, all at once and page by page |
| `ReconciliationPage.dfy` | the customer reconciliation page under refetches and late answers |
| `ShippingPolicy.dfy` | the policy schema, the hand-written validator, and the two policy builders |
| `PolicyEditor.dfy`, `PreferenceList.dfy` | the handlers that edit the three carrier lists, and what "Subir" can reach |
| `SizeList.dfy` | canonical shoe sizes and the sorted, duplicate-free list |
| `IntegerDigits.dfy` | exact integer parsing through binary64 (IEEE 754-2019, section 4.3.1) |
| `Ascending.dfy`, `Carriers.dfy`, `Wrappers.dfy` | shared definitions |

Protocols are transition systems: a state, a set of events with a guard, and `Run`/`End` over sequences of
events. A theorem about runs holds for every sequence of enabled events. Where the source updates an object
in place there is a class beside the transition system, and each of its methods is proved to take exactly
one step of it (`View() == Apply(old(View()), ...)`), or, for a call that runs through, to leave what a
specification function says.

Four ingredients are left open and hence hold for any choice: the hash (`World.hash`), what a storage backend
keeps of a put, what it writes beside it and whether it acknowledges it (`World.backend`), `trim`/`toLowerCase`
(`Text`), and `Number` on texts that are no canonical size. How each database statement and provider call ends,
and every clock reading, is a parameter or an event.

## What turned out to hold only under a condition

- **Nothing present is overwritten** by a migration, except by the local driver's side file. That driver also
  renames a file onto the key followed by `.meta.json`, which is a valid key in its turn. `NothingOverwritten`
  states the exact condition, `SideFileOverwritesAnObject` an input on which it fails. The same clash is what can
  make a report untrue (`ReportIsTrueAtTheEnd`, `CleanExitMeansAllAtDestination`, `SecondRunChangesNothing`; an
  input: `CleanExitMayHideALoss`).
- **A rerun completes an interrupted run**, but does not write a side file that was lost between the two renames;
  `LostSideFileStaysLost` says when this makes a difference.
- **Dry run predicts execute** except when a source file is empty, because `put` refuses empty objects and execute
  throws where the dry run said `would_migrate`, and when files to migrate get in each other's way.
  `DryRunPredictsExecute` states the exact condition on the dry report. Otherwise the counts of migrated and missing
  files are still bounded; those of mismatches and skipped files are, unless a side file of another hash falls on
  an object that the dry run reported (`DryRunBoundsExecute`, `SideFileBreaksBounds`).
- **A successful submission leaves exactly what was entered** if and only if no request of an earlier attempt
  that is still on its way contradicts it (`SuccessIsExactIff`). A late compensating deactivation leaves the
  published reference inactive (`PublishedYetInactive`); a late stock row puts an old quantity back. On a first
  attempt no such request exists (`FirstSuccessIsExact`).
- **An active reference is ready** if and only if a deactivation of it has taken effect (`ActiveReferencesAreReady`).
  After a lost reply to `createReference` none ever does (`StrandedIff`, `LostCreateReplyLeavesActiveReference`).
- **The retry error text** says the reference is saved as inactive. `RetryTextIsTrueIff` says exactly when that is
  so; it is false, for example, after a lost activation reply (`FailedRetryMayLeaveItActive`). The model follows
  the code (lines 113-124 of `ReferenceCreatePage.tsx`).
- **`open` may hand back a resolved row**, because its second select has no status filter;
  `OpenReturnsLiveRowIff` says exactly when it cannot.
- **`markRead` revives a resolved alert** when no live one has its key, and then makes it eligible for delivery if
  it is recent and was never claimed (`ReadRevivesExactlyUnsentAlerts`, `MarkReadRejectedExactlyForResolvedTwin`).
- **Deduplication keys collide** for two alert types exactly when one, followed by a colon, begins the other
  (`KeysCollideIff`, `DeduplicationKeyCollidesOnColons`). Every caller in the repository passes a literal without
  a colon (such as `conversation_attention` or `guide_failed`), so no keys of theirs collide.
- **The hand-written policy validator is stricter than the schema** on carrier names that the schema would still
  trim or lower-case. `SilentExactlyWhenAccepted` states the exact gap for all policies.
- **`sent` is final** only under the condition of `SentIsFinalIff`, which can fail (`SentMayBecomeUncertain`).
- **The closure tick has no flag**, so its runs can overlap without bound (`ClosureTicksPileUp`); the other
  loops never do.
- The retention policy speaks of deliveries that cascade (`apps/api/src/modules/privacy/retention-policy.ts`,
  lines 71-76); the foreign key is `ON DELETE RESTRICT` (`apps/api/src/database/schema/ops.ts`, lines 54-56).
  The model follows the schema: deleting an alert that has a delivery is rejected.

"Ready" below means what `README.md`, line 96, of the repository calls ready to publish besides being active: a
photo and at least one size with positive stock.

## Model

| member | source | states |
|---|---|---|
| AlertProtocol.AtMostOneSendPerAlert | apps/api/src/modules/alerts/owner-alert-worker.ts:13-51 | From any tables that meet their constraints, in every run, with any number of workers, stale snapshots, crashes, restarts, lost replies and late writes: no two provider calls are for the same alert, none is for an alert that had a delivery row at the start, and each belongs to a claim that won its row. |
| AlertProtocol.WithoutKeyAnAlertIsSentTwice | apps/api/src/database/schema/ops.ts:53-56 | The theorem rests on the delivery primary key: without it, from every initial state with an eligible alert there is a run of two workers that sends that alert twice, in spite of `NOT EXISTS` and `SKIP LOCKED`. |
| AlertProtocol.OneLiveAlertPerKey | apps/api/src/database/schema/ops.ts:37-40 | In every reachable state at most one unresolved alert exists per deduplication key. |
| AlertProtocol.DeliveriesAreTruthful | apps/api/src/modules/alerts/owner-alert-worker.ts:30-49 | In every reachable state a delivery row from before the start is as it was then; of any other, a stored message id is one the provider returned for a call for that very alert, `sent` implies such an id, a row that is no longer `processing` has a completion time and implies a call was made, and a `processing` row is as the claim left it. |
| AlertProtocol.DeliveriesArePermanent | apps/api/src/modules/alerts/owner-alert-worker.ts:17-49 | Between any two moments of any run no delivery row disappears, returns to `processing` or changes a message id it holds, and its alert is never eligible again at any clock reading. |
| AlertProtocol.SentIsFinalIff | apps/api/src/modules/alerts/owner-alert-worker.ts:36-49 | In any state that keeps the invariants, which every reachable one does, a row that says `sent` says so in every continuation if and only if no `uncertain` write for that alert is under way and no worker still waits to hear of its `sent` write. |
| AlertProtocol.SentMayBecomeUncertain | apps/api/src/modules/alerts/owner-alert-worker.ts:36-49 | That condition can fail: from every initial state with an eligible alert there is a run after which the row says `sent`, and a continuation after which it says `uncertain` with the same message id. |
| AlertProtocol.RunOnceIsARun | apps/api/src/modules/alerts/owner-alert-worker.ts:13-51 | Every call of the imperative worker that finds an alert, however its outside operations end, is a run of the protocol with the same tables and calls, and without any crash when the call returned; so the theorems about runs apply to it. |
| AlertProtocol.RepositoryCallsAreSteps | apps/api/src/modules/alerts/postgres-alert-repository.ts:28-75 | `open`, `resolve`, an accepted `markRead` and a purge of alerts without deliveries are steps of the protocol that anybody may take at any time: the tables become what the statement leaves, and nothing else moves. |
| AlertTables.InsertAlertKeepsConstraints | apps/api/src/modules/alerts/postgres-alert-repository.ts:28-34 | The insert of `open` keeps the partial unique index and the foreign key, whatever it conflicts with. |
| AlertTables.UpdateStatusKeepsConstraints | apps/api/src/modules/alerts/postgres-alert-repository.ts:60-75 | A status change that the index lets through keeps both constraints. |
| AlertTables.MarkReadRejectedExactlyForResolvedTwin | apps/api/src/modules/alerts/postgres-alert-repository.ts:60-67 | The index rejects `markRead` if and only if the alert is resolved and its key has a live alert. |
| AlertTables.OpenLeavesExactlyOneLive | apps/api/src/modules/alerts/postgres-alert-repository.ts:28-41 | Right after an uninterrupted `open` exactly one unresolved alert carries the key, except precisely when the generated id was taken and the key had no live alert. |
| AlertTables.PurgeRejectedIff | apps/api/src/database/schema/ops.ts:53-56 | A purge is turned down if and only if one of the alerts has a delivery row, and otherwise takes away just these alerts. |
| AlertTables.KeysCollideIff | apps/api/src/modules/alerts/alert-service.ts:20-25 | Two types can give one key to two different (type, entity) pairs if and only if one type followed by a colon is the beginning of the other. |
| AlertTables.DeduplicationKeyInjective | apps/api/src/modules/alerts/alert-service.ts:20-25 | For types without a colon, which is what every caller passes, two keys are equal if and only if type and entity are. |
| AlertTables.DeduplicationKeyCollidesOnColons | apps/api/src/modules/alerts/alert-service.ts:20-25 | With a colon in a type, two different pairs share a key. |
| AlertTables.ClaimRemovesExactlyOne | apps/api/src/modules/alerts/owner-alert-worker.ts:16-49 | A claim and anything recorded after it remove that alert, and no other, from the eligible set. |
| AlertTables.OpenAddsExactlyItsAlert | apps/api/src/modules/alerts/postgres-alert-repository.ts:28-34 | Opening makes the new alert eligible for delivery; on a conflict, and for every other alert, nothing changes. |
| AlertTables.ResolveWithdrawsExactlyItsAlert | apps/api/src/modules/alerts/postgres-alert-repository.ts:68-75 | Resolving withdraws that alert from delivery and no other. |
| AlertTables.ReadRevivesExactlyUnsentAlerts | apps/api/src/modules/alerts/postgres-alert-repository.ts:60-67 | An accepted `markRead` changes who is eligible if and only if it revives a resolved alert that is recent and was never claimed, which it then makes eligible. |
| OwnerAlertWorkers.PostgresAlertRepository.Open | apps/api/src/modules/alerts/postgres-alert-repository.ts:28-41 | If the id is free and every alert with the key `type:entity` is resolved, an open alert with that key and this creation time is added and nothing else changes; otherwise nothing changes. Handed back is the inserted row, else any row with the key, else none. |
| OwnerAlertWorkers.PostgresAlertRepository.MarkRead | apps/api/src/modules/alerts/postgres-alert-repository.ts:60-67 | Fails exactly when another unresolved alert has the alert's key, and then changes nothing; otherwise that alert is read and nothing else changes. Returns nothing exactly for an unknown id, and else the row as it is afterwards. |
| OwnerAlertWorkers.PostgresAlertRepository.Resolve | apps/api/src/modules/alerts/postgres-alert-repository.ts:68-75 | Never rejected; that alert is resolved and nothing else changes. Returns nothing exactly for an unknown id, and else the row as it is afterwards. |
| OwnerAlertWorkers.OpenReturnsLiveRowIff | apps/api/src/modules/alerts/postgres-alert-repository.ts:28-41 | `open` is sure to hand back a live row if and only if it inserts, or the key has a live row and no resolved one. |
| OwnerAlertWorkers.SelectOldest | apps/api/src/modules/alerts/owner-alert-worker.ts:17-22 | The candidate is eligible and no eligible alert is older. |
| OwnerAlertWorkers.OwnerAlertWorker.RunOnce | apps/api/src/modules/alerts/owner-alert-worker.ts:13-51 | For every way the settings, the claim, the send and the two updates can end, and for any clock readings: an alert is claimed exactly if one is unresolved, younger than 24 hours and without a row, and then an oldest such one; its row ends `sent` with the message id and time, `uncertain` with the time and the id if that had been stored, or as claimed, each exactly when the source leaves it so; nothing else changes; and exactly when a call is made and the result is true, false or an exception. |
| OwnerAlertWorkers.DrainPicksFromInitialSet | apps/api/src/modules/alerts/owner-alert-worker.ts:14-29 | One worker without new alerts only ever claims alerts that were eligible at the start, and no more rounds claim than there were. |
| OwnerAlertWorkers.DrainIsBoundedAndOrdered | apps/api/src/modules/alerts/owner-alert-worker.ts:14-29 | Successive claiming rounds are at most as many as the initial eligible set is large, never repeat an alert, and go in non-decreasing creation time, whatever each send did. |
| OwnerAlertWorkers.OwnerAlertWorker.Drain | apps/api/src/modules/alerts/owner-alert-worker.ts:14-29 | A worker that calls `runOnce` until it returns false, with sends and updates ending as they may and the clock moving forward, stops within the size of the initial eligible set with nothing eligible left, having tried every alert still fresh at the end, each once, oldest first. |
| MediaMigration.ValidKeysAreFlat | apps/api/src/modules/storage/object-storage.ts:29-46 | A key is valid if and only if it has 1 to 255 letters, digits, dots, underscores and hyphens, starts with a letter or digit and has no two dots in a row; it then has no slash, backslash or outer blank and is neither dot entry, so those explicit checks add nothing. |
| MediaMigration.ObjectStorage.Put | apps/api/src/modules/storage/local-object-storage.ts:30-84 | Refuses invalid keys and empty objects; otherwise, acknowledged or not, the store gains what the backend kept under that key and, with a local driver, the side file under the key followed by `.meta.json`, and every other object is untouched. |
| MediaMigration.MigrateCandidate | apps/api/src/cli/migrate-media-to-object-storage.ts:144-245 | One turn of the loop over mutable stores leaves the stores and the item of the specification, or throws when that does. |
| MediaMigration.MigrateMediaToObjectStorage | apps/api/src/cli/migrate-media-to-object-storage.ts:131-257 | The loop leaves the stores and items of the specification; each of the four counters is the number of items with its statuses, they sum to `scanned`, and the exit code is clean exactly when no item is a mismatch or missing. |
| MediaMigration.ReturnsIff | apps/api/src/cli/migrate-media-to-object-storage.ts:144-245 | For all candidates, stores and backends a run returns if and only if no candidate stops it: an existing file that cannot be read; an invalid key of a file that is as recorded; or, executing, a file that is as recorded and whose key is not there when its turn comes (a matter of keys alone), and that is empty or whose put fails. |
| MediaMigration.SourcesAreReported | apps/api/src/cli/migrate-media-to-object-storage.ts:148-173 | In any run that returns, the i-th item says `missing_source` if and only if the i-th source is missing, and a source that differs from the recorded hash is a mismatch that reports that hash. |
| MediaMigration.OrdinaryRunsReturn | apps/api/src/cli/migrate-media-to-object-storage.ts:144-257 | Over reliable stores, with valid keys and existing files readable and not empty, every run returns one item per candidate, `missing_source` exactly for the missing ones. |
| MediaMigration.OnlyPutsAreStored | apps/api/src/cli/migrate-media-to-object-storage.ts:218-223 | What is stored after a run was there before or is a key the run put, or its side key; after a run that returns, these keys are all there. |
| MediaMigration.PutsArriveWhole | apps/api/src/cli/migrate-media-to-object-storage.ts:218-224 | What a backend kept of a put is there at the end byte for byte, unless a later put wrote its side file over it. |
| MediaMigration.NothingOverwritten | apps/api/src/cli/migrate-media-to-object-storage.ts:175-223 | In either mode, over any backend, even one that corrupts, and whether the run returns or throws: all objects present before are the same after if and only if no key that the run puts, followed by `.meta.json`, is a key already present with other bytes than the side file brings; without side files (the S3 driver) always. |
| MediaMigration.SideFileOverwritesAnObject | apps/api/src/modules/storage/local-object-storage.ts:56-78 | The input on which the local driver overwrites: object `a.meta.json` present, `a` absent, candidate `a`; `a` is reported `migrated` and the other object is now its side file. |
| MediaMigration.DryRunWritesNothing | apps/api/src/cli/migrate-media-to-object-storage.ts:200-209 | A dry run leaves both stores as they were. |
| MediaMigration.ReportIsTrueAtTheEnd | apps/api/src/cli/migrate-media-to-object-storage.ts:144-245 | At return, over any backend, each item is true of its candidate, status and both hashes, with respect to the stores the run started with and those it left, if and only if no later put wrote a side file of another hash over the object it reports; a true item says `migrated` or `skipped_existing` if and only if its candidate's object has the source's hash, and that is the recorded one if there is one. |
| MediaMigration.WithoutNamesakesNothingIsSpoiled | apps/api/src/cli/migrate-media-to-object-storage.ts:144-245 | Two conditions to check beforehand, each enough for all items to be true: backends without side files, or no candidate named like another's side file. |
| MediaMigration.CleanExitMeansAllAtDestination | apps/api/src/cli/migrate-media-to-object-storage.ts:284-286 | A clean exit code of an execute run that returns means every candidate is at its destination with the source hash if and only if no item is spoiled by a side file; and if none is, the exit code is clean if and only if every candidate is there. |
| MediaMigration.CleanExitMayHideALoss | apps/api/src/cli/migrate-media-to-object-storage.ts:218-244 | An input on which an item is spoiled: empty stores, candidates `a.meta.json` and `a` in that order, a local driver whose side file for `a` has another hash than the first file. Both items say `migrated`, the exit code is clean, and the first candidate's object is lost. |
| MediaMigration.SecondRunChangesNothing | apps/api/src/cli/migrate-media-to-object-storage.ts:144-245 | After an execute run that returned, over any backends, a second run in either mode returns and writes nothing; it turns each `migrated` into `skipped_existing` and repeats every other item if and only if no item of the first report is spoiled by a side file. |
| MediaMigration.RerunAfterAnyStopCompletes | apps/api/src/cli/migrate-media-to-object-storage.ts:144-245 | Stop after any prefix, or let lost puts or lost replies abort the run; a reliable rerun ends in the same stores as one uninterrupted run, and returns if that does. |
| MediaMigration.LostSideFileStaysLost | apps/api/src/modules/storage/local-object-storage.ts:77-78 | A stop between the driver's two renames is the exception. Unless the name of the lost side file is absent and also the key of a later candidate, the rerun ends in the stores of the uninterrupted run up to that one key, and in exactly those stores if and only if the side file was there before, with the same bytes. |
| MediaMigration.DryRunPredictsExecute | apps/api/src/cli/migrate-media-to-object-storage.ts:200-244 | Over reliable stores, for all candidates: execute returns the dry run's items with `migrated` for `would_migrate` if and only if, by the dry report, no file to migrate is empty, no two share (kind, key), and no side file of one falls on a key where another is to be migrated or where an object of another hash was reported. If the dry run throws, so does execute; execute throws only if a file to migrate is empty, and without such conflicts exactly then. |
| MediaMigration.ConflictsWithoutSideFiles | apps/api/src/cli/migrate-media-to-object-storage.ts:175-209 | Without side files the condition is: no two files to migrate share (kind, key). |
| MediaMigration.DryRunBoundsExecute | apps/api/src/cli/migrate-media-to-object-storage.ts:175-245 | For all candidates and backends, when both runs return: an item that the dry run did not want to migrate is repeated by execute if and only if no earlier put wrote a side file of another hash over the object it reports; dry `migrated` ≥ execute `migrated` and equal `missingSource`; and, if all those items are repeated, in particular if execute overwrote nothing, dry `mismatched` ≤ and dry `skippedExisting` ≤ those of execute. |
| MediaMigration.SideFileBreaksBounds | apps/api/src/cli/migrate-media-to-object-storage.ts:175-245 | An input on which a bound fails: the side file of the first candidate falls on the key of the second, whose object is there; if exactly one of the two has the source's hash, `mismatched` or `skippedExisting` is smaller in execute. |
| MediaMigration.SharedTargetDiverges | apps/api/src/cli/migrate-media-to-object-storage.ts:175-245 | An instance of the shared key: two files with different hashes are both `would_migrate`, but execute reports one `migrated` and one `mismatch`. |
| PublishSaga.ActiveReferencesAreReady | apps/admin/src/catalog/ReferenceCreatePage.tsx:82-127 | In every run, with retries, reloads, lost replies and late requests, and for every reference: it is active without being ready if and only if no deactivation of it has ever taken effect, which is if and only if it is exactly as created; what the page remembers for a retry was deactivated. |
| PublishSaga.FailedFirstSubmissionIsCompensated | apps/admin/src/catalog/ReferenceCreatePage.tsx:113-116 | A first submission that fails after its create returned, at whatever step, ends inactive or ready once its compensation is answered. |
| PublishSaga.StrandedIff | apps/admin/src/catalog/ReferenceCreatePage.tsx:84-116 | In every state of a run: a reference stays active and not ready in every continuation if and only if it was never deactivated, no deactivation of it is on its way, and the page is not about to send one. |
| PublishSaga.LostCreateReplyLeavesActiveReference | apps/admin/src/catalog/ReferenceCreatePage.tsx:84-93 | From the start this happens: a create that takes effect but is reported as failed strands the reference for good. |
| PublishSaga.FirstSuccessIsExact | apps/admin/src/catalog/ReferenceCreatePage.tsx:84-112 | A first submission that gets to the end leaves the reference active, with photo and exactly the entered stock, and it stays so until a new submission. |
| PublishSaga.HarmlessMeansExact | apps/admin/src/catalog/ReferenceCreatePage.tsx:94-112 | A submission, retry or not, that meets no contradicting late request ends with entered sizes at entered quantities and all other sizes at their old value. |
| PublishSaga.StaleRequestSpoils | apps/admin/src/catalog/ReferenceCreatePage.tsx:103-116 | Any contradicting request still on its way can land after the end and undo that. |
| PublishSaga.StaleDeactivationIsReached | apps/admin/src/catalog/ReferenceCreatePage.tsx:84-116 | From the start, for any two valid submissions, the page can get to a retry that sends its photo while the compensating deactivation of the first attempt is still on its way. |
| PublishSaga.PublishedYetInactive | apps/admin/src/catalog/ReferenceCreatePage.tsx:94-116 | So from the start there is a retry in which every request of its own succeeds, which ends with the reference published in the page and inactive on the server. |
| PublishSaga.SuccessIsExactIff | apps/admin/src/catalog/ReferenceCreatePage.tsx:94-116 | Both directions: from the photo upload on, every successful continuation is exact if and only if no request on its way deactivates the reference or writes another quantity. |
| PublishSaga.PendingIsRemembered | apps/admin/src/catalog/ReferenceCreatePage.tsx:82-99 | In every run the page remembers exactly the reference whose deactivation was answered last since the page was opened, whatever fails, succeeds or is compensated in between. |
| PublishSaga.RetriesUpdate | apps/admin/src/catalog/ReferenceCreatePage.tsx:84-99 | From any reachable state in which the page remembers a reference, in every continuation without a reload: it still does, no create is sent, and every submission sends the update of that reference and nothing else. |
| PublishSaga.FirstSubmissionCreates | apps/admin/src/catalog/ReferenceCreatePage.tsx:84-90 | A page that remembers nothing sends a create and nothing else. |
| PublishSaga.RetryAfterCompensation | apps/admin/src/catalog/ReferenceCreatePage.tsx:95-116 | From the start, for any two valid submissions, the page can get to a retry that updates the reference whose first attempt failed and was compensated, and which is inactive. |
| PublishSaga.RetryTextIsTrueIff | apps/admin/src/catalog/ReferenceCreatePage.tsx:113-124 | After a failed retry, at whatever step, the reference is inactive and stays so until the next submission, as the message says, if and only if it is inactive at that moment and no activation of it, of this attempt or an earlier one, is on its way. |
| PublishSaga.FailedRetryMayLeaveItActive | apps/admin/src/catalog/ReferenceCreatePage.tsx:111-124 | From the start, for any two valid submissions, the page can get to a retry whose failure leaves the reference active. |
| ReferenceCreatePages.AcceptedExactly | apps/admin/src/catalog/ReferenceCreatePage.tsx:43-80 | The form passes if and only if the price's exact decimal value is from 1 to 2,000,000,000, there is a photo, every stock entry is blank or has an exact value up to 2,000,000,000, and one is positive; the rows submitted are then exactly the positive entries, one per size. A rejected form is told its first fault in this order. |
| ReferenceCreatePages.ReferenceCreatePage.OnSubmit | apps/admin/src/catalog/ReferenceCreatePage.tsx:39-99 | Up to the first await: a rejected form changes nothing but the message; an accepted one is exactly the saga's submission step. |
| ReferenceCreatePages.ReferenceCreatePage.OnSuccess | apps/admin/src/catalog/ReferenceCreatePage.tsx:91-112 | From any await, a success takes exactly the saga's step to the next one; the reference is remembered only once deactivated. |
| ReferenceCreatePages.ReferenceCreatePage.OnError | apps/admin/src/catalog/ReferenceCreatePage.tsx:113-128 | From any await, a failure takes exactly the saga's failure step, compensating exactly on a first attempt whose create returned. |
| WorkerLoops.LoopsNeverOverlap | apps/api/src/runtime.ts:376-403 | For every interleaving of ticks, settlements, `finally` callbacks and stops: each guarded loop has at most one job in flight, its flag is set exactly while it has one or its last one has yet to clear the flag, starts and settlements alternate, and nothing starts after a stop. |
| WorkerLoops.TickStartsExactlyWhenIdle | apps/api/src/runtime.ts:461-488 | In every reachable state a tick starts a job if and only if the workers are not stopped and that loop has no job in flight nor one that has yet to clear its flag, so no failure ever leaves a loop stuck. |
| WorkerLoops.StateFollowsEvents | apps/api/src/runtime.ts:365-562 | In every run: stopped if and only if a stop is among the events; each loop's flag, job and callback are just where its own ticks, settlements and callbacks lead; and the closure ticks under way are those of the maintenance ticks before the stop, less those done. |
| WorkerLoops.NothingStartsAfterStop | apps/api/src/runtime.ts:557-562 | Once a stop is among the events, in every continuation the jobs in flight are among those there were, closure ticks do not increase, and the log has no start. |
| WorkerLoops.LoopGoesOn | apps/api/src/runtime.ts:400-402 | In every reachable state a settled job leaves its flag for the callback, which clears it and no other; the loop's next tick then starts a job if and only if the workers are not stopped. |
| WorkerLoops.StopDrains | apps/api/src/runtime.ts:557-562 | After a stop only jobs already in flight settle, each at most once, and nothing else enters the log but further stops. |
| WorkerLoops.ClosureTicksPileUp | apps/api/src/runtime.ts:408-424 | n maintenance ticks in a row leave n + 1 closure ticks in flight. |
| WorkerLoops.WorkerRuntime.constructor | apps/api/src/runtime.ts:363-444 | `start` sets the flags down and runs one closure tick at once. |
| WorkerLoops.WorkerRuntime.Tick | apps/api/src/runtime.ts:409-432 | A timer callback is exactly the step of the transition system, the closure tick coming before the flag is looked at. |
| WorkerLoops.WorkerRuntime.Settle | apps/api/src/runtime.ts:380-399 | A job that ends, well or badly, leaves its flag set for now. |
| WorkerLoops.WorkerRuntime.Finally | apps/api/src/runtime.ts:400-402 | The callback after either ending clears that loop's flag and no other. |
| WorkerLoops.WorkerRuntime.Stop | apps/api/src/runtime.ts:557-562 | The stop function sets the stop flag and leaves running jobs alone. |
| PagedMerge.AddPage | apps/admin/src/catalog/MovementHistory.tsx:33-48 | The inner loop on top of any items keeps the first-occurrence list and the set of seen ids. |
| PagedMerge.FlattenUnique | apps/admin/src/catalog/MovementHistory.tsx:33-48 | The nested loops give the first-occurrence list of all pages in order. |
| PagedMerge.FlattenKeepsExactlyFirsts | apps/admin/src/catalog/MovementHistory.tsx:33-48 | That list holds each id once, with the item at its first place, in the order of those places, and it is the only list that does. |
| PagedMerge.FlattenAppendsUnseen | apps/admin/src/catalog/MovementHistory.tsx:33-48 | One more page appends exactly that page's unseen items, each once. |
| PagedMerge.IncrementalAgreesWithBatchIff | apps/admin/src/customers/CustomersPage.tsx:187-221 | Merging page by page agrees with the batch merge if and only if an id repeats inside a page only when an earlier page has it; pages distinct in themselves are enough. |
| ReconciliationPages.DisplayIsBaseThenUnseen | apps/admin/src/customers/CustomersPage.tsx:159-223 | After every interleaving of refetches, requests, answers and failures, the displayed list is the answer fetched last followed by the unseen items of the pages that answered requests made for that version, with the last such page's cursor; which pages these are is read off the events alone. |
| ReconciliationPages.AnswerIsAppended | apps/admin/src/customers/CustomersPage.tsx:187-221 | In every reachable state an answer for the version displayed adds at the end just its items whose ids are not displayed, in its order, and moves the cursor to the page's. |
| ReconciliationPages.RefetchShowsTheAnswer | apps/admin/src/customers/CustomersPage.tsx:164-169 | In every reachable state a refetch that makes a new version shows the answer alone; one that does not changes nothing. |
| ReconciliationPages.DisplayStaysDistinct | apps/admin/src/customers/CustomersPage.tsx:193-220 | If the base and those pages each hold an id once, so does the display, and it equals the batch merge. |
| ReconciliationPages.StaleAnswersMightAsWellFail | apps/admin/src/customers/CustomersPage.tsx:178-186 | However answers to requests made for another version are interleaved with a run, it ends in exactly the state of the run in which each of them was lost on the way. |
| ReconciliationPages.KindsDoNotInterfere | apps/admin/src/customers/CustomersPage.tsx:193-220 | An answer for one list leaves the other list and its cursor alone. |
| ReconciliationPages.RequestContinuesTheDisplay | apps/admin/src/customers/CustomersPage.tsx:225-234 | In every reachable state a request asks for what follows the last page displayed, in both lists, and carries the current version; all as the events themselves show it. |
| ReconciliationPages.DisplayOnlyGrowsAtTheEnd | apps/admin/src/customers/CustomersPage.tsx:187-221 | Between two moments of any run with the same version, the displayed lists only grow at the end. |
| ReconciliationPages.CustomerReconciliationPage.Refetched | apps/admin/src/customers/CustomersPage.tsx:154-169 | A new answer in the query cache is exactly the refetch step, also when a deep-equal answer keeps the old object. |
| ReconciliationPages.CustomerReconciliationPage.LoadMore | apps/admin/src/customers/CustomersPage.tsx:225-234 | Nothing without data or while the last rendering saw a request pending; otherwise exactly the request step. |
| ReconciliationPages.CustomerReconciliationPage.OnSuccess | apps/admin/src/customers/CustomersPage.tsx:178-221 | An answer is exactly the success step, stale or not. |
| ShippingPolicies.SilentExactlyWhenAccepted | apps/admin/src/settings/shipping/policy-utils.ts:58-81 | For all policies: the validator returns null if and only if the schema accepts and every candidate is spelled in the allowed list, if there is one, as it is itself. |
| ShippingPolicies.ValidatorAgreesOnNormalNames | apps/admin/src/settings/shipping/policy-utils.ts:58-81 | For carrier names already trimmed and lower case the validator returns null if and only if the schema accepts. |
| ShippingPolicies.ValidatorIsStricterOnOtherSpellings | packages/contracts/src/shared.ts:76-80 | "TCC" preferred with "tcc" allowed: the schema accepts, the validator objects. |
| ShippingPolicies.ComplaintsAreTrue | apps/admin/src/settings/shipping/policy-utils.ts:58-81 | Each message is true of the policy it is given for, and names a carrier that is really preferred or ordered. |
| ShippingPolicies.FirstFaultIsReported | apps/admin/src/settings/shipping/policy-utils.ts:58-81 | Which message is given, in both directions and in this order: an empty allowed list, the preferred carrier excluded, then not allowed, the first ordered carrier at fault, anything else the schema refuses. |
| ShippingPolicies.AcceptedIff | packages/contracts/src/shipping.ts:46-101 | Stated on the names as given: accepted if and only if all names and numbers fit, no list has one carrier twice once trimmed and lower-cased, an allowed list is not empty and shares no carrier with the excluded one, the preferred and ordered carriers may all carry, and a blocked fallback has a preferred one. |
| ShippingPolicies.AcceptedPolicyIsWorkable | packages/contracts/src/shipping.ts:69-101 | Every candidate of an accepted policy is usable under it, a blocked fallback has a preferred carrier, and an allowed list leaves a usable carrier. |
| ShippingPolicies.RestrictedPolicyAccepted | apps/admin/src/settings/shipping/policy-utils.ts:44-56 | A restricted policy is accepted, by schema and validator alike, if and only if the carrier name and the fields no carrier rule looks at are valid; exactly that carrier is usable under it, those fields are unchanged, the last restriction wins, and restricting is idempotent. |
| ShippingPolicies.CopyKeepsAcceptance | apps/admin/src/settings/shipping/policy-utils.ts:28-42 | The copy differs in its revision alone; it is accepted if and only if the new revision is valid and the policy is acceptable apart from its own; so copies of accepted policies are accepted, and the validator says the same of them. |
| ShippingPolicies.CopyGlobalForMunicipality | apps/admin/src/settings/shipping/policy-utils.ts:28-42 | On the heap: the copy reads as the original under the new revision, and shares no list and no package record with it. |
| PolicyEditors.EditsNeverDuplicate | apps/admin/src/settings/shipping/PolicyFields.tsx:115-241 | Given carriers without duplicates, no sequence of edits puts a duplicate into the allowed, excluded or ordered list. |
| PolicyEditors.EditChangesMembership | apps/admin/src/settings/shipping/PolicyFields.tsx:115-241 | Each edit changes one list, and in it the membership of just what the handler is about. |
| PolicyEditors.EditPlaces | apps/admin/src/settings/shipping/PolicyFields.tsx:115-241 | Where things go: a limit lists the carriers left in their order, what is ticked or added goes to the end, what is unticked or removed leaves the rest in order, and a raised carrier changes places with the one above, all others staying. |
| PolicyEditors.EditsUndo | apps/admin/src/settings/shipping/PolicyFields.tsx:167-240 | Excluding and re-including restores the list; adding puts a preference last, adding it twice changes nothing, and removing undoes adding. |
| PolicyEditors.PolicyEditor.Edit | apps/admin/src/settings/shipping/PolicyFields.tsx:115-241 | Each handler leaves the three lists as the specification of edits says. |
| PolicyEditors.UniquesIs | apps/admin/src/settings/shipping/PolicyFields.tsx:231-237 | Building a set from a list keeps every value once and leaves a duplicate-free list as it is. |
| PreferenceLists.RaisePriority | apps/admin/src/settings/shipping/PolicyFields.tsx:195-202 | The handler leaves the old list alone and returns a fresh copy with the two neighbours swapped. |
| PreferenceLists.PressesPermute | apps/admin/src/settings/shipping/PolicyFields.tsx:195-202 | Any number of presses keeps the list a permutation. |
| PreferenceLists.RaiseChangesInversionsByOne | apps/admin/src/settings/shipping/PolicyFields.tsx:195-202 | Each press changes the number of inversions by exactly one, down if the pair was out of order and up otherwise. |
| PreferenceLists.DisorderIsNeeded | apps/admin/src/settings/shipping/PolicyFields.tsx:195-202 | No sequence of presses that reaches an order is shorter than the number of pairs out of place. |
| PreferenceLists.EveryOrderReachable | apps/admin/src/settings/shipping/PolicyFields.tsx:195-202 | Every order of n carriers is reachable in exactly as many presses as there are pairs out of place, at most the number of pairs, and in no fewer. |
| PreferenceLists.PairsFormula | apps/admin/src/settings/shipping/PolicyFields.tsx:195-202 | That bound is n(n-1)/2. |
| SizeLists.CanonicalInRange | packages/contracts/src/shared.ts:18-24 | Every canonical spelling lies between 1 and 99.5, so the range rule is implied by the pattern. |
| SizeLists.SpellIsCanonical | packages/contracts/src/shared.ts:13-17 | Each half size from 1 to 99.5 has a canonical spelling that reads back as it. |
| SizeLists.CanonicalIsSpelled | packages/contracts/src/shared.ts:13-17 | A canonical size is the spelling of its number: the round trip the other way. |
| SizeLists.SpellingIsInjective | packages/contracts/src/shared.ts:13-17 | Two canonical sizes are the same text if and only if they are the same number. |
| SizeLists.CheckOne | packages/contracts/src/shared.ts:33-52 | For any strings and any reading of them as numbers, NaN included: one turn of the loop reports a duplicate exactly when the size occurred before, and an order issue exactly when its predecessor is not smaller. |
| SizeLists.CheckSizes | packages/contracts/src/shared.ts:28-54 | For every list of strings the loop reports exactly the issues of the specification, in order. |
| SizeLists.IssueReportedIff | packages/contracts/src/shared.ts:34-51 | For every list of strings a duplicate is reported at i if and only if the same text occurs before, an order issue if and only if the number before is not smaller. |
| SizeLists.IssuesInOrder | packages/contracts/src/shared.ts:32-53 | Issues come in the order of their indices, and none twice. |
| SizeLists.NoIssueIffAscending | packages/contracts/src/shared.ts:32-53 | For every list of strings no issue is reported if and only if the numbers are strictly ascending; then none of a list of two or more is NaN. |
| SizeLists.DuplicateForcesOrderIssue | packages/contracts/src/shared.ts:34-51 | In every list of strings a duplicate forces an order issue after its first place and not after its second, so the duplicate rule is implied. |
| SizeLists.AcceptedListIsItsSet | packages/contracts/src/shared.ts:28-54 | Two accepted lists, all elements canonical and no issue, with the same sizes are the same list. |
| IntegerDigits.ParseIsExact | apps/admin/src/lib/parse-integer-digits.ts:8-22 | For text of any length: n is returned if and only if the text is all digits, its exact decimal value is n, and n is in range and at most 2^53 - 1, although `Number` rounds. |
| IntegerDigits.RoundIsNearest | apps/admin/src/lib/parse-integer-digits.ts:16 | Rounding gives a number with a 53-bit significand, and no such number is nearer. |
| IntegerDigits.TiesGoToEven | apps/admin/src/lib/parse-integer-digits.ts:16 | Halfway between two neighbours the even significand is taken. |
| IntegerDigits.RoundIsMonotone | apps/admin/src/lib/parse-integer-digits.ts:16 | Rounding never reverses an order. |
| IntegerDigits.RoundExactBelow2To53 | apps/admin/src/lib/parse-integer-digits.ts:16-17 | Rounding is exact below 2^53, and nothing from 2^53 on rounds below it. |
| IntegerDigits.ExcessBitsMeasureMagnitude | apps/admin/src/lib/parse-integer-digits.ts:16 | The overflow test on exponents is a test on magnitudes. |
| IntegerDigits.OverflowIff | apps/admin/src/lib/parse-integer-digits.ts:16 | A text of digits reads as infinity if and only if its rounded value is at least 2^1024, and otherwise as that value. |

## Left out

- Orders, stock reservation, guide jobs, the outbox, closures, retention runs and conversations: not part of this model.
- HTTP routing, sign-in, React rendering, focus, labels and message wording: no state of interest; messages are modelled by what they are about.
- Real SQL text, S3, the message provider's client and SHA-256: statements, stores and the provider are abstract, the hash is any function.
- `loadConfig` and the encoding of movement cursors: branch lists and library calls.
- Columns of an alert that no decision reads (title, detail, severity, read and resolved times).
- Liveness of the alert workers beyond draining by one worker: a losing claim returns false while eligible alerts remain.
- AlertProtocol.AtMostOneSendPerAlert: a claim may pick any eligible row of its snapshot, which includes the oldest, so every run of the real ordering is a run here.
- MediaMigration.MigrateMediaToObjectStorage: takes two different store objects, as `main` builds them, and does not model another writer to the stores or source files that change while it runs.
- MediaMigration.MigrateCandidate: takes two different store objects, as `main` builds them, and a backend whose own reads do not fail.
- MediaMigration.ObjectStorage.Exists: a backend whose own reads fail is not modelled, only the rejection of invalid keys.
- MediaMigration.ObjectStorage.Put: the content type and the checksum argument are left out (the caller always passes a valid one), and so are the local driver's temporary files, whose names are random.
- MediaMigration.RerunAfterAnyStopCompletes: covers lost puts and lost replies, not a backend that keeps other bytes; with such a backend the wrong object stays and is reported as a mismatch (ReportIsTrueAtTheEnd, SecondRunChangesNothing). A lost side file is LostSideFileStaysLost.
- MediaMigration.LostSideFileStaysLost: leaves open the case in which the name of the lost side file is absent and is also the key of a later candidate, which the rerun may then put there.
- PublishSaga.ActiveReferencesAreReady: one page at a time; other people who edit the same reference or its stock are not modelled, and the server does what a request says.
- PublishSaga.FailedFirstSubmissionIsCompensated: assumes that nothing fails after the failure it starts from; what holds when the compensation fails too is ActiveReferencesAreReady.
- ReferenceCreatePages.ReferenceCreatePage.OnSubmit: the text fields besides the price are sent as they are and are not modelled.
- ReferenceCreatePages.ReferenceCreatePage.OnSuccess: the code follows each await with no further check, so success and failure of what is awaited are the only two ways on; the error's own wording and its field are not modelled.
- WorkerLoops.WorkerRuntime.Settle: metrics, heartbeats and error reports are left out.
- ReconciliationPages.CustomerReconciliationPage.LoadMore: that the button is disabled while a request is pending is a parameter, so several requests may be under way at once.
- SizeLists.CheckSizes: `Number` is any function to NaN, the infinities and the reals; only on canonical sizes is it fixed.
- IntegerDigits.ParseIsExact: the bounds are whole numbers, as at every call.
- ShippingPolicies.SilentExactlyWhenAccepted: assumes that trimming and lower-casing the empty string gives the empty string; unknown fields, which the strict schema rejects, cannot be expressed.
