# Ingest leases, the wiki store and the wiki compiler

This project models the three stateful parts of the service and the pure text code they rest on, and proves what
they promise over every input, every run and every interleaving.

* **Ingest jobs.** Any number of workers and the API share one table of jobs. A worker claims the oldest eligible row,
  heartbeats it and finalises it, or crashes and lets the lease expire; the API resets, takes or finalises a row with no
  ownership check. `IngestJobs` has the rows and the row updates, `MovingClock` the claim loop as a function of the clock,
  `JobQueue` and `IngestService` the objects that write
  them, `LeaseProtocol` the state machine of all of them together, `JobCoherence` the row invariant and the retry budget,
  `SyncIngest` ingest and queueing inside a request among workers and other requests, `LeaseTiming` what the clock adds, `ClaimTransactions` the protocol with
  claim calls as concurrent `FOR UPDATE SKIP LOCKED` transactions, `Paths` the file paths and object keys, and `StagedDocuments` the way of a
  document from the API to the worker that claims it.
* **The wiki store.** `WikiStore` has the tables and the operations as functions, `WikiInvariants` the store invariant and
  its consequences, `WikiServices` and `Validation` the objects that update the tables, `WikiTransactions` the re-entrant
  transaction helper as an interpreter over arbitrarily nested programs.
* **Text and compilation.** `Text`, `Slugs`, `Wikilinks`, `Json`, `Evidence`, `Extraction`, `Rendering` and `LinkOrder`
  model the normaliser, the scanner, the recursion over untyped metadata, and the page printer that the scanner reads back;
  `MarkdownNoise` and `ExtractedTexts` say what cleaning a text drops and where the extracted texts come from;
  `CompiledStore` and `Compiler` say what a compile writes, wherever it stops, `CompiledIssues` what validation makes of it,
  and `SlugTitles` what title a page gets that has none.

## Assumptions

* Each heartbeat and each status write is one atomic transaction: `heartbeat` and `_update_status` read with `session.get`
  and take no row lock of their own (`worker/ingest_worker.py:172`, `:187`), so the fence rests on this, as
  `LeaseProtocol.SplitWriteBreaksFence` shows. For claim calls it
  is proved, not assumed: `ClaimTransactions.RefinesProtocol`.
* Worker ids are distinct and none is `api-sync`, and a worker has at most one claim at a time, because `run_once` runs a
  claimed job to its end. `LeaseProtocol.SharedWorkerIdBreaksFence` shows that the first of these is needed.
* The clock is shared and never goes back. Times are exact real numbers.
* In the protocol, `upsert_job` is called with `pending`, its only use in the repository; the repository method itself is
  modelled for every status. The API's row writes are atomic, and created ids are new.
* The API's ingest calls write their row several times, each write committed on its own. The methods of `IngestService` say
  what they do when nobody else touches the row in between; `SyncIngest.SyncIngestEnds` and `SyncIngest.QueueingEnds` say what holds when workers
  act on the row and other requests write to other rows.
* A wiki service call is one atomic transaction (`WikiTransactions` is about why); two callers never create the same page
  or revision at once. Commits do not fail.
* Row ids are positions, or numbers where the order by id matters. Text is ASCII, on which NFKC is the identity and `\w` is
  letters, digits and underscore.
* The RAG runtime is an arbitrary function from a query to an answer with JSON metadata, or to an exception's message.
  `str()` of a JSON value and `repr()` of a string are arbitrary functions.

## What the code does that one might not expect

* The slugs of the related pages are always among the links extracted from a compiled page, but not always in the order in
  which the pages were chosen. `LinkOrder.CompiledInOrderIff` gives the exact condition, for every request and answer. It fails
  for an answer that is just a link to a later related page, which becomes both the summary and a claim:
  `LinkOrder.CompileCanLoseOrder` follows such a compile from the request to the stored text.
* `_truncate` can exceed its limit by two characters, exactly when it cuts (`Extraction.TruncateExceedsByTwo`).
* A source with an empty id gets through when the metadata offers the empty text as a source and no fallback id is given
  (`Evidence.EmptySourceIdIff`), for instance `{"sources": [""]}` (`Evidence.EmptySourceId`).
* `_first_mapping` does go on to `bounding_box` when `bbox` holds no object (`Evidence.BoundingBoxIsRead`).
* `publish_page` does not rebuild links, so the index follows the latest revision and not the published one
  (`WikiInvariants.IndexFollowsLatest`); `WikiInvariants.PublishedTextCanDisagree` gives the runs in which the two differ.
* A compile is not atomic: an exception leaves the page and the claims saved before it. It keeps the title of an existing
  page but files it under the type `concept` again. Its job stays pending or processing for ever when marking it as processing,
  or as failed, raises (`Compiler.CompileEndsItsJob`).
* The claim loop reads the clock again on every turn. When an exhausted row has been failed and then a row with an attempt
  left, earlier in the order, becomes claimable, the call hands out the earlier row although it has failed a later one, which
  one pass over the table would have left alone. `MovingClock.CallThatOvershoots` is such a call; whether a table allows any is
  exactly `MovingClock.CanOvershoot`, a condition on the table before the call (`MovingClock.ExactIffCannotOvershoot`).
* An ingest inside a request never beats. Its row is safe for exactly one lease (`SyncIngest.TakenRowIsSafe`); a request that
  takes longer can lose the row to a worker (`SyncIngest.LongRequestLosesRow`), and then ends it over the worker's head
  (`SyncIngest.SyncIngestEnds`).
* The transaction helper of the ingest job repository, unlike the wiki's, joins a transaction that an earlier read began
  (`WikiTransactions.IngestBlockCommits`).

## Model

| member | source | states |
|---|---|---|
| `IngestJobs.SelectNext` | worker/ingest_worker.py:89-114 | the claim statement finds a row iff one is eligible and unlocked, and then the first of all those by creation time and id |
| `IngestJobs.ErrorMessage` | worker/ingest_worker.py:508-510 | the stripped message, or the class name when that is blank; never empty |
| `IngestJobs.ClaimCallMeetsOutcome` | worker/ingest_worker.py:131-162 | the claim loop refines a one-pass reference: it hands out the first claimable row with an attempt left, fails exactly the claimable exhausted rows before it (all of them when it hands out none), and leaves every other row alone |
| `IngestJobs.ClaimOutcomeUnique` | worker/ingest_worker.py:131-162 | that reference determines both the table and the result |
| `IngestJobs.ClosingShrinks` | worker/ingest_worker.py:145-158 | each further turn of the claim loop has fewer open rows, so the loop ends |
| `MovingClock.ExactIffCannotOvershoot` | worker/ingest_worker.py:131-162 | every clock that starts at a given time makes the loop do exactly what one pass does at its last read iff the table before the call cannot overshoot: no exhausted row comes first at the first read, or none can be failed before an earlier usable row becomes claimable |
| `MovingClock.NeverOvershoots` | worker/ingest_worker.py:131-162 | at a table that cannot overshoot every call is exact |
| `MovingClock.SomeClockOvershoots` | worker/ingest_worker.py:131-162 | at any other table some clock makes the call fail a row that comes after the one it hands out |
| `MovingClock.ExactIffAllBefore` | worker/ingest_worker.py:145-162 | one call is exact iff every row it failed comes before the row it hands out |
| `MovingClock.LoopFacts` | worker/ingest_worker.py:131-162 | under any clock the call hands out the first usable row at its last read, fails every earlier candidate, and any row it fails was the first candidate as soon as it was claimable |
| `MovingClock.CallThatOvershoots` | worker/ingest_worker.py:131-162 | two rows and a clock that reads 10 and then 15: the newer row is failed and the older one handed out |
| `JobQueue.DatabaseIngestJobQueue.ClaimNextPending` | worker/ingest_worker.py:131-162 | the claim carries the tenant, source, bucket and key of the row it was found on, one attempt more and this worker's lock; that row was due at the last read of the clock, had an attempt left, was not locked, and came before every other such row by creation time and id; every other row is unchanged, or was due without an attempt left and is failed. Besides, the call does what the loop as a function of the clock does, so all of the above holds of it |
| `JobQueue.DatabaseIngestJobQueue.Heartbeat` | worker/ingest_worker.py:170-177 | goes through iff the row is there, processing, and locked by the claim's lock; then only its heartbeat time changes; otherwise it says which of the three failed and changes nothing |
| `JobQueue.DatabaseIngestJobQueue.UpdateStatus` | worker/ingest_worker.py:179-196 | under the same condition the row gets the status and error and loses its lock; otherwise nothing changes |
| `JobQueue.IngestWorker.ProcessJob` | worker/ingest_worker.py:248-294 | heartbeats stop before the one status write, and each write checks the lease on the table as others have left it by then: the row ends succeeded, or failed with the exception's text, or the check's error is raised and nothing is written |
| `JobQueue.BeatsStampTheRow` | worker/ingest_worker.py:343-352 | while others leave the row alone, however else they change the table, heartbeats change its heartbeat time and nothing else, to the time of the last beat, and only if the claim passes the lease check |
| `IngestService.FindJob` | app/ingest_service.py:228-235 | with the unique key, finds the row of a tenant and source iff there is one |
| `IngestService.WriteKeepsUnique` | app/ingest_service.py:146-178 | writing a row under its own key, or a new row under a free key, keeps the key unique |
| `IngestService.IngestJobRepository.UpsertJob` | app/ingest_service.py:146-178 | creates or overwrites exactly one row for every status, field by field; `pending` clears attempts, stamps, lock and error and sets the attempt limit; an existing row keeps its creation time |
| `IngestService.IngestJobRepository.UpdateStatus` | app/ingest_service.py:204-257 | taking the row stamps claim and heartbeat with the current time, locks it as `api-sync` and counts one more attempt; finishing sets status and error and releases the lock; neither asks who owns it; no other field and no other row changes |
| `IngestService.DocumentIngestService.CreatePendingJob` | app/ingest_service.py:274-331 | afterwards the source's row is pending under the uploaded key, or failed with the upload's error, or pending under the staged key when that or the second write raises; no other row changed |
| `IngestService.DocumentIngestService.IngestDocument` | app/ingest_service.py:333-399 | afterwards the source's row is succeeded, or failed with the error of the work or of a status write, which is raised; when marking it failed raises too it stays pending or under the `api-sync` lock; no other row changed |
| `IngestService.DocumentIngestService.MarkIngestFailed` | app/ingest_service.py:473-490 | the row is failed with a non-empty error, or left as it is when that write raises |
| `LeaseProtocol.FencedStep` | worker/ingest_worker.py:131-196 | every step of a worker, with a clock that may move during a claim call, and of the API keeps the fence: an outstanding claim owns its row iff it is the row's latest change of ownership |
| `LeaseProtocol.FencedRun` | worker/ingest_worker.py:131-196 | the fence holds in every state that any interleaving reaches |
| `LeaseProtocol.AtMostOneClaimPasses` | worker/ingest_worker.py:389-395 | in every reachable state at most one outstanding claim on a row passes the lease check, and it is the most recent one |
| `LeaseProtocol.LostForever` | worker/ingest_worker.py:170-196 | after any further run, a claim that was superseded can change no row by heartbeat, success or failure |
| `LeaseProtocol.ReclaimedIsLost` | worker/ingest_worker.py:131-162 | a claim is superseded by any claim call that changes its row |
| `LeaseProtocol.ApiWriteIsLost` | app/ingest_service.py:204-257 | and by every reset, take or final status that the API writes to its row |
| `LeaseProtocol.SharedWorkerIdBreaksFence` | worker/ingest_worker.py:389-395 | with one worker id on two processes a superseded claim does pass the check and ends the other's job |
| `LeaseProtocol.LateWriteHitsTheOwner` | worker/ingest_worker.py:179-196 | in any state a final status written on a lease check of an earlier table ends another worker's current claim |
| `LeaseProtocol.SplitWriteBreaksFence` | worker/ingest_worker.py:179-196 | a legal run of two workers in which a claim call between the check and the write lets a lost claim end the other's job |
| `JobCoherence.CoherentStep` | app/ingest_service.py:204-257 | every step keeps each row coherent: pending has no attempts, stamps or lock; processing is locked and stamped without an error; a final row is unlocked; succeeded has no error and failed a non-empty one |
| `JobCoherence.CoherentRun` | worker/ingest_worker.py:366-386 | rows are coherent in every reachable state |
| `JobCoherence.ExhaustionOnlyAfterExpiry` | worker/ingest_worker.py:376-386 | the claim loop fails a row only when its processing lease has expired and its attempts are used up |
| `JobCoherence.CallChanges` | worker/ingest_worker.py:145-162 | the rows that a claim call changes, which the budget counts, are exactly the row it hands out and the rows it fails |
| `JobCoherence.WorkerRunIsBounded` | worker/ingest_worker.py:131-196 | in any run without API steps attempts never exceed their limit, and claims, ends and exhaustion failures together are at most the sum over open rows of the attempts left plus one |
| `JobCoherence.TerminalRowsStay` | worker/ingest_worker.py:89-114 | a row that has ended stays as it is in any run in which the API leaves it alone |
| `JobCoherence.DocumentStays` | worker/ingest_worker.py:366-386 | no run takes a row away, gives it to another tenant or source, or changes when it was created |
| `JobCoherence.ClaimsMatchInRun` | worker/ingest_worker.py:45-56 | after any run an outstanding claim names the tenant and source of its row, and as long as it owns the row also its bucket, key and attempts |
| `LeaseTiming.IntervalBounds` | worker/ingest_worker.py:218-221 | the heartbeat interval is below the lease iff the lease exceeds 0.1 s, and at most a third of it iff it is at least 0.3 s |
| `LeaseTiming.SelectableIffExpired` | worker/ingest_worker.py:101-107 | a claimed row can be selected iff it is unlocked and its last heartbeat is at least one whole lease old |
| `LeaseTiming.OwnerKeepsJob` | worker/ingest_worker.py:101-107 | while its last heartbeat is younger than the lease at every claim call, an owner's claim passes the lease check after any interleaving |
| `LeaseTiming.OneMissIsSafe` | worker/ingest_worker.py:343-352 | one missed beat plus delays under a third of the lease never lets the lease expire |
| `LeaseTiming.ScheduleKeepsJob` | worker/ingest_worker.py:343-352 | an owner whose heartbeat loop never misses twice in a row and is delayed by under a third of the lease still owns its row after any interleaving |
| `LeaseTiming.ExpiredAfterTwoMisses` | worker/ingest_worker.py:218-221 | in every state, after two missed beats without delay the row can be selected when the third attempt is due iff the lease is at most 180 s |
| `LeaseTiming.TwoMissesLoseJob` | worker/ingest_worker.py:343-352 | and then the claim is lost to the first worker whose claim call finds no other row free |
| `SyncIngest.AttemptsCountHandOuts` | worker/ingest_worker.py:366-386 | in any run in which the API leaves a row alone its attempts go up by exactly the times it is handed out, and not beyond its limit |
| `SyncIngest.SyncIngestEnds` | app/ingest_service.py:333-399 | with any steps of workers, and of the API on other rows, before, between and after the request's writes, the row ends as the request says, unlocked, every claim on it lost, with one attempt more than workers were handed it |
| `SyncIngest.TakenRowIsSafe` | app/ingest_service.py:246-252 | a request that takes a row at time t keeps it exactly as it left it, under `api-sync`, through any interleaving in which every claim call decides before t plus the lease; from then on, and not before, the row can be selected |
| `SyncIngest.LongRequestLosesRow` | app/ingest_service.py:246-252 | a request never beats: once a lease has passed, the first worker that finds no other row free gets the row, or fails it if its attempts are used up |
| `SyncIngest.QueueingEnds` | app/ingest_service.py:274-331 | likewise for a queueing request: claims from before its second write are lost; after an upload the row carries its key and counts the hand-outs since; after a failed one it stays failed and unlocked |
| `ClaimTransactions.InvStep` | worker/ingest_worker.py:108-114 | every step of concurrent claim transactions, among all other steps of the protocol, keeps their locks disjoint and their uncommitted writes fitting the committed rows |
| `ClaimTransactions.SelectableRows` | worker/ingest_worker.py:108-114 | what a transaction can still select are exactly the committed claimable rows that nobody has locked |
| `ClaimTransactions.ClaimsFirstUnlocked` | worker/ingest_worker.py:131-162 | a row handed out is the first among the committed, claimable, non-exhausted and unlocked ones |
| `ClaimTransactions.CommitIsClaim` | worker/ingest_worker.py:131-162 | a committed claim transaction is one claim call of the atomic protocol that skipped the rows it did not lock |
| `ClaimTransactions.RefinesProtocol` | worker/ingest_worker.py:108-162 | whatever the interleaving, the committed state is the one that a legal run of the atomic protocol reaches |
| `ClaimTransactions.ConcurrentClaimsAreFenced` | worker/ingest_worker.py:389-395 | so at most one outstanding claim on a row passes the lease check, with claim transactions running at the same time |
| `ClaimTransactions.LocksAreDisjoint` | worker/ingest_worker.py:108-114 | in every interleaving two transactions hold disjoint row sets and never claim the same row |
| `ClaimTransactions.CommitIsExact` | worker/ingest_worker.py:131-162 | a commit writes updates of the rows as committed then |
| `ClaimTransactions.HandedOutOncePerLease` | worker/ingest_worker.py:101-107 | a row is handed out again only a whole lease after its last hand-out or heartbeat, unless the API has written to it since |
| `Paths.WorkerFindsStagedPath` | app/ingest_service.py:423-457 | from a stored job the worker computes exactly the staged path and the output directory of the API |
| `StagedDocuments.ClaimFindsStagedDocument` | worker/ingest_worker.py:406-424 | for every document that the API stages and queues, and after any interleaving, the claim that owns the row leads its worker to the same tenant, source, key, staged path and output directory |
| `Paths.PreparedIff` | app/ingest_service.py:423-457 | staging accepts exactly a file whose tenant, source id (the given one, or the digest if it is empty) and name are plain segments once stripped, and makes paths and key of the three |
| `Paths.WorkerStaysInside` | worker/ingest_worker.py:484-505 | whatever a row holds, the worker's path is one plain segment below the directories of the row's own tenant and source, or the row is refused |
| `Paths.NameOfKey` | worker/ingest_worker.py:495-505 | a key of three segments gives its file name back |
| `Paths.RawKeysInjective` | app/s3_assets.py:239-247 | documents with one raw key have the same tenant, source and file name, up to surrounding whitespace |
| `Paths.OutputKeysInjective` | app/s3_assets.py:249-276 | files with one output key have the same tenant and source and are the same file |
| `WikiTransactions.InsideTransaction` | wiki/repository.py:59-72 | a program inside a transaction that all its blocks join adds its writes to it and neither commits nor rolls back, at any nesting depth |
| `WikiTransactions.CallersTransactionStaysOpen` | wiki/repository.py:65-72 | in a transaction that the caller began, at any depth, every program leaves it open and uncommitted, with its writes added |
| `WikiTransactions.InnerBlockStaysOpen` | wiki/repository.py:59-61 | so does every program inside a block of the helper |
| `WikiTransactions.IngestHelperJoinsAny` | app/ingest_service.py:137-144 | so does the ingest helper in every open transaction, whoever began it |
| `WikiTransactions.OutermostBlock` | wiki/repository.py:57-93 | an outermost block commits everything on normal exit and nothing on an exception; afterwards no transaction is open and the depth is zero |
| `WikiTransactions.InnerBlocksDoNotMatter` | wiki/repository.py:59-61 | taking every inner block away changes nothing |
| `WikiTransactions.RunsAsFlat` | wiki/repository.py:57-93 | any sequence of reads, writes, handlers and nested blocks runs as if each outermost block were one atomic step; an earlier read never suppresses a commit |
| `WikiTransactions.NothingLeftPending` | wiki/repository.py:57-93 | when all writes are in blocks, nothing is ever left uncommitted |
| `WikiTransactions.IngestBlockCommits` | app/ingest_service.py:137-144 | the ingest repository's block ends the transaction iff none was open, and does not commit inside one begun by a read |
| `WikiTransactions.RepositorySession.Transaction` | wiki/repository.py:57-93 | in a transaction of the caller, or inside another block, only the writes are added; otherwise the block commits them all or none and leaves no transaction open and the depth at zero; it does what the interpreter says |
| `WikiTransactions.RepositorySession.Execute` | wiki/repository.py:57-93 | so does a whole program with blocks through the helper |
| `WikiServices.DedupeSlugs` | wiki/repository.py:39-49 | the loop keeps each slug at its first occurrence |
| `WikiServices.WikiRepository.UpsertPageRevision` | wiki/repository.py:149-192 | appends the next revision or overwrites the numbered one, and makes it current if asked |
| `WikiServices.WikiRepository.ReplaceLinksForPage` | wiki/repository.py:232-251 | the page's rows become the deduplicated targets, and no other row changes |
| `WikiServices.WikiRepository.ListBacklinks` | wiki/repository.py:307-318 | in a valid store, exactly the tenant's pages whose latest text links to the slug, once each |
| `WikiServices.WikiRepository.UpdateCompileJobStatus` | wiki/repository.py:476-490 | writes status and error to that job alone, or reports that it does not exist |
| `WikiServices.WikiService.CreateOrUpdatePage` | wiki/service.py:155-201 | creates or updates one page, appends its revision and rebuilds its links; keeps the store valid and the history as a prefix |
| `WikiServices.WikiService.CreateRevision` | wiki/service.py:225-254 | appends a revision to an existing page and rebuilds its links, or fails and changes nothing |
| `WikiServices.WikiService.PublishPage` | wiki/service.py:203-217 | makes the chosen revision of that page current, and nothing else but the status changes |
| `WikiServices.WikiService.AddClaimWithSources` | wiki/service.py:256-298 | adds one claim on the current revision with one row for each source, or fails and changes nothing |
| `WikiServices.WikiService.GetBacklinks` | wiki/service.py:317-318 | the backlinks of the slug of any spelling, or an error when it has none |
| `WikiInvariants.PerformKeeps` | wiki/service.py:155-298 | every service operation keeps the store invariant: unique slugs, revision numbers 1..n, an own current revision, and link rows equal to the latest text's wikilinks |
| `WikiInvariants.RunKeeps` | wiki/service.py:155-298 | so does every run, and no stored revision ever changes |
| `WikiInvariants.MaxNoIsCount` | wiki/repository.py:455-461 | the next number is the page's revision count plus one |
| `WikiInvariants.UpsertPreservesHistory` | wiki/repository.py:149-192 | with an explicit number the history is kept iff the page has no such revision or has it unchanged |
| `WikiInvariants.NumberedUpsert` | wiki/repository.py:149-192 | with an explicit number the revision of that number, new or in place, holds what was given; no other stored revision changes, and the current one only if asked |
| `WikiInvariants.SavedPageIsFound` | wiki/service.py:219-223 | a page saved under one spelling is found under every spelling with its slug, at the saved revision, which has the next number and holds the given text, format, summary and author |
| `WikiInvariants.SavePageTouchesOnePage` | wiki/service.py:155-201 | saving sets title, type and status of one page and leaves every other page's row, history and links, and all claims, sources, results and jobs, as they were |
| `WikiInvariants.RevisionIsAppended` | wiki/service.py:225-254 | a revision goes to the page found under any spelling, with the next number and the given text, format, summary and author, and becomes current; the page's links become those of the text; nothing else changes; the two errors |
| `WikiInvariants.PublishingChooses` | wiki/service.py:203-217 | without a number the current revision stays current; with one, exactly the numbers of the page's history are accepted, and that revision becomes current; the status becomes published and nothing else changes; the three errors |
| `WikiInvariants.ClaimIsAttached` | wiki/service.py:256-298 | a claim goes on the current revision with the given text, support and confidence, and one row for each given source in order; the two errors |
| `WikiInvariants.BacklinksAreExact` | wiki/repository.py:307-318 | backlinks are exactly the tenant's pages whose latest text links to the slug, once each |
| `WikiInvariants.IndexFollowsLatest` | wiki/service.py:203-217 | after publishing, a page's link rows match its current text iff that text links to what the latest one links to |
| `WikiInvariants.PublishedTextCanDisagree` | wiki/service.py:203-217 | saving a page, revising it and publishing the first revision leaves its first text current and its links those of the later text, from any store |
| `WikiInvariants.EmptyTextWithBacklink` | wiki/service.py:203-217 | the smallest such run: a page whose published text is empty is a backlink of the later text's target |
| `Validation.BrokenTargetsAreExact` | wiki/validators.py:95-114 | the reported slugs are exactly the distinct wikilinks with no page in the tenant, in first-occurrence order |
| `Validation.BrokenTargetsAreReported` | wiki/validators.py:95-114 | each is one error that names it; text that is not Markdown has none |
| `Validation.UnsupportedIff` | wiki/validators.py:117-146 | the validator of claims reports nothing iff every claim on the current revision is confirmed, and an error iff one is unsupported |
| `Validation.RunReportsInOrder` | wiki/validators.py:269-273 | every validator's issues are in the run, in the order of the validators |
| `Validation.WikiValidationService.ValidatePage` | wiki/validators.py:228-255 | validates the current revision and replaces exactly its stored results |
| `Validation.WikiValidationService.RunValidators` | wiki/validators.py:269-273 | the issues of all validators, in order |
| `Validation.ResultsReplaced` | wiki/repository.py:338-368 | after a run, a revision's results are the run's and every other revision's are as before |
| `Validation.OnlyTitlesAreDuplicates` | wiki/validators.py:174-216 | after any run of the service a duplicate is reported iff another page of the tenant has the title, and only as a warning: the duplicate-slug error never arises |
| `Validation.CreatingReportedPagesRepairs` | wiki/validators.py:95-114 | creating a page under each reported slug makes the next run report none |
| `Slugs.SlugifyIsScan` | wiki/service.py:129-134 | the staged normaliser agrees with a one-pass reference on every text |
| `Slugs.SlugifyNormalForm` | wiki/service.py:129-134 | every output is a slug, and the fixed points are exactly the slugs |
| `Slugs.SlugifyIdempotent` | wiki/service.py:129-134 | normalising twice is normalising once |
| `Slugs.SlugSurvivesPrinting` | wiki/compiler.py:675-677 | removing brackets and collapsing whitespace keep the slug of every text |
| `Wikilinks.ExtractWikilinks` | wiki/service.py:137-148 | the loop yields the distinct slugs of all matches in first-occurrence order |
| `Wikilinks.LinkedSlugsAreSlugs` | wiki/service.py:137-148 | what is extracted are distinct, non-empty slugs in normal form |
| `Wikilinks.TargetsAreTheLinks` | wiki/service.py:15 | the scan finds exactly the texts that stand in double brackets at some position, non-empty and without a bracket or newline: skipping past a match passes over none |
| `Wikilinks.TargetsByLine` | wiki/service.py:15 | no match crosses a newline: a text is scanned line by line |
| `Wikilinks.BulletTargets` | wiki/compiler.py:668-677 | a bullet with one printed link is read back as that link |
| `Evidence.ExtractSources` | wiki/compiler.py:498-545 | the loops yield the sources of the candidate items, each key once |
| `Evidence.FlattenIsReach` | wiki/compiler.py:559-575 | flattening yields exactly the source items reached through lists and identity-free objects, at any depth |
| `Evidence.CandidatesAreOffered` | wiki/compiler.py:548-556 | the candidates are exactly the metadata itself, if it has an identity, and the items reached from a collection key |
| `Evidence.IdentityIsAKey` | wiki/compiler.py:615-616 | an object has an identity iff one of its keys is a source, chunk or document key |
| `Evidence.ListsFlattenInOrder` | wiki/compiler.py:559-575 | flattening keeps the order of lists |
| `Evidence.CandidatesInOrder` | wiki/compiler.py:548-556 | the metadata comes first, then the collections in the order of their keys |
| `Evidence.SourcesInOrder` | wiki/compiler.py:531-545 | of the sources with one key the first is kept, in the order of first occurrence |
| `Evidence.TextIsReadStripped` | wiki/compiler.py:619-631 | text is read stripped, blank text and null not at all, other values as they are printed |
| `Evidence.PageNumberReadsBack` | wiki/compiler.py:634-643 | a page number is read from a number and from its printed form, with any whitespace around it |
| `Evidence.SourcesDistinctNonEmpty` | wiki/compiler.py:498-545 | the result is never empty and holds no two sources with the same id, chunk, entity, relation and quote |
| `Evidence.NoSourceLost` | wiki/compiler.py:498-545 | every offered item that yields a source is represented by one with the same five fields |
| `Evidence.ObjectYieldsSource` | wiki/compiler.py:578-612 | an object yields a source iff an id key holds text or a fallback id is given |
| `Evidence.NoSourceInvented` | wiki/compiler.py:498-651 | every source stands for the query, with the stripped fallback id or `rag-query` and the query and metadata on record, or comes from an offered item: one from an object has exactly the id (or the fallback id), texts, page number and box of its first non-blank listed keys; one from text has the fallback id if one is given and else the text as its id, and the text as its URI iff it starts with a slash or holds `://`; the item is on record |
| `Evidence.EmptySourceIdIff` | wiki/compiler.py:578-590 | a source has an empty id iff the empty text is offered and there is no fallback id |
| `Evidence.EmptySourceId` | wiki/compiler.py:578-590 | the metadata `{"sources": [""]}` yields one |
| `Extraction.TruncateExceedsByTwo` | wiki/compiler.py:717-721 | a truncated text is at most two characters over its limit, and over it iff something was cut |
| `Extraction.DedupeNonEmptyLoop` | wiki/compiler.py:703-714 | the loop yields the first distinct normalised texts, up to the limit |
| `Extraction.KeepsFirstOccurrences` | wiki/compiler.py:703-714 | what is kept is in the order of first occurrence |
| `Extraction.ClaimTextsFacts` | wiki/compiler.py:382-443 | claims are pairwise distinct, whitespace-normalised, non-empty, at most 8 and at most 702 characters long; below 8 none is missing |
| `MarkdownNoise.MarkersAreDropped` | wiki/compiler.py:428-436 | for every heading marker, bullet and list number, one of each at most, and any whitespace around them, cleaning leaves the words of the text, or nothing of a label of up to five words |
| `MarkdownNoise.HashesStay` | wiki/compiler.py:428-436 | more than six hashes, or hashes without whitespace after them, stay |
| `MarkdownNoise.TightMarkersStay` | wiki/compiler.py:428-436 | so do a bullet and a number without whitespace after them |
| `MarkdownNoise.CleanClaimByLength` | wiki/compiler.py:421-425 | a cleaned claim is dropped below 12 characters, kept up to 700, and else cut after 698 or 699 and marked with dots |
| `MarkdownNoise.SummaryIsCleanedAnswer` | wiki/compiler.py:439-443 | the summary is the cleaned answer, cut at 1200 characters, or a fixed sentence |
| `ExtractedTexts.CandidatesComeFrom` | wiki/compiler.py:382-391 | the candidates are the cleaned stated claims, or the cleaned lines of the answer when none is stated, or the whole answer when nothing else is left |
| `ExtractedTexts.FirstLineEnds` | wiki/compiler.py:385 | an answer is split at every line end, `\r\n` counting once |
| `ExtractedTexts.ValueTexts` | wiki/compiler.py:404-418 | text stands for itself, an object for its first listed key with any text, other values but lists for none |
| `ExtractedTexts.ListTextsInOrder` | wiki/compiler.py:404-418 | a list stands for the texts of its elements in order, at any depth |
| `ExtractedTexts.OpenQuestionsFacts` | wiki/compiler.py:492-495 | the questions are the first 8 distinct normalised ones, or a placeholder when there are none |
| `ExtractedTexts.KeyConceptsFacts` | wiki/compiler.py:446-452 | the concepts are the first 10 distinct normalised ones under three keys, or the title when there are none |
| `Extraction.ExtractRelatedPages` | wiki/compiler.py:472-489 | the loops choose the first names by slug, up to the limit |
| `Extraction.RelatedPagesFacts` | wiki/compiler.py:472-489 | the chosen names have distinct, non-empty slugs other than the page's own; below 8 every such slug is chosen |
| `ExtractedTexts.RelatedPagesAreFirst` | wiki/compiler.py:472-489 | the slugs of the chosen pages are the first 8 distinct ones among the named pages and then the sources, in order |
| `Rendering.PrintedLinkReadsBack` | wiki/compiler.py:675-677 | a name with a slug is printed as a link that is read back as that slug |
| `Rendering.RelatedSectionReadsBack` | wiki/compiler.py:668-677 | the printed related section is read back as the chosen slugs, in order |
| `Rendering.RenderedLinks` | wiki/compiler.py:358-379 | the links of a rendered page are those above, then the chosen slugs in order, then those below |
| `Rendering.EveryRelatedPageIsExtracted` | wiki/compiler.py:358-379 | for any title, evidence and claims, every chosen page's slug is extracted from the rendered page |
| `Rendering.PageInSections` | wiki/compiler.py:358-379 | a page is its six sections in order, separated by blank lines |
| `Rendering.PrintedClaimsReadBack` | wiki/compiler.py:668-672 | the printed claims are read back line by line, one bullet for each saved claim, in order |
| `LinkOrder.RelatedPagesInOrderIff` | wiki/compiler.py:358-379 | they are extracted in the chosen order iff the links above leave that order alone |
| `LinkOrder.CompiledInOrderIff` | wiki/compiler.py:224-269 | the same of the page that a compile saves, for every request and answer |
| `LinkOrder.OrderCanBeLost` | wiki/compiler.py:382-391 | for any two pages (slugs of up to 600 characters), a request without a source id that is answered by a link to the second one saves a page in which the order is lost |
| `LinkOrder.CompileCanLoseOrder` | wiki/compiler.py:182-222 | such a topic compile succeeds from any store, and the text that it stores has lost the order |
| `CompiledStore.CompileConserves` | wiki/compiler.py:224-269 | a compile that saves the page and n claims appends exactly one revision, makes it current, and adds exactly n claims on it, each with exactly the evidence's sources; other claims keep theirs |
| `CompiledStore.CompileTouchesOnePage` | wiki/compiler.py:224-269 | every other page, its history and its links stay as they were |
| `CompiledStore.WritesKeep` | wiki/compiler.py:224-269 | wherever a compile stops, the store is valid and its history is kept |
| `CompiledStore.CompiledLinks` | wiki/service.py:346-358 | the compiled page is among the backlinks of a slug iff its new text links to it |
| `CompiledIssues.CompiledPageIssues` | wiki/validators.py:95-150 | validating a compiled page reports none of its claims, and as broken exactly the links of its new text that have no page |
| `Compiler.CompileOutcome` | wiki/compiler.py:151-269 | from any store and for exceptions at any write, those of the job included, a compile either saves everything exactly once and returns the page, or returns the last exception with what was saved before it left in place |
| `Compiler.CompileEndsItsJob` | wiki/compiler.py:300-323 | the job ends, succeeded with a page or failed with the caller's exception as its error, iff nothing raises when it is created, marked as processing or marked as failed; otherwise there is none, or it stays pending or processing |
| `Compiler.CompileWritesOnePage` | wiki/compiler.py:224-298 | any compile, whatever it raises: on success the page under the request's slug, old or new, keeps its title or gets the request's, and the new revision is the agent's and current; other pages keep row, history and links |
| `SlugTitles.TitleHasItsSlug` | wiki/compiler.py:684-686 | the title made from a slug has that slug |
| `SlugTitles.UntitledPageIsFound` | wiki/compiler.py:287-298 | a page compiled without a title keeps the one it has, and a new one gets a title with its slug |
| `Compiler.CompileStoresAnswer` | wiki/compiler.py:224-285 | a compile succeeds only with an answer to the request's query, and then the new revision is the page rendered from that answer, with its summary, and the new claims are its claims in order, supported, each with exactly the sources of the metadata |
| `Compiler.RelatedPagesLinkBack` | wiki/compiler.py:472-489 | after a successful compile the page is among the backlinks of every related page chosen from the evidence |
| `Compiler.RecompileContinuesPage` | wiki/compiler.py:287-298 | compiling a slug again keeps page and title and takes the next revision number |
| `Compiler.SourceRequestIsRequest` | wiki/compiler.py:151-162 | the page is the target's if one is given and else that of the title "Source ..."; query, source id, title and job are those of the stripped id; rejected iff the id is blank or a given target has no slug |
| `Compiler.TopicRequestIsRequest` | wiki/compiler.py:182-206 | the page is the target's if one is given and else the topic's; the query is the given one unless blank, the evidence is attributed to the given source id, the job to the stripped one or to the page; rejected iff the topic is blank or what names the page has no slug |
| `Compiler.WikiCompiler.UpdateExistingPageWithEvidence` | wiki/compiler.py:224-269 | saves the page and then each claim, stopping at the first exception |
| `Compiler.WikiCompiler.RunJob` | wiki/compiler.py:300-323 | the job's statuses are committed in the order pending, processing, then succeeded or failed, as far as nothing raises |
| `Compiler.WikiCompiler.CompileSourceToPages` | wiki/compiler.py:151-180 | a rejected request changes nothing; an accepted one runs its job; on success the page found under the target's slug, or the title's without a target, has one more revision, which is current; pages under other slugs and of other tenants are unchanged whatever is raised |
| `Compiler.WikiCompiler.CompileTopicPage` | wiki/compiler.py:182-222 | the same for a topic, whose page is the target's or the topic's |

Rows for methods of `WikiServices` and `Compiler.WikiCompiler` say that the code that updates the tables in place performs
the operation of the same name; what the operations keep and mean is in the rows of `WikiInvariants`, `CompiledStore` and
`Compiler`.

## Left out

- HTTP routes, schemas, health checks, logging, settings and migrations: plumbing and field copying.
- The RAG runtime and the document parsers: wrappers over libraries that are not part of this model.
- boto3 calls, file copying, file hashing, threads, signals and task cancellation; of these only the rule that heartbeats
  stop before a job is finalised is kept.
- The worker's poll loop (`run`, `run_once`): the protocol allows any sequence of its steps.
- SQLAlchemy's identity map and object identity: rows are values in a map or a sequence that the methods reassign, so
  aliasing of a loaded row is not captured. `FOR UPDATE SKIP LOCKED` is a set of locked rows.
- Races between two callers that create the same page, revision or job row, and failures of a commit.
- `StalePageValidator`: it stands for any list of issues.
- `rebuild_links_from_markdown`: it replaces the index by that of a foreign text on purpose.
- The order in which backlinks, results and revisions are listed, the `content_json` column, and issue metadata other than
  the target.
- Text outside ASCII, where NFKC and combining marks can make a bracket or a separator appear.
- IngestService.DocumentIngestService.IngestDocument: its contract assumes that nobody else writes to the row during the call;
  `SyncIngest.SyncIngestEnds` states what holds when workers do. A second request for the same source in between, and an
  exception of the first write, which ends the call with nothing written, are not modelled.
- IngestService.DocumentIngestService.CreatePendingJob: assumes and leaves out the same; `SyncIngest.QueueingEnds` is for workers.
- Paths.RawKeysInjective: file names are compared as the last path segment of the local path, not as files.
