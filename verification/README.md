# A verified model of the shellui hosting service

The project models the parts of the service where several actors touch the same state, and proves what
those parts are for.

- **Outbox delivery** (`WebhookRetry`, `Outbox`, `OutboxRuns`, `OutboxOutcomes`, `DeliveryService`, `RetryStats`,
  `RetryBook`, `RetryRun`). Dispatch threads, retry workers, claimers, operators and crashes interleave freely over
  one table of rows. A delivery is three atomic steps: read and snapshot under a lock, send outside every lock, then
  relock, compare the attempt count and record. `Outbox` is the step relation, `OutboxRuns` holds the theorems about
  all runs, `OutboxOutcomes` says what every recorded outcome leaves and what the statuses say of the sends,
  `DeliveryService` has the methods that change the tables, each proved to take exactly its steps, and `RetryRun` is
  the bounded retry loop. `RetryBook` says which worker delivers which claimed row and whose result has been counted,
  and `RetryStats` is what the statistics count.
- **Deployments and what they serve** (`Text`, `Paths`, `FileTree`, `StorageKeys`, `Extract`, `ArchiveMembers`,
  `Hosting`, `HostingRuns`, `HostingReplies`, `HostingService`, `Serve`, `Pages`). Storage keys become paths in a
  directory tree; an archive is extracted into a deployment's own subtree under three limits; a deployment moves
  through its statuses; a cache sits in front of the app lookup; a request picks one stored file. `Extract` and
  `HostingService` work on a disk with files and directories, `Hosting` and `HostingRuns` on the state those methods
  are proved to produce. `ArchiveMembers` ties what is extracted to the members of the archive, `HostingReplies` says
  when each request is refused and what it leaves, `Pages` which file answers a path.
- **Scheduled jobs** (`Jobs`, `JobCounts`, `JobSteps`, `JobRuns`, `JobService`, `JobSchedule`). The Redis lock, the
  run rows, the sweep that closes rows of dead runs, the counters and the purge of old rows, under any interleaving.
  Writing a row and raising its counter are two steps, and a process may die or fail before each.
- **Company deletion** (`CompanyDeletion`, `DeletionPaths`, `DeletionOrder`). The multi-pass delete, what it deletes
  and spares in terms of rows and references, and exactly when it works.
- **Throttling** (`Throttle`). The cached sliding-window log against a plain count.

Time is an integer number of microseconds (seconds in `WebhookRetry`). Each system has one clock that does not
go back. Calls into libraries are parameters: the result of a send, `unquote`, the tar parser, the time that
passes.

## Findings

Ten statements one might expect of the code are false; each has a witness and the exact condition.

- A limit error does not always leave the extraction tree empty. A member name made of blanks is accepted, its
  key loses the blanks and is the tree's own key, so the tree becomes a plain file, which the tree deletion
  does not remove (`Extract.StrayFileStays`). `Extract.LimitLeavesNothing` says exactly when something stays.
- So a deployment can go live with a file its archive does not hold: after such a failure, uploading something that
  is no archive finalizes without an error and without a member (`HostingRuns.StrayFileGoesLive`). The deployment is
  current, and no path gets a file from it (`Serve.StrayFileIsNotServed`). `Extract.ArtifactTree` and
  `HostingRuns.FinalizeServesArchive` say exactly when the tree is what the archive says.
- A recorded artifact size does not mean that such an artifact is stored. The old artifact is deleted before the new
  one is saved, and the row is written last, so an upload that breaks off leaves the old size with a part of the new
  artifact or with none (`HostingRuns.SizeWithoutArtifact`), and a part that is no archive goes live without a file
  (`HostingRuns.BrokenUploadGoesLive`). What is stored is what the last upload that reached the storage left
  (`HostingRuns.ArtifactIsTheLastLeft`), so the size is right exactly when that has it
  (`HostingRuns.ArtifactsAreStored`).
- `normalize_relative_path` is not idempotent: `./c:/x` becomes `c:/x`, which is refused
  (`Paths.DriveLetterAppears`). It is a fixed point exactly when its result is no drive-letter path
  (`Paths.NormalizeIdempotentIff`).
- The company deletion is said to resolve PROTECT order over a few passes. PROTECT references without a circle
  are not enough for that when rows cascade (`DeletionOrder.ProtectAcyclicIsNotEnough`). The relation that counts
  is "protects something that goes along", and its being acyclic is necessary and sufficient
  (`DeletionOrder.ReliableIffAcyclic`).
- The documentation promises at most 8 attempts (docs/actions.md:71). The bound that holds is the maximum plus the
  requeues (`OutboxRuns.AttemptsBounded`), and it is reached for every number of requeues
  (`OutboxRuns.AttemptsReachBound`).
- The documentation says that a job never runs twice at the same time (docs/maintenance-jobs.md:44). Two runs under
  the lock can be at work together exactly when the first is still at work a TTL after it took the lock
  (`JobRuns.OverlapIffOutlived`). Runs without the lock, from an external scheduler or after a Redis error, overlap
  freely (`JobRuns.UnlockedOverlaps`).
- Each finished run is said to raise a counter (apps/actions/scheduled_jobs.py:6-11). A run that dies or fails
  between writing its row and raising the counter is never counted (`JobRuns.LostIncrement`), and a run that finishes
  after it was marked interrupted is counted twice (`JobRuns.LateRunsCountTwice`). `JobCounts.CountersExact` is the
  exact law of every history. A finished run has not been counted exactly when its process is between the two writes
  now or gave up or died there (`JobCounts.FinishUncountedIff`), and likewise for a swept row and the process that
  swept it (`JobCounts.SweepUncountedIff`). So if no run finishes late, the counters are the closed runs exactly when
  nobody is between the two writes and nobody has stopped there (`JobCounts.CountedOnce`).
- Deleting an app leaves it in the serve cache: its slug, which no app has any more, is still answered from the cache
  (`HostingRuns.DeletedAppIsFound`), exactly while the cache has a live entry for it (`HostingRuns.LookupOfFreeSlug`).
- Renewing a preview is not seen by requests at once: a site that has not expired is answered as expired
  (`Serve.RenewalIsMissed`), exactly while the cache holds a row in which it has (`Serve.ExpiredInCache`).

## Model

| member | source | states |
|---|---|---|
| WebhookRetry.DelayBounds | apps/actions/webhook_retry.py:53-67 | For every attempt number and answer the delay lies between min(3600, 30 * 2^(n-1)) and 3600 seconds, is exactly that lower bound without Retry-After, and 3600 from the eighth attempt on |
| WebhookRetry.RetryAfterHonoured | apps/actions/webhook_retry.py:64-67 | Retry-After lengthens the wait exactly on a 429 or 503 and when it is longer, then to its full value up to the hour, and never shortens it |
| WebhookRetry.DelayMonotone | apps/actions/delivery.py:29-30 | Without Retry-After later attempts never wait less |
| WebhookRetry.TotalWaitBounds | apps/actions/webhook_retry.py:53-67 | The first k waits of a row sum to at least 30 * (2^k - 1) for k up to 7, at least 3810 + 3600 * (k - 7) beyond, and at most 3600 * k, whatever the answers say, and to exactly the lower bound without Retry-After |
| Outbox.StepKeepsInv | apps/actions/delivery.py:147-354 | Every step of any actor, crashes and deletions included, keeps the invariant of rows, logs, leases and workers in flight |
| Outbox.Reachable | apps/actions/delivery.py:235-354 | The invariant holds in every state of every interleaving |
| OutboxRuns.AttemptLogExact | apps/actions/delivery.py:147-301 | In every interleaving a row's attempts are numbered exactly 1 to attempt_count, and each was recorded by one step of a worker and holds the outcome that this very worker obtained earlier under that very number |
| OutboxRuns.AttemptWasRecorded | apps/actions/delivery.py:290-301 | Every stored attempt was written by a definite phase three, of a worker whose snapshot was one below its number |
| OutboxRuns.DecisionsComeFromSteps | apps/actions/delivery.py:260-288 | Every recorded outcome was obtained by a definite earlier send, or rule check, of that row with that snapshot |
| OutboxRuns.SnapshotRecordedOnce | apps/actions/delivery.py:290-301 | Of all concurrent senders with the same snapshot at most one is recorded: later recorded ones have larger snapshots |
| OutboxRuns.LogOnlyGrows | apps/actions/delivery.py:176-185 | The attempts seen at one moment are a prefix of those seen later |
| OutboxRuns.TerminalRowsAreFinal | apps/actions/delivery.py:256-259 | A delivered or dead row and its log are changed by nothing but a requeue or a deletion, late results included |
| OutboxRuns.LeaseExclusion | apps/actions/delivery.py:328-354 | Two claims of a row without a requeue or a dry-run release in between are a lease apart, or an attempt was recorded in between and its schedule has come |
| OutboxRuns.ClaimGuards | apps/actions/delivery.py:338-354 | What a claim guarantees of the row at every later moment: an unexpired lease or a recorded attempt with a later schedule, until somebody disturbs it |
| OutboxRuns.ClaimedOncePerRun | apps/actions/delivery.py:406-449 | Claims made with one fixed now never take a row twice, for a lease of at least a second |
| OutboxRuns.NoLeaseNoExclusion | apps/actions/delivery.py:338-354 | A positive lease is needed for that: without one a run claims the same row twice with one now |
| OutboxRuns.NoRowGetsStuck | apps/actions/delivery.py:328-335 | Whoever died, a live row satisfies the claim filter from its last claim plus the lease and its last recorded attempt plus an hour on |
| OutboxRuns.ScheduleFitsStatus | apps/actions/delivery.py:200-220 | Exactly failed rows have a schedule, and terminal rows have no lease |
| OutboxRuns.RequeuesCounted | apps/actions/admin_api_views.py:473-478 | The requeues remembered of a row are the requeue steps of the run |
| OutboxRuns.AttemptsBounded | apps/actions/delivery.py:207-220 | Attempts never exceed max_attempts (at least 1) plus the number of requeues |
| OutboxRuns.AttemptsReachBound | apps/actions/admin_api_views.py:473-478 | The bound is reached: for every n a run with n requeues and the maximum plus n attempts |
| OutboxRuns.AttemptsRunOut | apps/actions/delivery.py:200-220 | From any live row at most max(1, max_attempts - attempt_count) further recorded attempts happen before it is delivered or dead, as long as nobody requeues it |
| OutboxOutcomes.RecordedOutcome | apps/actions/delivery.py:157-232 | In every interleaving, a verdict that finds the count it saw is recorded: delivered exactly on success, dead exactly on a permanent failure or the last attempt or a forbidding rule, failed otherwise and then due after the delay; one attempt more, with that result and HTTP status |
| OutboxOutcomes.LateVerdict | apps/actions/delivery.py:290-301 | A verdict that finds another count changes no row, and the delivery returns the row as it is, or fails when it is gone |
| OutboxOutcomes.StatusTellsLastAttempt | apps/actions/delivery.py:201-220 | In every reachable state a delivered row's last attempt is a success, a failed or dead row's a failure, and a pending row has attempts only after a requeue |
| OutboxOutcomes.DeliveredWasSent | apps/actions/delivery.py:281-301 | A row is delivered only if some earlier send for it succeeded, under the number of its last attempt |
| OutboxOutcomes.SendWasAllowed | apps/actions/delivery.py:246-288 | Whoever sends has read a pending or failed row that no rule forbids to send, and sends under the count read there |
| OutboxOutcomes.BeginDecides | apps/actions/delivery.py:246-288 | Phase one sends exactly the live rows that no rule forbids, holds a rejection for live webhook rows with a rule error, and returns everything else untouched |
| OutboxOutcomes.RequeuedCanBeClaimed | apps/actions/admin_api_views.py:473-478 | A requeued row can be claimed at any time, with its attempts kept and its error gone |
| OutboxOutcomes.ReleasedCanBeClaimed | apps/actions/delivery.py:463-468 | A row whose lease a dry run gave back can be claimed exactly when its status and schedule allow it |
| DeliveryService.Service.ClaimNext | apps/actions/delivery.py:338-354 | Takes exactly one claim step, on a row the filter accepts and nobody holds, or nothing when every such row is held by others |
| DeliveryService.Service.BeginDelivery | apps/actions/delivery.py:246-262 | Phase one is exactly one Begin step: rows missing or terminal end the delivery, others are snapshotted |
| DeliveryService.Service.FinishSend | apps/actions/delivery.py:281-288 | The send changes no row |
| DeliveryService.Service.ApplyDelivery | apps/actions/delivery.py:290-301 | Phase three is exactly one Apply step: recorded only when the attempt count is still the snapshot |
| DeliveryService.Service.StoreResult | apps/actions/delivery.py:157-232 | The field updates leave the status, dates, error and attempt that the result calls for, told by the result alone, and are those of the protocol |
| DeliveryService.Service.RequeueRow | apps/actions/admin_api_views.py:469-478 | A webhook row becomes pending without schedule, error or lease, attempts kept; other rows are not found |
| DeliveryService.Service.ReleaseLease | apps/actions/delivery.py:463-468 | A dry run gives back the lease of a row that still exists |
| DeliveryService.Service.Deliver | apps/actions/delivery.py:235-301 | With anything happening in between, a delivery takes itself exactly the steps its first phase calls for: none after a terminal row, no send for a refused rule, one send and one apply otherwise |
| RetryStats.EndingsBalance | apps/actions/delivery.py:357-384 | Every result has exactly one ending: processed is delivered plus retried plus dead, over all rows and over email rows |
| RetryStats.EmailIsPart | apps/actions/delivery.py:379-383 | Every email figure is at most the total figure |
| RetryStats.ReportSound | apps/actions/management/commands/retry_webhooks.py:12-31 | The reported counts are non-negative, add up for both kinds and cover every merged result whose row still existed |
| RetryStats.ReportMeans | apps/actions/management/commands/retry_webhooks.py:12-31 | Of each kind the report says how many merged rows came back at all, delivered, pending or failed, and dead |
| RetryBook.LoggedClaimsDistinct | apps/actions/delivery.py:406-449 | A run that claims with its fixed now claims no row twice unless it was disturbed in between |
| RetryBook.ClaimsRunOut | apps/actions/delivery.py:442-460 | An undisturbed run has claimed as many different rows as it has made claims, all of them existing ones |
| RetryBook.WorkStays | apps/actions/delivery.py:421-428 | A worker keeps its row for good, and what it returned |
| RetryBook.KeptOnward | apps/actions/delivery.py:421-432 | Whatever others do, every claim stays with its own worker, which delivers the claimed row, and every merged result stays what that worker returned |
| RetryBook.ClaimsBalance | apps/actions/delivery.py:430-432 | Claims are the processed rows, the rows found deleted and the deliveries whose results were not merged |
| RetryBook.ReportFits | apps/actions/management/commands/retry_webhooks.py:12-31 | The report of such a run counts the merged rows of each kind by the status they came back in |
| RetryRun.SubmitClaimed | apps/actions/delivery.py:474-476 | The claimed row, and no other, goes to a new worker, with the status the claim saw |
| RetryRun.Collect | apps/actions/delivery.py:443-447 | Each finished worker's own result is merged once with the status its claim saw; a worker that raised ends the run |
| RetryRun.DeliverInline | apps/actions/delivery.py:470-472 | Without a pool the result merged is that of the delivery just made |
| RetryRun.CountOnly | apps/actions/delivery.py:463-468 | A dry run counts the claimed row, by its kind, starts nothing and gives the lease back |
| RetryRun.OnePass | apps/actions/delivery.py:442-476 | One pass keeps the account and the book in step; it claims, merges, waits in vain, finds nothing free or meets a delivery that raised, and says which |
| RetryRun.ClaimLoop | apps/actions/delivery.py:442-476 | The loop claims at most batch size plus workers less one rows, plus one for each found deleted; it stops because the batch is full, time is up or no row was free, and makes no more passes than it claims rows, merges results and waits in vain, and one |
| RetryRun.Drain | apps/actions/delivery.py:478-483 | Waiting for the last deliveries merges results of workers under way, loses none, and ends only when none is left, a second after the deadline, or when all that are left are still under way |
| RetryRun.Shutdown | apps/actions/delivery.py:484-486 | No delivery that the run started is under way when it returns |
| RetryRun.RetryPendingWebhooks | apps/actions/delivery.py:387-489 | The statistics are those of the merged results, each of them what the worker of one claim returned; every claim is merged or, its delivery over, left out, and that only after waiting long enough; an error means that a delivery raised; an undisturbed run without a pool makes at most one pass more than there are rows |
| Paths.NormalizeExact | apps/hosting/paths.py:15-38 | The result is the join of exactly the components other than ".", and None exactly for absolute, empty or traversing paths; the last three checks never fire |
| Paths.NormalizedIsClean | apps/hosting/paths.py:15-38 | Every component of a result names something inside the directory, and no backslash is left |
| Paths.NormalizeIdempotentIff | apps/hosting/paths.py:15-38 | A result is a fixed point exactly when it is not a drive-letter path |
| Paths.DriveLetterAppears | apps/hosting/paths.py:12-38 | A family of accepted inputs whose result is refused |
| Paths.ServedPathsAreClean | apps/hosting/paths.py:56-67 | However a request path is decoded, the path served is empty or clean |
| Paths.StoredNameServed | apps/hosting/paths.py:41-67 | A stored name without percent signs is served under itself exactly when it holds no ".." and is no drive-letter path |
| Paths.EncodedNameServed | apps/hosting/paths.py:41-67 | A request that decodes to a stored name, with no two dots in a row in any form, is served that name exactly when it is no drive-letter path |
| Paths.DotsRefused | apps/hosting/paths.py:41-67 | Two dots in a row, plain, percent-encoded between slashes, or as a part once decoded, are refused |
| StorageKeys.ArtifactKeyPath | apps/hosting/storage.py:17-24 | The artifact's key is the path artifact.tar.gz in the deployment's directory, for every key prefix |
| StorageKeys.ExtractedKeyPath | apps/hosting/storage.py:27-37 | A member is written, and a file opened, at the same path: the name's components below the extracted tree, without the blanks and slashes at the end |
| StorageKeys.HomesDisjoint | apps/hosting/services.py:449-450 | The directories of two deployments share no path |
| FileTree.Disk.DeleteTree | apps/hosting/storage.py:55-71 | Deletes exactly what is at and below the target, unless the target is a plain file, and every rmdir meets an empty directory |
| FileTree.InsideComesFirst | apps/hosting/storage.py:65-69 | In reverse order everything inside a directory comes before it |
| FileTree.Disk.SortedTree | apps/hosting/storage.py:65 | The listing has exactly the entries below the target, in descending order |
| Extract.ReadMemberLimited | apps/hosting/extract.py:38-51 | Reading in chunks gives the whole member, or gives up exactly when it is not empty and longer than the limit, or fails where the archive does |
| Extract.SaveMember | apps/hosting/extract.py:91-94 | A file in the way is replaced, a directory in the way or a file above makes the storage refuse, and an awkward name is refused after what was at its place was deleted |
| Extract.ExtractTarMembers | apps/hosting/extract.py:54-98 | The loop over the members does on disk what the fold over the entries does on the file map; which entries those are is ArchiveMembers.EntriesAreMembers |
| ArchiveMembers.EntriesAreMembers | apps/hosting/extract.py:60-96 | What is written are exactly the file members with a usable name, in their order, each with its own place, size and content |
| ArchiveMembers.TreeOfMembers | apps/hosting/extract.py:84-96 | The tree of an archive has exactly the places its members lead to, each with the content of the last member of that place |
| ArchiveMembers.ArchiveWrites | apps/hosting/extract.py:116-129 | An archive writes its members; an empty upload and one that is no archive write nothing |
| Extract.ExtractionExplained | apps/hosting/extract.py:54-98 | Extraction writes a prefix of the accepted members and stops at the first that breaks a limit, clashes or cannot be read |
| Extract.LastEntryWins | apps/hosting/extract.py:91-96 | Of several members with one place the last one's content stays |
| Extract.ArtifactExact | apps/hosting/extract.py:101-141 | Extraction succeeds exactly when the archive can be read, all limits are met and no member needs a directory where another needs a file; each error names the one that failed |
| Extract.ArtifactTree | apps/hosting/extract.py:101-141 | On success the count is the number of accepted members, and the tree holds exactly the last content of each accepted name if and only if there was no stray file at its place or some member was written |
| Extract.ArtifactStaysInside | apps/hosting/extract.py:101-141 | In every outcome nothing outside the extracted tree changes |
| Extract.LimitLeavesNothing | apps/hosting/extract.py:139-141 | After a limit error nothing is left below the tree, and the tree itself is a file exactly when it was one before or the first member was written under a name that leaves nothing of the key |
| Extract.BlankName | apps/hosting/paths.py:25-38 | A name of blanks is accepted, and its key is the tree's own |
| Extract.StrayFileStays | apps/hosting/extract.py:139-141 | An archive after whose limit error the tree's place is still taken |
| Extract.ExtractDeploymentArtifact | apps/hosting/extract.py:101-141 | The method on disk has the outcome and leaves the files that the specification defines, deletions included |
| HostingRuns.OneActiveAndCurrent | apps/hosting/services.py:532-600 | At every moment an app has a current deployment exactly when one of its deployments is active, there is at most one, and it is that one |
| HostingRuns.StepKeepsRows | apps/hosting/services.py:430-639 | Every request keeps the rows linked, the current deployment the active one, slugs unique and no deployment ready |
| HostingRuns.UploadFits | apps/hosting/services.py:489-490 | Nothing is ever stored above or below an artifact's place, so nothing else is in the way of an upload |
| HostingRuns.StepKeepsHoused | apps/hosting/services.py:470-639 | Every file belongs to an existing deployment, and none lies above another |
| HostingRuns.ClosedStays | apps/hosting/services.py:470-600 | A deployment that is or was live stays active or superseded |
| HostingRuns.LiveFilesNeverChange | apps/hosting/services.py:470-600 | From the moment a deployment is live until its app is deleted its extracted tree is the same, whatever is requested |
| HostingRuns.FailedFinalizeKeepsCurrent | apps/hosting/services.py:497-529 | A finalize that does not succeed leaves apps, cache, and the current deployment of every app with its row and its files as they were |
| HostingRuns.FinalizeServesArchive | apps/hosting/services.py:532-568 | A successful finalize makes the deployment current and keeps the artifact, and leaves exactly the archive's last contents if and only if no stray file was at the tree's place or some member was written |
| HostingRuns.StrayFileGoesLive | apps/hosting/services.py:470-568 | A history in which a deployment goes live with a file its artifact does not hold |
| HostingRuns.OnlyActivationChangesCurrent | apps/hosting/services.py:545-600 | Nothing but a finalize or rollback of that app changes which deployment it serves |
| HostingRuns.CacheServesCurrent | apps/hosting/serve.py:85-136 | After any history, a lookup of an app that exists resolves to the deployment the database names at that instant |
| HostingRuns.LookupsAreRecent | apps/hosting/serve.py:94-125 | Whatever a lookup returns, the database held all of it less than one TTL ago, or holds it now |
| HostingRuns.LookupFindsOwner | apps/hosting/serve.py:118-125 | A lookup finds the app that owns the slug exactly when the cache is off, has no live entry, or its entry names an app that exists |
| HostingRuns.LookupOfFreeSlug | apps/hosting/serve.py:118-125 | A slug without an app is answered exactly while the cache is on and has a live entry for it, and then by a deleted app |
| HostingRuns.DeletedAppIsFound | apps/hosting/services.py:618-636 | A history after which requests for the slug of a deleted app find it, because deleting leaves the cache alone |
| HostingRuns.ExpiredStaysExpired | apps/hosting/services.py:157-187 | An expired site comes back only by a successful deploy of it; neither a rollback nor a renewal nor anything else revives it |
| HostingRuns.PreviewLivesADay | apps/hosting/services.py:152-168 | A preview that has been deployed has not expired at any moment of the following day, whatever is requested meanwhile |
| HostingRuns.FinalizedAtIsSetOnce | apps/hosting/services.py:552-593 | finalized_at is the moment of the first activation for good |
| HostingRuns.ArtifactIsTheLastLeft | apps/hosting/storage.py:112-115 | After any history, failing storage included, the artifact of a deployment with a recorded size is what the last upload that reached the storage left |
| HostingRuns.ArtifactsAreStored | apps/hosting/services.py:489-493 | The recorded size is that of a stored artifact exactly when it is zero or the last such upload left that many bytes |
| HostingRuns.SizeWithoutArtifact | apps/hosting/storage.py:112-115 | A history after which a row has the size of an artifact that is gone |
| HostingRuns.BrokenUploadGoesLive | apps/hosting/services.py:532-561 | A history in which the part of an artifact that a broken upload left goes live without a file |
| HostingRuns.MissingArtifactMeansNoUpload | apps/hosting/services.py:534-545 | In a status that can be finalized, it fails for want of an artifact exactly when nothing, or last only an empty file, was stored whole, or the last upload broke off and left nothing |
| HostingRuns.DeletionRemovesFiles | apps/hosting/services.py:603-615 | Nothing stored for a deleted app's deployments is left |
| HostingReplies.RollbackReplies | apps/hosting/services.py:572-600 | In every reachable state a rollback is refused exactly for drafts, uploads and failures, and for a live deployment without a size; every other one makes the deployment active and current, supersedes what was active, and keeps its date and the app's expiry |
| HostingReplies.LookupAfterRollback | apps/hosting/services.py:591-598 | Any lookup right after such a rollback finds the app and resolves to that deployment |
| HostingReplies.FinalizeReplies | apps/hosting/services.py:497-545 | In every reachable state a finalize is refused exactly for live and failed deployments, and otherwise the size and the extraction decide the answer |
| HostingReplies.FinalizeDone | apps/hosting/services.py:545-561 | A successful finalize makes the deployment current and active, supersedes what was active, dates it, and gives a preview its configured days from now |
| HostingReplies.UploadReplies | apps/hosting/services.py:470-494 | In every reachable state an upload is refused exactly for live deployments and for what is announced or turns out too long; otherwise it is stored, and recorded when it is stored whole |
| HostingReplies.CreationReplies | apps/hosting/services.py:430-467 | A deployment is refused without access, then over the quota, then for its version, and is otherwise a draft; nothing else changes |
| HostingReplies.QuotaHolds | apps/hosting/services.py:430-467 | In no history does an app have more deployments than the quota |
| HostingReplies.DeletionLeaves | apps/hosting/services.py:603-636 | Deleting an app leaves all other apps and deployments, and of the files exactly those of the deployments that are left |
| HostingReplies.RenewalReplies | apps/hosting/services.py:171-187 | A renewal is refused exactly for what never expires and for what has expired, and gives all others their days again |
| HostingService.Service.Lookup | apps/hosting/serve.py:94-125 | The cache methods and the query together are the specified lookup |
| HostingService.Service.SaveArtifact | apps/hosting/storage.py:100-116 | Streaming stores the whole upload, or nothing when it is too long, or breaks off after the old artifact is deleted |
| HostingService.Service.Upload | apps/hosting/services.py:470-494 | Exactly the upload step on rows and disk, every refusal and broken storage included |
| HostingService.Service.ActivateRows | apps/hosting/services.py:546-561 | The other active deployments of the app are superseded, this one is active and current, and the app leaves the cache |
| HostingService.Service.Finalize | apps/hosting/services.py:497-568 | Exactly the finalize step: extraction on disk, then activation, failure mark or nothing |
| HostingService.Service.Rollback | apps/hosting/services.py:572-600 | Exactly the rollback step, whose refusals and effect are HostingReplies.RollbackReplies |
| HostingService.Service.DeleteApp | apps/hosting/services.py:603-636 | Exactly the deletion step: rows and everything in the homes of the app's deployments |
| HostingService.Service.RenewExpiry | apps/hosting/services.py:171-187 | Only a preview that has not expired is extended |
| HostingService.Service.CreateDeployment | apps/hosting/services.py:430-467 | A draft within the quota, or the refusal in the order of the checks |
| Serve.PickFile | apps/hosting/serve.py:164-196 | The loop with its seen set answers with the first candidate that can be opened |
| Serve.FirstOpenIsFirst | apps/hosting/serve.py:188-196 | No earlier candidate can be opened, and none at all when there is no answer |
| Serve.OpenIsStorage | apps/hosting/storage.py:74-89 | Opening a name depends on the extracted tree alone and is what the storage has at the name's key |
| Serve.Get | apps/hosting/serve.py:234-262 | The view takes one lookup step and answers as specified: missing, expired or unpublished site, missing file, or file |
| Serve.ServedFromTree | apps/hosting/serve.py:249-262 | A served file is one of the live deployment's own tree |
| Serve.StoredThenServed | apps/hosting/serve.py:164-196 | The last entry of a place is what every request gets whose path, plain or encoded, reads as a name that leads there |
| Serve.RequestsAnswered | apps/hosting/serve.py:234-262 | What any request gets after any history, cache included: an app that exists is answered from the tree of its current deployment unless the looked-up row has expired, and a deleted app with no file |
| Serve.FinalizedThenServed | apps/hosting/services.py:532-568 | The whole way from an uploaded archive to the answer of any later request, through lookup and cache: a path that reads as a name gets the content of the archive's last file member of that name |
| Serve.DoneMeansLive | apps/hosting/services.py:532-568 | A finalize succeeds exactly when it takes the deployment live |
| Serve.StrayFileIsNotServed | apps/hosting/serve.py:249-262 | A current deployment with a plain file at its tree's place answers no path with a file, after any history |
| Serve.ServesAfterFinalize | apps/hosting/services.py:557-561 | Right after a finalize the deployment serves exactly when its app has not expired |
| Serve.ServesAfterRollback | apps/hosting/services.py:591-598 | Right after a rollback the deployment that is back serves exactly when its app has not expired |
| Serve.RollbackServesTheSame | apps/hosting/services.py:572-600 | Requests for any path, through lookup and cache, get the same answer, byte for byte, at any two moments at which the same deployment serves |
| Serve.ExpiredInCache | apps/hosting/serve.py:240-244 | A site that has not expired is answered as expired exactly while the cache holds a row in which it has |
| Serve.RenewalIsMissed | apps/hosting/services.py:171-187 | A history in which a renewed preview is answered as expired, because renewing leaves the cache alone |
| Pages.PageAnswered | apps/hosting/serve.py:164-196 | A path that is no asset gets the file of its name, else the index of that directory, else the 404 page, else the site's index; without any index the site is unavailable |
| Pages.RootAnswered | apps/hosting/serve.py:164-196 | The root gets the site's index, or the 404 page when the index is a directory |
| Pages.AssetAnswered | apps/hosting/serve.py:249-255 | An asset gets the file of its name or is not found |
| Pages.AssetByExtension | apps/hosting/serve.py:139-144 | Whether a name is an asset is decided by what follows the last dot of its last part, in any case and any directory |
| Jobs.LockExcludes | config/task_lock.py:50-68 | At any moment at most one process holds a lease that has not run out |
| Jobs.LockIsKept | config/task_lock.py:50-68 | No step of another process takes an unexpired lock away |
| JobRuns.ReleaseOnlyOwn | config/task_lock.py:24-29 | A release deletes the key only when it holds the releaser's token, and never another's lock |
| JobRuns.AbandonedLockExpires | config/task_lock.py:8-10 | Whoever died holding it, a lock that nobody takes anew is free one TTL later |
| JobRuns.LeasesApart | config/task_lock.py:50-68 | Of two processes that both have the lock as far as they know, one took it a TTL or more before the other |
| JobRuns.OverlapIffOutlived | config/task_lock.py:50-68 | Two runs under the lock can be at work together exactly when the first is still at work a TTL after it took it |
| JobRuns.UnlockedOverlaps | apps/actions/tasks.py:59-62 | A history in which a run without the lock is at work together with one that holds it |
| JobRuns.LateRunsCountTwice | apps/actions/scheduled_jobs.py:302-340 | A history in which one invocation is counted as failed and as succeeded |
| JobRuns.LostIncrement | apps/actions/scheduled_jobs.py:320-338 | A history in which a run is stored as succeeded and never counted |
| JobSteps.TakeTells | config/task_lock.py:59-60 | The lock is given exactly when no unexpired token is stored, and then for the whole TTL |
| JobSteps.ReleaseTells | config/task_lock.py:63-68 | A release that reaches Redis while the own lease runs frees the lock, and any other leaves it as it is |
| JobSteps.ReleasedInTime | config/task_lock.py:59-68 | A run that took the lock and releases it within the TTL leaves it free |
| JobSteps.FinishTells | apps/actions/scheduled_jobs.py:302-331 | Right after a finish the run's row says succeeded exactly when the stored outcome is a success; no other row changes |
| JobSteps.SweepTells | apps/actions/scheduled_jobs.py:265-279 | A sweep marks exactly the other running rows that started more than the longest run before this one |
| JobSteps.PurgeTells | apps/actions/scheduled_jobs.py:669-681 | A purge deletes only rows older than a week, and no counter |
| JobSteps.CountTells | apps/actions/scheduled_jobs.py:338 | Counting raises by one the counter of the outcome that the same process stored before |
| JobSteps.CountSweepTells | apps/actions/scheduled_jobs.py:280-281 | Counting a sweep raises the failed counter by the number of rows that this sweep marked |
| JobCounts.InterruptedAfterLease | apps/actions/scheduled_jobs.py:265-282 | For both jobs, a run that started under the lock is marked interrupted only after its lease has run out, dead or alive |
| JobCounts.StepKeepsCounts | apps/actions/scheduled_jobs.py:265-340 | Every step, purges and deaths included, keeps the account of what each invocation has been counted for and of what its row says |
| JobCounts.CountersExact | apps/actions/scheduled_jobs.py:208-340 | In every history the counters plus the increments that are missing are the invocations ever closed plus those that finished after a sweep had closed them; skips are counted exactly |
| JobCounts.FinishUncountedIff | apps/actions/scheduled_jobs.py:320-338 | A finished run has not been counted exactly when its process stands between the row and the counter now, or gave up or died there |
| JobCounts.SweepUncountedIff | apps/actions/scheduled_jobs.py:265-282 | A run marked interrupted has not been counted exactly when the process that marked it is about to count, or gave up or died there |
| JobCounts.CountedFor | apps/actions/scheduled_jobs.py:265-340 | In every history, late finishes included: what a single invocation has been counted for, told by where processes are and where some stopped |
| JobCounts.LateFinish | apps/actions/scheduled_jobs.py:302-340 | A finish is late exactly when the row had been marked interrupted, which takes longer than any expected run |
| JobCounts.CountedOnce | apps/actions/scheduled_jobs.py:390-485 | If all that finish do so in time, the counters add up to the closed invocations if and only if nobody is between a row and its counter and nobody ever gave up or died there, and none of the closed ones was skipped |
| JobCounts.RowsTell | apps/actions/scheduled_jobs.py:669-681 | The rows that have not been purged are closed exactly for the invocations that were |
| JobCounts.RowsStay | apps/actions/scheduled_jobs.py:669-681 | Without a purge every invocation that was closed still has its row |
| JobService.Service.TakeLock | config/task_lock.py:59-60 | Exactly one Take step: the lock is stored for the TTL unless it is held |
| JobService.Service.ReleaseLock | config/task_lock.py:63-68 | Exactly one Release step, whether it reaches Redis or not |
| JobService.Service.MarkInterrupted | apps/actions/scheduled_jobs.py:265-279 | Exactly one Sweep step: old running rows other than its own fail |
| JobService.Service.CountInterrupted | apps/actions/scheduled_jobs.py:280-281 | Exactly one CountSweep step: the closed rows are counted as failed |
| JobService.Service.FinishRun | apps/actions/scheduled_jobs.py:302-331 | Exactly one Finish step, which overwrites whatever the row says by then |
| JobService.Service.CountOutcome | apps/actions/scheduled_jobs.py:338 | Exactly one CountFinish step: the counter of the stored outcome |
| JobService.Service.PurgeOldRuns | apps/actions/scheduled_jobs.py:669-681 | Exactly one Purge step: rows older than the retention go, counters stay |
| JobService.Service.RecordSkipped | apps/actions/scheduled_jobs.py:464-469 | Exactly one Skip step |
| JobService.Service.RecordRun | apps/actions/scheduled_jobs.py:390-430 | Row, sweep, its counter, outcome and its counter in this order, ending at the first write that fails or finds its row purged; the only outcome stored is that of the work, and it is stored exactly when no write fails |
| JobService.Service.RunLocked | apps/actions/tasks.py:45-62 | One invocation takes exactly the steps its faults and the lock allow: the outcome stored is that of the work, or a failure without it; a summary is answered only for work that succeeded and is stored as succeeded unless that write fails, and skipped exactly with a counted skip |
| JobService.OwnStepsTell | apps/actions/tasks.py:45-62 | What the steps of an invocation say of its work, its faults and its answer |
| JobService.Service.RunTask | apps/actions/tasks.py:45-62 | A scheduled task is a new process that takes these steps and no others |
| JobService.Service.RunCommand | apps/actions/scheduled_jobs.py:390-430 | A command run by hand is a new process that records its run, with the outcome of its work, without ever taking the lock |
| JobSchedule.NextIsFirstDue | apps/actions/scheduled_jobs.py:84-90 | The next start of an hourly job is the first due moment after the given one, at most an hour away |
| JobSchedule.NextIsOneIntervalLater | apps/actions/scheduled_jobs.py:84-86 | A job without a fixed minute starts exactly one interval after another |
| JobSchedule.HourlyStarts | apps/actions/scheduled_jobs.py:87-90 | An hourly job starts exactly every hour from its first due moment on |
| CompanyDeletion.DeleteCompanyRows | apps/actions/company_deletion.py:96-112 | The nested loops compute the specified passes: what is left, the count, or the error |
| CompanyDeletion.SuccessIsComplete | apps/actions/company_deletion.py:96-112 | Success leaves what is left without the company's rows and all that cascades, and counts the rest; which rows these are is DeletionPaths.SuccessSparesOthers |
| CompanyDeletion.FailsIffHopeless | apps/actions/company_deletion.py:96-112 | It fails exactly when some models would stay refused after all others were emptied |
| CompanyDeletion.RemainingIsHopeless | apps/actions/company_deletion.py:112 | The models an error names are such models, and all others are empty by then |
| CompanyDeletion.OrderDoesNotMatter | apps/actions/company_deletion.py:98-102 | Success, what is left and the count do not depend on the order of the models |
| CompanyDeletion.LastPassIsIdle | apps/actions/company_deletion.py:100 | As many passes as there are models are enough |
| CompanyDeletion.CollectInSteps | apps/actions/company_deletion.py:104-106 | Deleting one set after another deletes what both cascade to |
| DeletionPaths.SuccessSparesOthers | apps/actions/company_deletion.py:96-112 | On success a row is left exactly when no path of cascading references leads to it from a row of the company in a listed model, and the count is the number of all others |
| DeletionPaths.OthersAreSpared | apps/actions/company_deletion.py:105 | Whether it succeeds or fails, a row that no such path leads to is left, above all those of other companies |
| DeletionPaths.FailsIffStuck | apps/actions/company_deletion.py:107-112 | It fails exactly when there are models each of which, all others emptied, still has a row of the company from which a path leads to a row that a row still there protects |
| DeletionOrder.AcyclicSucceeds | apps/actions/company_deletion.py:96-112 | If no model blocks another in a circle, the deletion succeeds for every order |
| DeletionOrder.FailureShowsCycle | apps/actions/company_deletion.py:107-112 | If it fails, the models it names contain a circle |
| DeletionOrder.ReliableIffAcyclic | apps/actions/company_deletion.py:97 | It can be relied on for all data exactly when the models' references allow no circle of blocking |
| DeletionOrder.WithoutCascades | apps/actions/company_deletion.py:97 | Without cascades that is the same as having no circle of PROTECT references |
| DeletionOrder.ProtectAcyclicIsNotEnough | apps/actions/company_deletion.py:97 | With cascades it is not: three models without such a circle whose rows cannot be deleted |
| DeletionOrder.AcyclicMeansNoCycle | apps/actions/company_deletion.py:97 | Being acyclic, as used here, is the absence of a cyclic path |
| Throttle.Bucket.AllowRequest | config/throttling.py:45-59 | A request is accepted exactly when fewer than limit accepted requests lie in the window that ends with it, although the log is pruned and its cache entry expires |
| Throttle.NoWindowOverfull | config/throttling.py:45-59 | No window, wherever it ends, ever holds more accepted requests than the limit |
| Throttle.CountNewest | config/throttling.py:55-57 | What is left of the log after pruning is as long as the count |

## Left out

- DeliveryService.Service.ClaimNext: the order in which eligible rows are claimed; where a missing next_attempt_at sorts depends on the database.
- OutboxRuns.NoRowGetsStuck: says that a row is eligible from then on, not that a worker picks it up; that needs fairness.
- OutboxRuns.LeaseExclusion: bounds the time between claims, not between sends; a dispatch ignores the schedule, and a claimer whose row was attempted meanwhile sends again.
- RetryRun.RetryPendingWebhooks: the row counts of a dry run are not claimed to be of different rows; a dry run gives its lease back and can claim the same row again. With a pool the passes that wait in vain are counted and not bounded; how long a delivery takes is not known.
- Extract.ExtractTarMembers: members for which the tar library returns no file object although they are files are taken to have content; what the library makes of the archive's bytes is a parameter.
- Pages.PageAnswered: names whose last part is dots and blanks, which the storage resolves to a place further up, are left to Serve.OpenIsStorage.
- HostingRuns.LiveFilesNeverChange: requests are serialized; the handlers take no row locks, and two at once on one app are not modelled.
- HostingRuns.CacheServesCurrent: one process; another process keeps its own cache until it expires. The cache is dropped inside the transaction of the request, and a lookup between that and the commit is not modelled.
- JobCounts.CountersExact: an item counter, a timestamp or a platform event that is written beside a run's row is not part of the state.
- HostingRuns.ArtifactIsTheLastLeft: storing an uploaded artifact may break off; writing an extracted file may be refused, and its bytes are then all there or not at all.
- CompanyDeletion.DeleteCompanyRows: works on a fixed table; rows created by others during the purge are not modelled.
- Throttle.Bucket.AllowRequest: one client's requests one after the other; two at once read and write the log without a lock.
- DeletionOrder.ReliableIffAcyclic: rows that forbid a delete are rows of the same company in covered models; a reference from elsewhere blocks the deletion for good.
- Status READY is in the model, but no service code sets it; a row edited by hand to READY is not modelled.
- Trigger and run id of an attempt, durations, error formatting and redaction: data that is stored and never decided on.
- HTTP, TLS, DNS and address checks, signing, tokens, email posts: the send is an arbitrary result.
- The S3 backend: its tree deletion recurses with the folder name appended twice; the filesystem branch is modelled.
- Event rules, OAuth redirect registration and platform events written beside the modelled changes.
- Access checks, app names, display names and slug generation: an app is created under a fresh id and slug, or not at all. Version strings enter as accepted or refused.
- Purging of flagged companies, retention of events and deliveries, health and overview payloads: easy beside the modelled parts.
- Parsing of Retry-After dates and the list of permanent HTTP statuses: parts of the arbitrary send result.
- Cache-Control headers and content types of served files.
