# g7mediabooster: a Dafny model of the media control plane

g7mediabooster reserves uploads for authenticated tenants, lets clients send bytes straight to
object storage, validates and publishes derivatives with leased workers, hands out signed delivery
URLs, and reclaims storage with cleanup and inventory jobs. This project models the parts whose
correctness is not visible in any one function, and proves what they promise together.

Each Dafny module is one part:

| module | part of the system |
|---|---|
| `Domain`, `ObjectKeys` | upload states; object-key validation and the raw and derivative key layouts |
| `JobQueue`, `TenantTurns`, `Lease` | the durable job queue; turns between tenants; leases and heartbeats in real time |
| `Processing`, `ProcessingSafety`, `ProcessingTheorems` | the source-validation worker protocol and what its runs keep |
| `ProcessingStorage`, `ProcessingJobs` | when a published object is lost, and which jobs can still finish |
| `ProcessingAttempts`, `ProcessingRuns` | how failing attempts end and the limits on what is stored; healthy attempts and concrete runs |
| `ResourceGates` | temporary-disk permits and transform lanes |
| `Delivery`, `DeliveryRuns` | the delivery manifest cache |
| `Multipart`, `UploadControl`, `CreateBatch`, `Quota` | planning, part layout, completion and confirmation, batch reservation, byte quotas |
| `Cleanup`, `CleanupRuns` | ordered storage cleanup |
| `Inventory`, `InventoryFates`, `InventoryJob`, `InventoryRuns` | the resumable inventory scan and prune: pages and reconciliation, the fate of each listed key, one run, and whole cycles |
| `AnnexB`, `FrameSearch` | H.264 sample conversion (ITU-T H.264 Annex B section B.1, ISO/IEC 14496-15 section 5.2.4.1) and the fallback frame search |
| `Watermark`, `Duration`, `TokenBucket`, `PolicyLog` | watermark planning, probe durations, the rate limiter, site policies |

Code that updates state is a class with the source's fields and methods, each proved against a
function on values. Protocols are step machines: a `Step` datatype, a total `Apply` in which a step
that is not enabled changes nothing, and `Run` over any sequence of steps, so a theorem about `Run`
covers every interleaving, crash and lost answer.

## Assumptions

- Every repository method is one atomic guarded step, with the guard of the SQLite statement that
  implements it. A provider call may succeed, be refused, or take effect while its answer is lost.
- A string stands for its bytes, one character for each byte. Video samples held in memory stay below 2^61 bytes.
- Worker slots, and cleanup runs alive at the same time, have distinct owner names. Upload
  identifiers are never reused. There is one validation job for each upload, as the unique index on jobs requires.
- The provider stores a part or an object only at a length that was signed for it, lists keys in byte
  order, and a client completes a session with the etags the provider gave it.
- The renderer is an arbitrary function that may fail; hashes are opaque, and assumed free of
  collisions only where a statement says so.

## What the proofs found

- **Leases.** The queue keeps whole seconds, so `lease > 2*heartbeat` keeps one worker at a time on a
  job for whole-second policies, but not for fractional ones. The exact condition is
  `2*heartbeat <= (lease_seconds - 1)` seconds (`Lease.ExclusionExactly`).
- **Stranded job.** The job of a tombstoned upload can still be completed or dead-lettered exactly
  when its lease owner already has a final outcome and only the report is missing
  (`ProcessingJobs.TombstonedJobFinishesExactly`). Otherwise it is leased again until
  the row is purged, because a deleted row cannot be rejected and the attempt limit is compared only
  in a report
  (`ProcessingRuns.DeletedUploadStrandsItsJob`).
- **Lost objects.** An object of a Ready upload is missing exactly when inventory deleted its key after
  its last put, and has another length exactly when another version was put after the recorded one
  (`ProcessingStorage.ObjectLostExactly`). Both happen: an orphan left by a crashed attempt outlives
  the grace period and is deleted after the next attempt has put the same key again
  (`ProcessingRuns.AgedOrphanLosesReadyObject`), and an attempt that lost its lease overwrites a Ready
  object (`ProcessingRuns.VaryingRendererOverwritesReadyObject`). A renderer whose length depends on
  the key alone rules out the second (`ProcessingStorage.StableRendererLosesOnlyByPrune`).
- **WebM.** Workers publish WebM masters that delivery never serves (`DeliveryRuns.ReadyIsDeliverableExactly`).
- **Coalesced load errors can be old.** Served answers are always true at their guard; an error taken
  from a shared load may predate the request (`DeliveryRuns.CoalescedErrorCanBeOld`).
- **Tombstones that are not clean.** Two statements tombstone an upload, and each has its exact condition
  (`CleanupRuns.TombstoneCleanExactly`). Cleanup's report leaves something behind exactly when a
  derivative was put that its claim does not list, because it was published under the lease
  (`LateConfirmationLeavesDerivatives`) or never recorded at all (`RejectedAttemptLeavesDerivative`), or
  when an object was put again after its deletion (`StalePutLeavesDerivative`). The client's abort leaves
  something behind exactly when the parts had been joined and the object not deleted since, or any
  derivative was put (`AbortAfterJoinLeavesRaw`). Cleanup never returns to a deleted row, so only the
  inventory can find what is left.
- **Inventory's recheck and delete are two calls.** Inventory deletes an owned object exactly when the
  owner arrived after the recheck that cleared the key (`InventoryRuns.OwnedObjectDeletedExactly`,
  `LateOwnerLosesObject`).
- **Inventory's delete and its record are two calls.** A key keeps its first sighting when the record of its
  deletion is lost, so an object put there again is deleted without waiting for its own grace period
  (`InventoryRuns.YoungObjectDeleted`); after a recorded deletion the period starts anew
  (`InventoryRuns.DeletionsWaitOutTheGrace`).
- **Lost session.** A batch leaves a provider session open without saying so exactly when its first
  provider call that does not answer opened that session (`CreateBatch.Service.Create`,
  `CreateBatch.LostSessionRequest`).
- **Lost confirmation.** A created multipart upload can still be confirmed exactly when its session is
  open and the file fits the part layout, or a request has joined the parts and still holds on to them;
  a single upload exactly when its object is there, its URL has not expired, or a request has seen the
  object (`UploadControl.ConfirmableExactly`). After a completion whose commit was lost, no repetition helps.
- **Cached manifests.** A guarded answer equals an uncached lookup exactly while the row lists two
  derivatives (`DeliveryRuns.GuardedAnswerIsLookup`); a second preset on a Ready row would break that
  (`DeliveryRuns.SecondPresetDiverges`), and publication under a pinned policy never adds one.
- **Part limit.** Planning does not check the 10,000-part limit; a policy can accept a file that no
  completion list finishes (`Multipart.PlanCanExceedTheLayout`). The default policy cannot.
- **Backup check.** `verify_pool` compares tenant counters in one direction only, because SQLite
  evaluates a compound SELECT left to right: a stale extra counter row passes (`Quota.StaleTenantRowAccepted`).
- **Token bucket.** Two clock reads credit the gap between them twice (`TokenBucket.GapsAreNeeded`).
- **Durations.** `"5."` is accepted as five seconds (`Duration.BareDotAccepted`).

## Model

| member | source | states |
|---|---|---|
| Domain.Lifecycle.TransitionTo | crates/g7mb-domain/src/lib.rs:355-366 | a transition succeeds exactly on the permitted pairs, moves to the target, and otherwise leaves the state and reports both ends |
| Domain.HistoryClimbs | crates/g7mb-domain/src/lib.rs:329-353 | every lifecycle makes progress at each permitted transition |
| Domain.OutcomeDecidedOnce | crates/g7mb-domain/src/lib.rs:329-353 | after Ready, Rejected or Failed only Deleted can follow, and no lifecycle has more than six states |
| ObjectKeys.SegmentsOfJoin | crates/g7mb-domain/src/lib.rs:279-284 | splitting at separators undoes joining, so a key determines its segments |
| ObjectKeys.PresetIdIsToken | apps/g7mb-worker/src/lib.rs:153-158 | every preset name, watermarked or not, stays in the narrow alphabet and within 117 bytes |
| ObjectKeys.DerivativeKeyAlwaysValid | crates/g7mb-domain/src/lib.rs:269-292 | every derivative key a worker builds passes key validation |
| ObjectKeys.DerivativeKeyInjective | apps/g7mb-worker/src/lib.rs:812-923 | tenant, upload, digest, preset and file are recoverable from the key text, so different uploads never share an object |
| ObjectKeys.RawKeyFacts | crates/g7mb-application/src/uploads.rs:396-400 | raw keys always validate, determine their upload, and never equal a derivative key |
| JobQueue.Queue.Enqueue | crates/g7mb-persistence-sqlite/src/lib.rs:580-609 | a valid request adds a job once, claimable from now on, and repeats without effect; an invalid preset or revision is refused |
| JobQueue.Queue.ClaimNext | crates/g7mb-persistence-sqlite/src/lib.rs:611-733 | a claim leases a due job of the tenant served longest ago, the longest available first, to that worker alone until the lease ends, counts the attempt and moves the tenant to the back; none is returned only when none is due |
| JobQueue.Queue.Renew | crates/g7mb-persistence-sqlite/src/lib.rs:735-772 | renewal succeeds exactly for the owner of an unexpired lease and moves its end |
| JobQueue.Queue.Complete | crates/g7mb-persistence-sqlite/src/lib.rs:774-798 | completion succeeds exactly for the lease owner |
| JobQueue.Queue.Fail | crates/g7mb-persistence-sqlite/src/lib.rs:800-842 | a valid failure report by the owner dead-letters exactly at the attempt cap, and otherwise makes the job claimable from the retry time on and not before |
| JobQueue.RetryWaits | crates/g7mb-persistence-sqlite/src/lib.rs:800-842 | after such a report no call by anybody moves the job until a claim at or after the retry time |
| JobQueue.FinishedIsFinal | crates/g7mb-application/src/lib.rs:334-376 | a finished job never changes again |
| JobQueue.FinishesAtMostOnce | crates/g7mb-application/src/lib.rs:334-376 | in any run of calls each job is completed or dead-lettered at most once |
| JobQueue.StaleOwnerIsPowerless | crates/g7mb-application/src/lib.rs:334-376 | however the late calls of a worker without the lease are interleaved with anybody's, the run is the same without them until that worker claims again |
| TenantTurns.RoundRobin | crates/g7mb-persistence-sqlite/src/lib.rs:635-693 | while a tenant has work and is not served, every other tenant is served at most once, so with n tenants it is passed over at most n - 1 times |
| JobQueue.WithoutReportsNeverFinishes | apps/g7mb-worker/src/lib.rs:704-712 | attempts that end without a report never reach the attempt cap |
| Lease.WholeSecondsAreSafe | apps/g7mb-worker/src/lib.rs:105-115 | for whole-second policies the validated ratio implies the exact safety condition |
| Lease.FractionalPolicyCanBeUnsafe | apps/g7mb-worker/src/lib.rs:105-115 | a validated fractional policy can break it |
| Lease.LeaseExclusion | apps/g7mb-worker/src/lib.rs:586-650 | with call latencies inside one heartbeat a safe lease is never expired while its worker lives, and no job is processed in two slots |
| Lease.RenewalsArePaced | apps/g7mb-worker/src/lib.rs:628-648 | in every such run a renewal reads the clock between one heartbeat and a heartbeat and a claim latency after the reading that last set the lease |
| Lease.UnsafeLeaseLosesExclusion | apps/g7mb-worker/src/lib.rs:586-650 | an unsafe lease has a run, within the latency bounds, in which two workers process one job |
| Lease.ExclusionExactly | apps/g7mb-worker/src/lib.rs:105-115 | exclusion over all runs holds if and only if the lease condition does |
| ProcessingSafety.StepKeeps | crates/g7mb-application/src/processing.rs:51-84 | every step of every participant keeps the protocol invariant and undoes nothing decided |
| ProcessingSafety.RunKeeps | apps/g7mb-worker/src/lib.rs:586-923 | and so does every run |
| ProcessingSafety.RepublishingChangesNothing | crates/g7mb-persistence-sqlite/src/lib.rs:1701-1792 | a second publication of a Ready upload is accepted only if it repeats the stored rows |
| ProcessingTheorems.OutcomeDecidedOnce | apps/g7mb-worker/src/lib.rs:586-719 | in every interleaving an upload's outcome, digest and derivative rows are decided once |
| ProcessingTheorems.ReadyIsComplete | crates/g7mb-persistence-sqlite/src/lib.rs:1701-1792 | Ready means exactly one master and one thumbnail under the preset of the job's policy revision and the recorded digest, each of the form its source format demands and put before at the recorded length |
| ProcessingTheorems.DigestPin | apps/g7mb-worker/src/lib.rs:812-923 | every object ever put for an upload lies under its one recorded digest and the preset of its job's revision, as its thumbnail or the one master its format has |
| ProcessingTheorems.PolicyPinned | apps/g7mb-worker/src/lib.rs:1023-1044 | the revision given at confirmation stays the job's, and every object put and every row published for the upload carries the preset of that revision and tenant |
| ProcessingTheorems.ReservationStays | crates/g7mb-application/src/processing.rs:51-84 | tenant, kind and size stay those of the reservation |
| ProcessingAttempts.StoredWithinLimits | apps/g7mb-worker/src/lib.rs:755-796 | nothing is ever put for an upload over the limit of its kind or holding the other kind; whatever is put is a generated file within the image limit or a video of exactly the reserved size |
| ProcessingAttempts.FailedAttemptReports | apps/g7mb-worker/src/lib.rs:650-719 | a permanent failure rejects the upload and completes the job, a transient one waits for its retry time or, at the attempt cap, rejects and dead-letters, an operational one reports nothing; nothing else changes |
| ProcessingAttempts.OversizedIsRejected | apps/g7mb-worker/src/lib.rs:755-766 | an upload over its limit is rejected by its first attempt, which stores nothing |
| ProcessingAttempts.ChangedBytesAreRejected | apps/g7mb-worker/src/lib.rs:812-827 | bytes that differ from the recorded ones get the upload rejected, never published |
| ProcessingAttempts.ConflictIsRetried | apps/g7mb-worker/src/lib.rs:731-753 | an attempt on an upload not to be validated leaves its row alone and is retried |
| ProcessingAttempts.FirstDigestWins | crates/g7mb-persistence-sqlite/src/lib.rs:1640-1699 | of two attempts on a quarantined upload the first records its bytes; the other goes on exactly if it has the same |
| ProcessingAttempts.SecondRejection | crates/g7mb-persistence-sqlite/src/lib.rs:1794-1840 | a rejected upload is rejected again only for the same cause; on any other settled one the attempt ends without a report |
| ProcessingTheorems.NothingStoredBeforeDigest | crates/g7mb-persistence-sqlite/src/lib.rs:1640-1699 | no object is put before the digest is recorded |
| ProcessingTheorems.StoredKeysValidAndDisjoint | apps/g7mb-worker/src/lib.rs:153-158 | every key put passes validation and different uploads write different objects |
| ProcessingTheorems.DecidedIsNotReprocessed | apps/g7mb-worker/src/lib.rs:731-753 | once decided, a slot not already validating the upload never puts an object for it again |
| ProcessingJobs.ReclaimedJobCompletes | apps/g7mb-worker/src/lib.rs:731-753 | a slot that loads a decided row completes the job exactly if it still holds the lease, and stores nothing, whatever other slots do in between |
| ProcessingJobs.TombstonedJobFinishesExactly | apps/g7mb-worker/src/lib.rs:676-719 | in every run the job of a tombstoned upload can still finish if and only if its lease owner has a final outcome left to report |
| ProcessingRuns.DeletedUploadStrandsItsJob | apps/g7mb-worker/src/lib.rs:676-719 | a crash after publication and a deletion leave such a job that never finishes |
| ProcessingStorage.ObjectLostExactly | apps/g7mb-worker/src/lib.rs:925-965 | in every run a published object is missing if and only if inventory deleted its key after its last put, and has another length if and only if another version was put after the recorded one |
| ProcessingStorage.StableRendererLosesOnlyByPrune | apps/g7mb-worker/src/lib.rs:925-965 | with a renderer whose length depends on the key, a published object is intact if and only if inventory did not delete it last |
| ProcessingStorage.SecureObjectStays | apps/g7mb-worker/src/lib.rs:925-965 | an intact published object with no deletion under way and no attempt left on its upload stays intact while it is published |
| ProcessingRuns.HealthyAttemptPublishes | apps/g7mb-worker/src/lib.rs:755-923 | an undisturbed attempt on an image or a video makes the upload Ready and completes its job, and records and stores exactly its master and thumbnail under the preset of the job's policy revision |
| ProcessingRuns.AgedOrphanLosesReadyObject | crates/g7mb-application/src/inventory.rs:293-331 | an orphan older than the grace period is put again by the next attempt and deleted before it publishes: the upload is Ready without its master |
| ProcessingRuns.VaryingRendererOverwritesReadyObject | apps/g7mb-worker/src/lib.rs:925-965 | a stale attempt with another output length overwrites a Ready object |
| ProcessingRuns.OrphanIsPruned | crates/g7mb-application/src/inventory.rs:293-331 | an unrecorded object is deleted after the grace period and its suspicion ends with the record |
| ProcessingRuns.RecordedIsSpared | crates/g7mb-application/src/inventory.rs:293-331 | a recorded object loses its suspicion and is not deleted |
| ProcessingRuns.DeletionRemovesObject | crates/g7mb-application/src/lifecycle.rs:336-362 | cleanup deletes a recorded object once its upload's deletion was requested, and not before |
| ResourceGates.AdmissibleJobFits | apps/g7mb-worker/src/lib.rs:37-42 | a validated policy makes every admissible job ask for the least number of permits that covers it, representable and at most the semaphore's total |
| ResourceGates.ValidatedExactly | apps/g7mb-worker/src/lib.rs:105-124 | validation passes exactly for the lane bounds and a cap between the worst job and one TiB; no overflow check rejects anything else |
| ResourceGates.ReservedBytesBounded | apps/g7mb-worker/src/lib.rs:499-501 | reserved bytes stay below the cap plus one MiB, and within a whole-MiB cap |
| ResourceGates.NoDeadlock | apps/g7mb-worker/src/lib.rs:967-1020 | every state with an unfinished job has an enabled step |
| ResourceGates.AdmissibleJobsFinish | apps/g7mb-worker/src/lib.rs:764-811 | any admissible jobs in any schedule keep the byte bound and the bound of each lane, take at most five steps each, and can only stop when all have finished |
| Delivery.FromStatusExactly | crates/g7mb-application/src/delivery.rs:230-279 | a status is deliverable exactly when Ready, staying, with one deliverable master and thumbnail of one preset |
| Delivery.LookupExactly | crates/g7mb-application/src/delivery.rs:281-285 | an uncached request is served exactly the listed derivative of its variant, and preset if it names one, of a deliverable row; otherwise the error is exact |
| Delivery.GuardIsLookupExactly | crates/g7mb-application/src/delivery.rs:162-182 | for a manifest that fits, the guarded answer is the uncached answer, errors included, exactly while the row lists two derivatives |
| Delivery.CacheStaysFit | crates/g7mb-application/src/delivery.rs:98-103 | no sequence of committed changes makes a cached manifest misleading |
| Delivery.MergeExactly | crates/g7mb-persistence-sqlite/src/lib.rs:1701-1792 | a publication is accepted exactly if its rows agree with each other and with those stored |
| Delivery.MergeKeepsOrder | crates/g7mb-persistence-sqlite/src/lib.rs:1086 | however often rows are published, they are listed by preset and variant |
| Delivery.ForgettingServesTheSame | crates/g7mb-application/src/delivery.rs:98-103 | invalidating or evicting any uploads changes no served answer; the only difference is NotReady for NotFound on an upload withdrawn before and purged during the request |
| Delivery.Service.Presign | crates/g7mb-application/src/delivery.rs:105-206 | input errors first; otherwise the uncached lookup at the guard, or the load's error. What is served is a derivative the row lists at the guard, of the variant and preset asked for, signed for its own key on a trusted authority, and from a deliverable row exactly that one; a refused guard evicts the entry |
| DeliveryRuns.GuardedAnswerIsLookup | crates/g7mb-application/src/delivery.rs:131-206 | in every interleaving each guarded answer equals an uncached lookup at that instant if and only if the row still lists two derivatives, and from a deliverable row it is exactly the derivative wanted |
| DeliveryRuns.EveryAnswerWasTrue | crates/g7mb-application/src/delivery.rs:298-321 | in every run a served answer speaks of a moment inside its request, is a derivative the row listed then, of the variant and preset asked for, and is the uncached answer of that moment if and only if the row had not gained derivatives; any other answer but a repository failure is the uncached one unless the row had; if repeated publications repeat their rows, every answer is the uncached one |
| DeliveryRuns.NothingServedAfterWithdrawal | apps/g7mb-api/src/lib.rs:1179-1188 | after a deletion request commits, nothing of that upload is served again, whatever loads were in flight and whatever is published |
| DeliveryRuns.StaleManifestReturns | crates/g7mb-application/src/delivery.rs:131-206 | an invalidation can lose its race and the stale manifest is still refused and evicted by the guard |
| DeliveryRuns.CoalescedErrorCanBeOld | crates/g7mb-application/src/delivery.rs:145-159 | a run from the empty database in which a request begun after publication is told NotReady as of an earlier moment |
| DeliveryRuns.SecondPresetDiverges | crates/g7mb-persistence-sqlite/src/lib.rs:1738-1774 | a run from the empty database in which a Ready row gains a second preset and is served from cache where a lookup refuses |
| DeliveryRuns.ReadyIsDeliverableExactly | apps/g7mb-worker/src/lib.rs:456-468 | of the uploads workers make Ready, delivery accepts exactly those that are not WebM |
| Multipart.Plan | crates/g7mb-domain/src/lib.rs:141-187 | planning accepts exactly the admissible batches, uploads videos and images from the threshold on in parts, and names the rule broken by the first file at fault |
| Multipart.CheckedStartIsExact | crates/g7mb-application/src/uploads.rs:727-736 | checked 64-bit part arithmetic agrees with unbounded arithmetic |
| Multipart.PresignableExactly | crates/g7mb-application/src/uploads.rs:727-736 | a part can be signed exactly when its number lies in the layout and under 10,000 |
| Multipart.PartsTileTheFile | crates/g7mb-application/src/uploads.rs:727-736 | signable lengths add up to the file, all full but a nonempty last one |
| Multipart.CompletionExactly | crates/g7mb-application/src/uploads.rs:738-760 | a completion list is accepted exactly if it numbers the parts that just cover the file, in order, each with a well-formed tag |
| Multipart.ValidateCompletedParts | crates/g7mb-object-store-s3/src/lib.rs:1012-1034 | the adapter accepts exactly ordered, nonempty, tagged lists of at most 10,000 parts |
| Multipart.CompletionNamesSignableParts | crates/g7mb-application/src/uploads.rs:738-760 | an accepted completion names exactly the signable parts, once each, and passes the adapter |
| Multipart.CompletableExactly | crates/g7mb-application/src/uploads.rs:738-760 | a file can be completed if and only if it fits 10,000 parts |
| Multipart.DefaultPolicyCompletable | crates/g7mb-domain/src/lib.rs:126-137 | under the default policy every planned file can |
| Multipart.PlanCanExceedTheLayout | crates/g7mb-domain/src/lib.rs:141-187 | another valid policy plans a file that cannot |
| UploadControl.AssemblyIsExact | crates/g7mb-application/src/uploads.rs:519-558 | received parts of an accepted completion join to exactly the reserved length |
| UploadControl.Service.PresignPart | crates/g7mb-application/src/uploads.rs:482-516 | a signature is given exactly for a created multipart row and the one allowed length |
| UploadControl.Service.CompleteMultipart | crates/g7mb-application/src/uploads.rs:519-558 | the answer and its cause for every state, list and pattern of answers; a lost answer still joins the parts |
| UploadControl.Service.ConfirmSingle | crates/g7mb-application/src/uploads.rs:562-595 | the answer and its cause for every state, object and pattern of answers |
| UploadControl.Service.AbortMultipart | crates/g7mb-application/src/uploads.rs:598-628 | the answer and its cause; a tombstone comes only after the session is closed |
| UploadControl.SourceHasReservedLength | crates/g7mb-application/src/uploads.rs:645-655 | in every interleaving the source object has the reserved length, and quarantine follows an observation of it |
| UploadControl.CompletionAlone | crates/g7mb-application/src/uploads.rs:519-558 | undisturbed, the interleaved completion does what the service's method does |
| UploadControl.ConfirmationAlone | crates/g7mb-application/src/uploads.rs:562-595 | and so does a confirmation |
| UploadControl.AbortAlone | crates/g7mb-application/src/uploads.rs:598-628 | and an abort |
| UploadControl.ConfirmableExactly | crates/g7mb-application/src/uploads.rs:541-558 | in every interleaving, beside cleanup, a created reservation can still be confirmed if and only if its single object is there or its URL has not expired, its session is open and the file fits the layout, or a request still finds or has seen the object |
| UploadControl.DropAfterAssemblyStrands | crates/g7mb-application/src/uploads.rs:541-558 | from any fresh multipart reservation a full upload and one dropped request lead to one that never can |
| CreateBatch.FilesAcceptedExactly | crates/g7mb-application/src/uploads.rs:762-790 | metadata passes exactly when well formed with distinct client references |
| CreateBatch.Service.CreateMultipart | crates/g7mb-application/src/uploads.rs:421-438 | a session is opened unless refused, and its identifier is known only when the call answers |
| CreateBatch.Service.Cleanup | crates/g7mb-application/src/uploads.rs:669-686 | every known session is aborted unless refused, and success is reported exactly when all answered |
| CreateBatch.Service.ReserveOne | crates/g7mb-application/src/uploads.rs:396-459 | one file yields an aligned reservation and intent, or rolls the earlier ones back |
| CreateBatch.Service.Create | crates/g7mb-application/src/uploads.rs:355-479 | the answer and its cause for every request and pattern of failures; on success the saved batch and the answers match the request in order and own exactly the new sessions; on failure exactly the sessions whose abort is refused stay open, cleanup is reported due exactly when some abort does not answer, and one session is lost exactly when the first failing call opened it |
| CreateBatch.LostSessionRequest | crates/g7mb-application/src/uploads.rs:421-438 | one video under the default policy whose session is lost |
| Quota.QuotaConserved | crates/g7mb-persistence-sqlite/migrations/0009_storage_usage_quota.sql:27-84 | in every interleaving the counters equal the sums over live uploads and no cap is exceeded |
| Quota.InsertAllEffect | crates/g7mb-persistence-sqlite/src/lib.rs:900-1034 | a saved batch adds exactly its bytes and files to its tenant and the total |
| Quota.UpdateKeepsExact | crates/g7mb-persistence-sqlite/migrations/0009_storage_usage_quota.sql:40-65 | the update trigger keeps every counter exact whatever changes in a row |
| Quota.DeleteKeepsExact | crates/g7mb-persistence-sqlite/migrations/0009_storage_usage_quota.sql:67-83 | and so does the delete trigger for a row of any state |
| Quota.SavedExactly | crates/g7mb-persistence-sqlite/src/lib.rs:900-1034 | in every run a batch is saved exactly when its size, the counts of active files and the bytes of live uploads, counted over the rows, stay within the caps; its files are appended in order |
| Quota.VerifyAcceptsExactly | crates/g7mb-persistence-sqlite/src/backup.rs:126-161 | the backup check accepts exactly when the total and every live tenant's counter are right |
| Quota.RunsVerify | crates/g7mb-persistence-sqlite/src/backup.rs:126-161 | it accepts every database the service produces |
| Quota.AcceptedIsExactExactly | crates/g7mb-persistence-sqlite/src/backup.rs:142-161 | an accepted database is exact if and only if no tenant without live uploads has a row |
| Quota.StaleTenantRowAccepted | crates/g7mb-persistence-sqlite/src/backup.rs:142-161 | a stale row is accepted and blocks its tenant |
| Cleanup.RetryConverges | crates/g7mb-object-store-s3/src/lib.rs:746-771 | wherever earlier attempts stopped, one answered attempt leaves what an undisturbed one would |
| Cleanup.RawGoesLast | crates/g7mb-application/src/lifecycle.rs:336-362 | an attempt removes the raw object only after the session and every recorded derivative |
| Cleanup.Service.CleanupStorage | crates/g7mb-application/src/lifecycle.rs:336-362 | session, derivatives in order, raw object: exactly the calls before the first without an answer take effect, that one if its answer was only lost, and its code is returned |
| Cleanup.Service.ClaimBatch | crates/g7mb-persistence-sqlite/src/lib.rs:1340-1483 | exactly the first due rows in order are leased, counted and handed out as they were |
| Cleanup.Service.CompleteCleanup | crates/g7mb-persistence-sqlite/src/lib.rs:1485-1511 | only the lease owner tombstones a row, which loses its lease and retry time |
| Cleanup.Service.FailCleanup | crates/g7mb-persistence-sqlite/src/lib.rs:1513-1552 | only the lease owner, with a later retry time and a well-formed code, releases it to wait for that time |
| Cleanup.Service.RunOnce | crates/g7mb-application/src/lifecycle.rs:271-334 | the batch is exactly the first due rows, the counters are an exact census, and each candidate is tombstoned and gone if every call answered, and otherwise waits for the retry delay with the code of the call that did not |
| CleanupRuns.TombstoneCleanExactly | crates/g7mb-persistence-sqlite/src/lib.rs:1230-1511 | only cleanup's report and the client's abort tombstone; the report leaves nothing at the providers if and only if every derivative ever put is in its claim and nothing deleted was put again, the abort if and only if the parts were not joined, or their object was deleted since and not put again, and no derivative was put |
| CleanupRuns.RawDeletedLast | crates/g7mb-application/src/lifecycle.rs:336-362 | in every interleaving the raw object goes only with the session closed; for a current claim a recorded derivative is then left if and only if it was put again, and a lease holder with an older claim leaves each one ever put |
| CleanupRuns.CleanTombstoneStays | crates/g7mb-application/src/lifecycle.rs:271-334 | behind a clean tombstone, later runs leave something exactly when an object was put and not deleted since; without puts it stays clean |
| CleanupRuns.CleanupRecovers | crates/g7mb-application/src/lifecycle.rs:271-362 | from every crash point, whatever was put meanwhile, one undisturbed lease tombstones the upload and leaves at most derivatives that were never recorded |
| CleanupRuns.FailureReleases | crates/g7mb-application/src/lifecycle.rs:294-362 | when the first call of an undisturbed lease fails, the row waits for its retry time with that call's code, and only a lost answer has an effect |
| CleanupRuns.RequestIsClaimed | crates/g7mb-persistence-sqlite/src/lib.rs:1270-1402 | an accepted deletion request makes the row due from its own second on, whatever the retention cutoffs and an earlier retry delay say, but not past a running lease or the attempt limit |
| CleanupRuns.LateConfirmationLeavesDerivatives | crates/g7mb-persistence-sqlite/src/lib.rs:1159-1228 | a confirmation and publication under the lease leave derivatives behind a tombstone |
| CleanupRuns.StalePutLeavesDerivative | apps/g7mb-worker/src/lib.rs:925-965 | a worker's put after the deletion of its key leaves a derivative behind a tombstone |
| CleanupRuns.AbortAfterJoinLeavesRaw | crates/g7mb-application/src/uploads.rs:598-628 | an abort after the provider joined the parts leaves the raw object behind a tombstone |
| CleanupRuns.RejectedAttemptLeavesDerivative | apps/g7mb-worker/src/lib.rs:676-703 | an attempt that stores a derivative and ends rejected leaves it behind a tombstone |
| Inventory.KeysBelong | crates/g7mb-application/src/inventory.rs:30-37 | every raw and derivative key is listed in its own namespace and in no other |
| Inventory.LessTransitive | crates/g7mb-application/src/inventory.rs:360-378 | the byte order used to check pages is transitive |
| Inventory.LessTotal | crates/g7mb-application/src/inventory.rs:360-378 | and total |
| Inventory.NextCursorValid | crates/g7mb-application/src/inventory.rs:350-378 | the cursor of an accepted page passes the next check and lies beyond the last one |
| Inventory.ListObjects | crates/g7mb-object-store-s3/src/lib.rs:892-953 | an honest listing becomes a page that covers every matching key up to its cursor, or an error for an empty truncated page |
| Inventory.CoveringPageValid | crates/g7mb-application/src/inventory.rs:360-378 | such a page is accepted by the run |
| Inventory.ReconcilePartitions | crates/g7mb-persistence-sqlite/src/lib.rs:247-355 | each key is known, suspected or eligible, once; eligible keys are unowned and were first suspected before the grace limit |
| Inventory.ReconcileObserves | crates/g7mb-persistence-sqlite/src/lib.rs:294-351 | an owner clears a suspicion, a deletion restarts it, anything else keeps its first sighting |
| InventoryJob.Service.PruneOne | crates/g7mb-application/src/inventory.rs:293-331 | the database's recheck and the provider decide which of the three outcomes a key has, with its observation, counter and log entry |
| InventoryJob.Service.ScanPage | crates/g7mb-application/src/inventory.rs:259-343 | a finished page counts and leaves every key by its fate, deletes exactly the prunable keys the provider deletes, and saves its cursor last; an unfinished one touches no other key, deletes no other, and leaves the cursor |
| InventoryJob.Service.PruneAll | crates/g7mb-application/src/inventory.rs:293-331 | each eligible key owned at its recheck becomes known; of the others exactly those the provider deletes are deleted, in listing order, and the rest are counted as failed; the saturating subtraction never saturates |
| InventoryJob.Service.RunOnce | crates/g7mb-application/src/inventory.rs:242-347 | over both namespaces every counter is the exact number of listed keys of its fate, the deletions are exactly those of the finished pages in order, audit deletes nothing, every observation is as its fate demands, and a run stops only at an unlisted or unacceptable page or a failed database call, with the cursor before it |
| InventoryRuns.SavedCursorValid | crates/g7mb-application/src/inventory.rs:350-358 | in every run the durable cursor passes the next run's check |
| InventoryRuns.OnlyUnsavedPagesRepeat | crates/g7mb-application/src/inventory.rs:332-343 | a crash repeats only the unsaved page |
| InventoryRuns.CycleVisitsEachKeyOnce | crates/g7mb-application/src/inventory.rs:242-347 | a cycle visits keys in increasing order, and every key present throughout exactly once |
| InventoryRuns.DeletionsWaitOutTheGrace | crates/g7mb-application/src/inventory.rs:293-331 | a deletion follows a final check and an unbroken suspicion at least the grace period old, begun after any earlier deletion of the key unless that one was never recorded |
| InventoryRuns.YoungObjectDeleted | crates/g7mb-application/src/inventory.rs:308-331 | a run from a fresh namespace in which a lost record makes inventory delete an object not seen before its own scan |
| InventoryRuns.OwnedObjectDeletedExactly | crates/g7mb-application/src/inventory.rs:293-331 | in every run inventory deletes an owned object if and only if its owner arrived after the recheck that cleared the key |
| InventoryRuns.LateOwnerLosesObject | crates/g7mb-application/src/inventory.rs:293-331 | a run from a fresh namespace in which that happens |
| InventoryRuns.PrunedRound | crates/g7mb-application/src/inventory.rs:293-331 | undisturbed, the machine's round for one key does what one round of the service does, for every answer of the provider |
| AnnexB.ParseInvertsEncode | crates/g7mb-media/src/openh264_fallback.rs:269-312 | the length-prefixed form determines its NAL list |
| AnnexB.EncodeInvertsParse | crates/g7mb-media/src/openh264_fallback.rs:269-312 | and every well-formed sample is the encoding of its NAL list |
| AnnexB.AppendNal | crates/g7mb-media/src/openh264_fallback.rs:314-329 | appends a start code and the NAL unless the limit would be passed |
| AnnexB.AvccToAnnexB | crates/g7mb-media/src/openh264_fallback.rs:269-312 | succeeds exactly on nonempty concatenations of nonempty prefixed NALs within both limits, and returns their byte stream |
| AnnexB.OutputLength | crates/g7mb-media/src/openh264_fallback.rs:269-329 | the output is longer by `4 - l` for each NAL |
| AnnexB.FourBytePrefixesKeepTheLength | crates/g7mb-media/src/openh264_fallback.rs:144-156 | with four-byte prefixes a sample under its cap never breaks the output limit |
| AnnexB.SplitRecoversExactly | crates/g7mb-media/src/openh264_fallback.rs:158 | the Annex B splitter recovers the NAL list if and only if no NAL holds `00 00 00` or `00 00 01` or, before another, ends in zero |
| AnnexB.ConversionPreservesNals | crates/g7mb-media/src/openh264_fallback.rs:144-158 | for such samples the decoder receives what the sample held |
| FrameSearch.FeedUnits | crates/g7mb-media/src/openh264_fallback.rs:158-185 | units are fed in order until a frame, the end, or one failure beyond the budget |
| FrameSearch.Search | crates/g7mb-media/src/openh264_fallback.rs:130-192 | nothing before the first key frame is fed, a frame is the first one, fits the frame limits and reports exactly the bytes fed, both budgets hold, and each error has its cause in the samples, the frame or the samples left unread |
| Watermark.PlanFailsExactly | crates/g7mb-media/src/lib.rs:715-791 | beyond preset and margin checks planning fails exactly when the picture is too tall for its width; the later errors cannot occur |
| Watermark.WidthIsLargest | crates/g7mb-media/src/lib.rs:752-765 | the chosen width is the largest meeting all four caps |
| Watermark.PlanIsSound | crates/g7mb-media/src/lib.rs:715-791 | a placement lies in the corner or centre asked for, inside the margins, never enlarges, is the widest allowed and keeps the aspect ratio |
| Duration.ParseSeconds | crates/g7mb-media/src/lib.rs:367-369 | the checked parse fails exactly when the number does not fit |
| Duration.ParseDurationMs | crates/g7mb-media/src/lib.rs:359-388 | accepts exactly digits with an optional fraction whose value is positive and fits, and returns the exact ceiling in milliseconds |
| Duration.MillisExact | crates/g7mb-media/src/lib.rs:370-383 | three digits and a carry are the exact rational rounded up |
| Duration.ParseInvertsPrint | crates/g7mb-media/src/lib.rs:359-388 | parsing inverts printing of every positive 64-bit millisecond count |
| Duration.BareDotAccepted | crates/g7mb-media/src/lib.rs:359-366 | a dot without digits is accepted |
| TokenBucket.Limiter.AdmitToken | apps/g7mb-api/src/lib.rs:232-253 | one admission refills from the second clock read and dates the refill by the first |
| TokenBucket.AdmissionExactly | apps/g7mb-api/src/lib.rs:232-253 | whole tokens earned since the refill time are added up to the burst and one is spent; no saturating step changes the answer |
| TokenBucket.TokensBounded | apps/g7mb-api/src/lib.rs:232-253 | tokens never exceed the burst |
| TokenBucket.AdmissionsBounded | apps/g7mb-api/src/lib.rs:232-253 | admissions are at most the burst plus the rate over elapsed time and gaps |
| TokenBucket.GapsAreNeeded | apps/g7mb-api/src/lib.rs:234-238 | without the gaps the bound is false |
| TokenBucket.MoreThanHalfTheRate | apps/g7mb-api/src/lib.rs:232-253 | a bucket that never fills is credited more than half its rate |
| PolicyLog.NormalisedInjective | crates/g7mb-application/src/policies.rs:330-359 | the normalised byte string never collides over valid watermarks and the disabled case |
| PolicyLog.NormalisedLayout | crates/g7mb-application/src/policies.rs:330-359 | field by field, what is hashed and in which order |
| PolicyLog.RevisionsAreDense | crates/g7mb-persistence-sqlite/src/lib.rs:98-185 | each tenant's revisions are exactly 1 to n in every interleaving |
| PolicyLog.PublicationExactly | crates/g7mb-persistence-sqlite/src/lib.rs:98-185 | in every run a publication is Published exactly if its revision is one more than the tenant's last when it is inserted, and otherwise Unchanged or a conflict by the stored digest, whatever others do in between |
| PolicyLog.PinnedRevisionIsStable | crates/g7mb-application/src/policies.rs:147-153 | a pinned revision resolves to the same snapshot for ever |
| PolicyLog.AnswersAreTruthful | crates/g7mb-application/src/policies.rs:125-145 | Published and Unchanged both mean the log holds the publisher's own settings |
| PolicyLog.ReplayIsUnchanged | crates/g7mb-persistence-sqlite/src/lib.rs:168-184 | an exact replay changes nothing |
| PolicyLog.SnapIsGenuine | crates/g7mb-application/src/policies.rs:262-328 | only a validated Ready image of the tenant and bounded settings are pinned and hashed |
| PolicyLog.SnapExactly | crates/g7mb-application/src/policies.rs:184-328 | every request's outcome before the database is written: the rule that names the error, or the pinned settings and the asset's own key, length and digest |
| PolicyLog.Service.Publish | crates/g7mb-application/src/policies.rs:184-213 | a publication appends exactly the next revision or repeats without effect, and names the failing check otherwise; a lost answer to the insert is an error after which the revision may be stored |

## Left out

- HTTP routing, OpenAPI, JSON transfer objects, tracing, metrics and error-code mapping: no state of their own.
- The S3 SDK client, bucket and CORS set-up and the canary: only listing, part order and idempotence are modelled.
- libvips, FFmpeg, FFprobe, OpenH264 and the sandbox: a renderer or decoder is an arbitrary function.
- SHA-256 and HMAC internals, request signing and the nonce store.
- Expiry times, weights and eviction order of the cache: any entry may vanish at any time.
- Cleanup.Service.ClaimBatch: the order of the rows is a parameter; that user requests come first is the query's ORDER BY. The owner is checked in `RunOnce` and the policy when the service is built; lease overflow is omitted.
- JobQueue.Queue.ClaimNext: among equal turns and equal times of availability the choice is left open.
- Purging of tombstones at the end of a cleanup run; its effect on rows is part of `Quota` and `Delivery`.
- Content lengths in inventory records, and the operational counters.
- URL parsing: a signed URL is its parsed parts. Writing the decoded frame to disk.
- Image and video limit checks, and the sorting of provider and sandbox errors into permanent, transient and operational.
- Configuration loading, the installer, backups on disk, adapters in other languages and the test harness.
- `public_delivery.rs`: its limiter repeats the token bucket.
- Cancellation of a request future by a time-out layer, except as a crash.
- Lease.LeaseExclusion: assumes claim and renewal latency together within one heartbeat; without it only the queue's own guards hold.
- Cleanup.Service.RunOnce: one runner at a time and no purge; interleaved runners, lost leases and crashes are in `CleanupRuns`.
- Delivery.Service.Presign: one request at a time between two reads; interleavings are in `DeliveryRuns`.
- PolicyLog.Service.Publish: running alone; the insert and the comparison are separate steps in the machine of the same module.
- CleanupRuns.TombstoneCleanExactly: the inventory is not a step of that machine; what it deletes is in `InventoryRuns`.
