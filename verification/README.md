# Crane tracker: the photo lifecycle, verified

A Dafny model of the crane tracker's photo lifecycle with its transactional outbox, its admin review list and its gone
reports, and proofs of what they guarantee.

Upload requests, admins, reporters and workers share three tables, a bucket and a clock. An upload reserves a row,
commits, puts the object outside any transaction, finalizes the row, and abandons it on an error. Deleting a photo, reaping
a stalled upload and abandoning one mark the row and queue a job in one transaction. Workers claim leased batches of jobs,
delete the objects, and record success (which removes the row) or failure (which schedules a retry). Any process may crash
between any two steps, storage calls may fail whether or not they take effect and may take effect late, and database
writes may fail.

## How it is built

- `Records`, `Outbox`, `Backoff`: the rows, what each transaction does to them, and the retry delay. Time is counted in
  microseconds, the resolution of both the database and the Python types; job rows are never deleted, so the job table is
  a sequence. A storage key is an injective function of the photo id, so a photo row, its jobs and its object are all
  named by that id.
- `Protocol`: the state machine. An event is one committed transaction or one step of a storage call. Clock readings,
  skipped rows, jitter and failures are event parameters, so `Enabled` and `Apply` cover every interleaving. A `Trace` is
  a run, and `Throughout` says that all events of a run meet a condition.
- `Safety`, `Jobs`, `Attendance`, `UploadWindow`, `Orphans`, `Capacity`, `Leases`, `RowLocks`, `Timing`, `Accounting`, `Stranding`: what holds in all
  runs.
- `Weights`, `Batches`, `Starvation`, `Work`: the claim query and the work that is left.
- `Backend`, `WorkerJobs`, `WorkerMain`, `Routes`: the code itself, as methods on shared mutable state. Each method is
  proved to be a run of the protocol, so what holds for all runs holds for it. `Others` stands for any events of other
  processes and the time they take; it is called between any two transactions, storage effects and answers of a method.
  A commit that raises may have been written. What a method does when nobody interferes is stated for a world in which
  no other process acts (`alone`).
- `Pagination`, `GoneReports`: the review list under change, and the gone-report protocol with its own state machine.

Isolation is PostgreSQL's default, READ COMMITTED: effects appear at the commit, and a row selected for update stays locked
until then. The locks of crane rows and of claimed job rows are part of the state; a delete takes effect at some time
between its request and its answer. Photo ids are fresh whenever they are generated. Whether a crane exists, and the settings, are inputs.

## What the code does not guarantee

- **A job can be stranded.** `capture_failure` and `capture_success` read the job without a lock, and the ORM then writes
  only the columns that differ from what was read (app/worker/photo_jobs.py:92-121). If the job is claimed in between, a
  write can take the lease and leave the status. `NoJobStranded`: every unfinished job in all states of a run becomes
  claimable in time, if and only if no write of the run is of this kind (`Stripping`). `ClaimableIffLeased`: in any run
  such a job is claimable in time, if and only if it is not in processing without a lease. `JobCanBeStranded` is a run of
  three workers, with more than four attempts allowed, that leaves such a job behind, and `StrandedForever` shows that
  without a holder no event ever moves it again. One live worker cannot do this, nor can workers that keep within their
  leases (`OneLiveWorkerNeverSteals`, `PromptWorkersExclude`, `NoStealNeverTorn`, `NotTornNotStripping`).
- **Lease and status can disagree**, in the other direction as well. `OutcomeKeepsPairing` says which writes do it, and
  `PairedIffNotTorn` that runs without them are exactly the runs in which every job has a lease while it is processed and
  at no other time.
- **A finished job can come back.** Outcome writes do not check who holds the lease. `FinalIffNotReviving` says exactly
  which writes change a completed or failed job, `CompletedThenPending` is a run that does, and `TerminalIsFinal` excludes
  them when no job is claimed from a live worker.
- **A late put can leave an orphan object.** A put is late when its row is gone, or when the bucket has carried out a
  worker's delete that is still to be answered with success and recorded. `NoOrphans` excludes orphans from runs without
  late puts, and `OrphanExactlyIfLate` shows that the condition is exact: after a run without late puts, the next put can
  be what leaves an orphan if and only if it is late. `LatePutHappens` is a run in which one is about to land.
- **Two jobs for one key.** Abandoning reads the row without a lock, so the reaper can get in between
  (`TwoJobsForOneKey`). `DistinctIffUnraced`: the keys of the jobs are distinct if and only if abandon always finds its row
  not yet pending deletion when it writes. There are never three jobs (`AtMostTwoJobs`).
- **An upload can be left pending.** `AttendedIffNotDeserted`: in all states of a run every pending upload has its request,
  which can still finalize or abandon it, if and only if no request of the run ends while its photo is pending. A request
  ends so when its reservation's commit raises and is written nevertheless, when abandoning fails, when the route does not
  catch the exception, or in a crash; `UploadCanBeDeserted` is a run with such an end. `UnattendedStep`: the row then stays
  as it is until it is reaped, unless a finalize commit that raised still lands. `UploadCranePhoto` says when the code
  itself leaves a row behind.
- **A threshold below one** makes a crane without reports reach it without being gone (`ThresholdBelowOne`); the code asks
  for at least one report, and `GoneExactly` states when status and threshold agree.

## Model

| member | source | states |
|---|---|---|
| Records.StorageKeyInjective | app/services/photo.py:55-56 | Two photos never share a storage key: the key determines the crane, the photo and the extension |
| Backoff.CeilingMonotone | app/worker/photo_jobs.py:87-89 | The largest delay never shrinks with more attempts and never exceeds the maximum delay |
| Backoff.CeilingDoubles | app/worker/photo_jobs.py:87-89 | The ceiling starts at the base delay and doubles with every attempt until it is cut off at the maximum |
| Backoff.CeilingSaturates | app/worker/photo_jobs.py:87-89 | Once at the maximum delay the ceiling stays there, and a positive base delay takes it there |
| Backoff.CeilingSumBounds | app/worker/photo_jobs.py:87-89 | All ceilings together stay below a linear bound in the maximum delay and a geometric bound in the base delay |
| Outbox.OutcomeKeepsPairing | app/worker/photo_jobs.py:92-121 | An outcome write keeps lease and processing status together exactly if it is not written over a claim made since its read with a status that differs from the one read |
| Safety.InvHolds | app/models/base.py:184-198 | In every reachable state rows, jobs, claims, objects and reports correspond; each report belongs to a row that has been active, one for each photo and reporter |
| Safety.ActiveHasObject | app/routes/crane.py:172-213 | In every reachable state an active photo has its object in the bucket |
| Safety.DeletionNeverHitsLivePhoto | app/worker/photo_jobs.py:158-190 | Once deletion of an object was requested, no continuation makes its photo active or pending upload again |
| Safety.OutboxCorrespondence | app/services/photo.py:260-279 | Live rows have no job, rows pending deletion have one, and no job of an existing row is completed |
| Safety.ReportStays | app/models/base.py:184-198 | A committed report stays as it is for as long as the row of its photo exists, whatever other photos are deleted |
| Safety.ActiveStays | app/services/photo.py:267-301 | Only an admin takes an active photo out of use, unless its request has read it as a pending upload and is about to abandon it |
| Safety.RequestsLandAnyTime | app/services/storage.py:67-96 | A put, a delete or a finalize commit that was sent can take effect at any later time, and again |
| Jobs.AtMostTwoJobs | app/services/photo.py:267-279 | No key ever has more than two jobs |
| Attendance.AttendedIffNotDeserted | app/routes/crane.py:142-155 | In all states of a run every pending upload has a request that can finalize or abandon it, if and only if no request ends while its photo is pending |
| Attendance.UploadCanBeDeserted | app/routes/crane.py:172-183 | A run in which a request ends right after its reservation and leaves the upload pending |
| Attendance.UnattendedStep | app/worker/photo_jobs.py:198-217 | An upload left pending stays so until it is reaped or a finalize commit that raised still lands |
| UploadWindow.NotReapedEarly | app/worker/photo_jobs.py:199-206 | While a request is between its reservation and its finalize and its window has not passed, its row is the pending upload it has committed |
| UploadWindow.FinalizeInTime | app/services/photo.py:241-251 | A request that finalizes within its window activates its photo, whatever reapers, admins and workers do |
| Jobs.TwoJobsForOneKey | app/services/photo.py:270-275 | A run in which the reaper and abandon both queue a job for one key |
| Jobs.DistinctIffUnraced | app/services/photo.py:267-279 | A run queues at most one job for each key if and only if abandon never writes to a row that has become pending deletion since it was read |
| Jobs.OutboxBijection | app/services/job.py:6-10 | If no job is claimed from a live worker: the uncompleted jobs and the rows pending deletion are in bijection by key, and completed jobs have no row, if and only if abandon always writes in the state it has read |
| Orphans.NoOrphans | app/routes/crane.py:183-209 | Unless a put lands late, every stored object belongs to a row, wherever processes crash |
| Orphans.LatePutOrphans | app/worker/photo_jobs.py:173-184 | Every late put, in any run, leads to an object without a row in some continuation without further late puts |
| Orphans.OrphanExactlyIfLate | app/routes/crane.py:183-209 | After a run without late puts, the next put can be what leaves an orphan if and only if it is late |
| Orphans.LatePutHappens | app/worker/photo_jobs.py:195-217 | A run in which a put is about to land after the bucket has deleted its object |
| Capacity.CapacityHeld | app/services/photo.py:131-159 | With the crane row locked, no interleaving exceeds three open photos, and a request that has counted still has room |
| Capacity.AtMostThreePhotos | app/services/photo.py:144-158 | With the crane row locked, no run leaves a crane more than three rows that are active or pending upload |
| Capacity.UnlockedExceeds | app/services/photo.py:137-139 | Without the lock a run ends with four open photos |
| Leases.AttemptsNotShared | app/worker/photo_jobs.py:70-80 | In every run each attempt number of a job belongs to one claim |
| Leases.HoldersKept | app/worker/photo_jobs.py:124-155 | If no job is claimed from a live worker, every claim in memory is its job's latest and no job is held twice |
| RowLocks.ClaimsDisjoint | app/worker/photo_jobs.py:55-64 | Claims that are open at the same time share no job and avoid leases that have not run out, and each can commit all it has selected, whatever happened since |
| RowLocks.ClaimEnds | app/worker/photo_jobs.py:159-166 | However a claim ends, by its commit, an error or a crash, its rows are free for other claims |
| RowLocks.LeaseRespected | app/worker/photo_jobs.py:70-82 | Until an outcome is recorded for a claimed job or its lease has run out, no claim that begins selects it |
| RowLocks.PendingWaits | app/worker/photo_jobs.py:49-53 | A pending job that nothing rewrites is not selected before it is due |
| RowLocks.RetryWaits | app/worker/photo_jobs.py:98-106 | After a recorded failure a job is not selected before its delay has passed, and never if it was given up |
| Leases.OneLiveWorkerNeverSteals | README.md:82-84 | One live worker never claims a job from a live worker |
| Timing.PromptWorkersExclude | app/worker/photo_jobs.py:168-190 | If a claim and a full sequential batch fit into the lease, several workers never hold one job together and always act within their leases |
| Accounting.AttemptsBalance | app/worker/photo_jobs.py:92-121 | If no job is claimed from a live worker: attempts are the recorded failures, the recorded successes, the claims lost to expiry and the attempt under way; pending, failed and completed agree with the counter and failures are bounded |
| Accounting.TerminalIsFinal | app/worker/photo_jobs.py:109-121 | If no job is claimed from a live worker, a completed or failed job row never changes again |
| Accounting.FinalIffNotReviving | app/worker/photo_jobs.py:92-121 | In a run every finished job keeps its status, if and only if no outcome that differs from the status read is written over a different outcome |
| Accounting.LifetimeBackoff | app/worker/photo_jobs.py:98-102 | If no job is claimed from a live worker, the total backoff of a job has a linear and a geometric bound, even when workers stop or outcomes are lost |
| Stranding.PairedIffNotTorn | app/worker/photo_jobs.py:92-121 | A run keeps every job's lease and processing status together in all its states if and only if no outcome write is torn |
| Stranding.NoStealNeverTorn | app/worker/photo_jobs.py:124-155 | If no job is claimed from a live worker then no write is torn |
| Stranding.ClaimableIffLeased | app/worker/photo_jobs.py:49-58 | In every run an unfinished job becomes claimable once the longest delay and the lease have passed, if and only if it is not in processing without a lease |
| Stranding.NoJobStranded | app/worker/photo_jobs.py:92-121 | In all states of a run every unfinished job becomes claimable in time, if and only if no write takes the lease off a row in processing and leaves its status |
| Stranding.NotTornNotStripping | app/worker/photo_jobs.py:92-121 | A run that keeps lease and status together strands no job |
| Stranding.JobCanBeStranded | app/worker/photo_jobs.py:92-106 | A run of three workers that leaves a job in processing without a lease or a holder |
| Stranding.StrandedForever | app/worker/photo_jobs.py:49-58 | Such a job stays as it is in every continuation |
| Weights.LeftOutMeansFull | app/worker/photo_jobs.py:62-64 | A row the claim query leaves out is beaten by a full batch of rows at least as old |
| Weights.DueAreTaken | app/worker/photo_jobs.py:45-64 | A claim takes only unlocked jobs whose retry is due or whose lease has run out, and what it leaves of those comes after a full batch of jobs at least as old |
| Weights.OldestFirstUnique | app/worker/photo_jobs.py:62-64 | With distinct creation times the claim query has one answer |
| Weights.ClaimWeight | app/worker/photo_jobs.py:69-75 | Claiming jobs never adds to the work that is left |
| Batches.BatchWeight | app/worker/photo_jobs.py:158-190 | A batch with all outcomes recorded lowers the remaining weight by at least its size |
| Starvation.NoStarvation | app/worker/photo_jobs.py:45-64 | In every run of workers whose outcomes are recorded, with overlapping claims and later jobs queued at any time, the claims that pass an eligible job over, times the batch size, never exceed the weight of the jobs created no later than it, less those already under way |
| Work.WorkBounded | app/worker/photo_jobs.py:92-121 | If no job is claimed from a live worker, the outcomes that all workers record and the work left after them never exceed the work that was there and the work that reservations, deletes and raced abandons added |
| Backend.World.DeletePhoto | app/services/storage.py:87-104 | After a success the bucket was without the object at some time during the call, whatever others did; a failed call may or may not have deleted it |
| WorkerJobs.ClaimLoop | app/worker/photo_jobs.py:69-80 | The loop claims exactly the selected rows and returns them in order |
| WorkerJobs.ClaimJobs | app/worker/photo_jobs.py:42-84 | The oldest claimable unlocked rows, as many as fit in the batch, are claimed and no other row changes; if the commit raises, the worker has no jobs whether or not they were claimed |
| WorkerJobs.CaptureFailure | app/worker/photo_jobs.py:92-106 | Over whatever row is there after the unlocked read, exactly the changed columns are written: pending or failed as the attempts read demand, no lease, due after at most the ceiling |
| WorkerJobs.CaptureSuccess | app/worker/photo_jobs.py:109-121 | Over whatever row is there after the unlocked read, the job is completed, and its photo row goes with exactly the reports of that photo; nothing else changes |
| WorkerJobs.RecordJobOutcome | app/worker/photo_jobs.py:124-155 | The outcome is recorded; on an error it counts as lost, and it was written completely or not at all |
| WorkerJobs.WorkThrough | app/worker/photo_jobs.py:168-190 | The jobs are worked on in order; no delete is begun after a shutdown signal, which may come at any time |
| WorkerJobs.RunDeleteBatch | app/worker/photo_jobs.py:158-190 | Whatever others do, the deletion of each processed job was requested and, unless a write fails, its outcome recorded by this worker, a success if deletes succeed; only a failed claim or a shutdown leaves jobs behind. A batch that nothing disturbs leaves exactly these outcomes in the rows, and failed jobs are new only if a delete failed |
| WorkerJobs.QueueDeletesEffect | app/worker/photo_jobs.py:214-217 | Reaping marks exactly the selected rows and appends one fresh job for each |
| WorkerJobs.ReapWeight | app/worker/photo_jobs.py:214-217 | Reaping lowers the total weight by the number of reaped uploads |
| WorkerJobs.ReapLoop | app/worker/photo_jobs.py:214-215 | The loop queues the deletion of each selected photo in turn |
| WorkerJobs.StalledAreTaken | app/worker/photo_jobs.py:197-209 | The reaper takes only unlocked uploads whose window has passed, and what it leaves of those comes after a full batch of uploads at least as old |
| WorkerJobs.RunReapCranePhotos | app/worker/photo_jobs.py:195-232 | The oldest uploads whose window has passed, as many as fit in the batch, are reaped together or not at all; if the commit raises nothing counts as reaped |
| WorkerMain.Cycle | app/worker/main.py:29-36 | A cycle that nothing disturbs lowers the total weight by what it processed, and if that is nothing then nothing was claimable or reapable |
| WorkerMain.Turn | app/worker/main.py:29-39 | An iteration sleeps exactly if its cycle has processed nothing, and then for the whole period unless a shutdown is signalled |
| WorkerMain.Loop | app/worker/main.py:29-39 | After a bounded number of undisturbed cycles, from any state in which no job is stranded, every job is completed or failed and no upload is pending; if deletes succeed, none had failed and there was no orphan, only active rows remain and the bucket holds exactly their objects |
| WorkerMain.RipensInTime | app/worker/photo_jobs.py:199-206 | Left alone, all unfinished jobs and pending uploads can be taken after a fixed time, if and only if no job in processing lacks a lease |
| WorkerMain.QuiescentIsReconciled | app/worker/photo_jobs.py:115-121 | When no job is open or failed and no upload is pending, rows, jobs and bucket agree exactly |
| Routes.EnsureCranePhotoCapacity | app/services/photo.py:131-159 | A crane has room exactly if it exists and fewer than three of its photos are active or pending upload |
| Routes.Preupload | app/services/photo.py:188-203 | Without room nothing changes; with room a pending upload of this crane is committed, or the commit raises and the request ends whether or not the row was written |
| Routes.PutPhoto | app/services/photo.py:213-232 | The request goes on to finalize with the object stored, as it does if nothing fails, or to abandon, or ends, whether or not the object was stored |
| Routes.FinalizeCranePhoto | app/services/photo.py:235-257 | The row becomes active exactly if it is still a pending upload; otherwise the request has lost the race |
| Routes.AbandonCranePhotoUpload | app/routes/crane.py:142-155 | Unless the write fails, the photo is no longer a pending upload, whatever others do in between; a photo that is none is left alone |
| Routes.UploadCranePhoto | app/routes/crane.py:164-217 | A created photo is active and has its object; if nothing fails and the window does not pass it is created; a pending upload is left only by a failed write or an exception that the route does not catch |
| Routes.DeleteCranePhoto | app/services/photo.py:282-301 | Exactly an active photo of this crane is marked and gets a job; otherwise nothing changes, and after a failed commit both have happened or neither |
| Routes.ReportCranePhoto | app/services/photo.py:329-349 | Exactly a first report of an active photo of this crane is added |
| Pagination.PageExact | app/routes/crane.py:70-93 | A page holds the first matching photos before the cursor in descending order, and is the last exactly if none follows |
| Pagination.PageShows | app/services/photo.py:313-324 | A page shows only active photos before the cursor, with a report if that is asked for |
| Pagination.PageLeavesOut | app/routes/crane.py:70-93 | Such a photo that a page leaves out comes after all that it shows, and the page is full and not the last |
| Pagination.ShownHasObject | app/services/photo.py:313-324 | In every reachable state each photo on a page has its object in the bucket |
| Pagination.ScanDecreases | app/services/photo.py:313-324 | Whatever changes between pages, the ids shown strictly decrease, so none is repeated |
| Pagination.ScanComplete | app/services/photo.py:313-326 | A photo that is active, and reported if that is asked for, at every request of the scan is shown |
| Pagination.ScanSound | app/services/photo.py:313-326 | A photo that is shown is on the page of some request, and was active, and reported if that is asked for, when that page was served |
| Pagination.FixedScan | app/services/photo.py:313-326 | On unchanging tables the pages together are the whole filtered list in descending order |
| Pagination.CountsAreReporters | app/services/photo.py:352-362 | In every reachable state the count shown is the number of distinct reporters, and reported photos never show zero |
| GoneReports.GoneExactly | app/services/crane.py:227-237 | A crane is gone exactly when its distinct reporters reach the threshold and there is at least one |
| GoneReports.NeverReverts | app/services/crane.py:236-241 | The status never reverts and no report is lost |
| GoneReports.DuplicatesChangeNothing | app/services/crane.py:218-225 | Whatever other reporters do meanwhile, a run without the requests that repeat a report is possible too and leads to the same committed rows and the same state of all other requests |
| GoneReports.ThresholdBelowOne | app/services/crane.py:236-237 | With a threshold below one a crane without reports has reached it and is not gone |
| GoneReports.UnlockedMisses | app/services/crane.py:211 | Without the row lock a crane can reach its threshold and stay active |
| GoneReports.Cranes.ReportCraneAsGone | app/services/crane.py:201-244 | A first report is added and decides the status; a duplicate or a missing crane changes nothing; if a write or the commit raises, report and status are both written or neither |

## Left out

- prepare_image and the file checks of an upload: foreign image codecs; the model starts from an accepted file.
- The storage client, its configuration and public URLs: only the effect on the set of stored keys is modelled.
- create_crane, get_cranes and geocoding: spatial predicates and an HTTP call, leaving only range checks.
- delete_crane: no route or worker calls it, and its cascade would add events the deployed system does not have.
- Admin accounts, tokens and hashing: the IP hash is an opaque reporter identity.
- Rate limits, request wiring, logging, settings validation and migrations; last_error and completed_at are not modelled because nothing reads them.
- The operation of a job: it has one value, so the claim query's filter on it is always true.
- Negative settings: delays, windows, the batch size and the number of attempts are natural numbers.
- A commit that raises and that the database completes only some time later: it is modelled as completing at the error or never. A finalize commit that completes late is modelled.
- WorkerJobs.RunDeleteBatch: what the rows hold at the end is stated for a batch that nobody disturbs, since others may rewrite them.
- Interference while a claim is open: ClaimJobs selects and commits in one step, as its rows are locked; ClaimsDisjoint covers what others do in between.
- An exception that ends a worker's cycle other than a database or storage error: the worker drops its jobs, which is the event of a stop.
- Waiting for the crane row: Preupload and ReportCraneAsGone start when the lock is granted, and lock timeouts count as errors before any write.
