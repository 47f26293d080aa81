/** What one transaction does to the rows: the statements of app/services/photo.py, app/services/job.py
  and app/worker/photo_jobs.py. */
module Outbox {
  import opened Records

  // ---- photo rows and the outbox insert ----

  /** create_delete_crane_job with create_task: mark the row and queue a job in the same transaction. */
  function QueueDelete(db: Db, p: PhotoId, now: Time): Db
    requires p in db.photos
  {
    db.(photos := db.photos[p := db.photos[p].(status := PendingDelete)],
        jobs := db.jobs + [Job(p, Pending, 0, now, None, now)])
  }

  /** The DELETE of capture_success; the foreign key of the reports cascades. */
  function RemovePhoto(db: Db, p: PhotoId): Db {
    db.(photos := db.photos - {p},
        reports := map r | r in db.reports && db.reports[r].photo != p :: db.reports[r])
  }

  /** The photos that count against a crane's limit. */
  function OpenPhotos(photos: map<PhotoId, Photo>, crane: CraneId): set<PhotoId> {
    set p | p in photos && photos[p].crane == crane && !photos[p].status.PendingDelete?
  }

  function Reporters(db: Db, p: PhotoId): set<Reporter> {
    set r | r in db.reports && db.reports[r].photo == p :: db.reports[r].reporter
  }

  predicate Reapable(cfg: Settings, db: Db, p: PhotoId, now: Time) {
    db.Has(p, PendingUpload) && db.photos[p].addedAt + Millis(cfg.uploadWindow) < now
  }

  // ---- job rows ----

  predicate Claimable(job: Job, now: Time) {
    || (job.status.Pending? && job.availableAt < now)
    || (job.status.Processing? && job.lease.Some? && job.lease.value < now)
  }

  function ClaimRow(cfg: Settings, job: Job, now: Time): Job {
    job.(status := Processing, attempts := job.attempts + 1, lease := Some(now + Seconds(cfg.leaseWindow)))
  }

  function ClaimRows(cfg: Settings, jobs: seq<Job>, ids: seq<JobId>, now: Time): seq<Job> {
    seq(|jobs|, i requires 0 <= i < |jobs| => if i in ids then ClaimRow(cfg, jobs[i], now) else jobs[i])
  }

  // The ORM writes only the columns whose value differs from the row it read, so an outcome is a function of
  // the row that was read and of the row that is there at the write.

  function FailureStatus(cfg: Settings, seen: Job): JobStatus {
    if seen.attempts < cfg.maxAttempts then Pending else Failed
  }

  function NewStatus(cfg: Settings, seen: Job, ok: bool): JobStatus {
    if ok then Completed else FailureStatus(cfg, seen)
  }

  function OutcomeRow(cfg: Settings, seen: Job, row: Job, ok: bool, availableAt: Time): Job {
    var status := NewStatus(cfg, seen, ok);
    row.(status := if status == seen.status then row.status else status,
         lease := if seen.lease.None? then row.lease else None,
         availableAt := if ok then row.availableAt else availableAt)
  }

  /** capture_success and capture_failure, from their write to the commit. */
  function RecordOutcome(cfg: Settings, db: Db, j: JobId, seen: Job, ok: bool, availableAt: Time): Db
    requires j < |db.jobs|
  {
    var written := db.(jobs := db.jobs[j := OutcomeRow(cfg, seen, db.jobs[j], ok, availableAt)]);
    if ok then RemovePhoto(written, seen.key) else written
  }

  /** A job has a lease exactly while it is being processed. */
  predicate Paired(job: Job) {
    job.lease.Some? <==> job.status.Processing?
  }

  /** An outcome written over a row that a claim has taken since it was read. */
  predicate Torn(cfg: Settings, seen: Job, row: Job, ok: bool) {
    !seen.status.Processing? && row.status.Processing? && NewStatus(cfg, seen, ok) != seen.status
  }

  /** Exactly the torn writes separate the lease from the status: every other outcome keeps them paired. */
  lemma OutcomeKeepsPairing(cfg: Settings, seen: Job, row: Job, ok: bool, availableAt: Time)
    requires Paired(seen) && Paired(row)
    ensures Paired(OutcomeRow(cfg, seen, row, ok, availableAt)) <==> !Torn(cfg, seen, row, ok)
  {
  }

  // ---- the keys that have jobs ----

  function Queued(jobs: seq<Job>): set<PhotoId> {
    set i | 0 <= i < |jobs| :: jobs[i].key
  }

  lemma QueuedAppend(jobs: seq<Job>, job: Job)
    ensures Queued(jobs + [job]) == Queued(jobs) + {job.key}
  {
    var after := jobs + [job];
    forall p | p in Queued(jobs) ensures p in Queued(after) {
      var i :| 0 <= i < |jobs| && jobs[i].key == p;
      assert after[i].key == p;
    }
    assert after[|jobs|].key == job.key;
  }

  lemma QueuedSameKeys(before: seq<Job>, after: seq<Job>)
    requires |before| == |after|
    requires forall i :: 0 <= i < |before| ==> after[i].key == before[i].key
    ensures Queued(after) == Queued(before)
  {
    forall p | p in Queued(before) ensures p in Queued(after) {
      var i :| 0 <= i < |before| && before[i].key == p;
      assert after[i].key == p;
    }
  }

  function JobCount(jobs: seq<Job>, p: PhotoId): nat {
    if jobs == [] then 0 else JobCount(jobs[..|jobs| - 1], p) + if jobs[|jobs| - 1].key == p then 1 else 0
  }

  lemma JobCountAppend(jobs: seq<Job>, job: Job, p: PhotoId)
    ensures JobCount(jobs + [job], p) == JobCount(jobs, p) + if job.key == p then 1 else 0
  {
    assert (jobs + [job])[..|jobs|] == jobs;
  }

  lemma {:induction false} JobCountSameKeys(before: seq<Job>, after: seq<Job>, p: PhotoId)
    requires |before| == |after|
    requires forall i :: 0 <= i < |before| ==> after[i].key == before[i].key
    ensures JobCount(after, p) == JobCount(before, p)
  {
    if before != [] {
      JobCountSameKeys(before[..|before| - 1], after[..|after| - 1], p);
    }
  }

  lemma {:induction false} JobCountPositive(jobs: seq<Job>, p: PhotoId)
    ensures JobCount(jobs, p) > 0 <==> p in Queued(jobs)
  {
    if jobs != [] {
      var n := |jobs| - 1;
      JobCountPositive(jobs[..n], p);
      QueuedAppend(jobs[..n], jobs[n]);
      assert jobs[..n] + [jobs[n]] == jobs;
    }
  }
}
