/** How much work the job table still holds, and the order in which claims take it. */
module Weights {
  import opened Records
  import Outbox
  import Protocol

  /** The outcomes that can still be recorded for a job before it is completed or failed. */
  function JobWeight(cfg: Settings, job: Job): nat {
    match job.status
    case Pending => Max(cfg.maxAttempts - job.attempts, 1)
    case Processing => Max(cfg.maxAttempts - job.attempts, 0) + 1
    case _ => 0
  }

  /** A pending upload becomes at worst a fresh job. */
  function UploadWeight(cfg: Settings): nat {
    Max(cfg.maxAttempts, 1) + 1
  }

  /** The summed weight of the jobs created no later than `until`, or of all jobs. */
  function Weight(cfg: Settings, jobs: seq<Job>, until: Option<Time>): nat {
    if jobs == [] then 0
    else
      var job := jobs[|jobs| - 1];
      Weight(cfg, jobs[..|jobs| - 1], until)
      + if until.Some? && until.value < job.createdAt then 0 else JobWeight(cfg, job)
  }

  function Uploads(photos: map<PhotoId, Photo>): set<PhotoId> {
    set p | p in photos && photos[p].status.PendingUpload?
  }

  function TotalWeight(cfg: Settings, db: Db): nat {
    Weight(cfg, db.jobs, None) + UploadWeight(cfg) * |Uploads(db.photos)|
  }

  lemma WeightAppend(cfg: Settings, jobs: seq<Job>, job: Job, until: Option<Time>)
    ensures Weight(cfg, jobs + [job], until) == Weight(cfg, jobs, until)
      + if until.Some? && until.value < job.createdAt then 0 else JobWeight(cfg, job)
  {
    assert (jobs + [job])[..|jobs|] == jobs;
  }

  lemma {:induction false} WeightUpdate(cfg: Settings, jobs: seq<Job>, j: JobId, row: Job, until: Option<Time>)
    requires j < |jobs| && row.createdAt == jobs[j].createdAt
    ensures Weight(cfg, jobs[j := row], until) == Weight(cfg, jobs, until)
      + if until.Some? && until.value < row.createdAt then 0 else JobWeight(cfg, row) - JobWeight(cfg, jobs[j])
  {
    var n := |jobs| - 1;
    if j < n {
      WeightUpdate(cfg, jobs[..n], j, row, until);
      assert jobs[j := row][..n] == jobs[..n][j := row];
    } else {
      assert jobs[j := row][..n] == jobs[..n];
    }
  }

  /** Queueing the deletion of a pending upload turns its weight into the smaller weight of a job. */
  lemma QueueWeight(cfg: Settings, db: Db, p: PhotoId, now: Time)
    requires db.Has(p, PendingUpload)
    ensures TotalWeight(cfg, Outbox.QueueDelete(db, p, now)) + 1 == TotalWeight(cfg, db)
  {
    var after := Outbox.QueueDelete(db, p, now);
    WeightAppend(cfg, db.jobs, Job(p, Pending, 0, now, None, now), None);
    assert Uploads(db.photos) == Uploads(after.photos) + {p};
    var n := |Uploads(after.photos)|;
    assert UploadWeight(cfg) * (n + 1) == UploadWeight(cfg) * n + UploadWeight(cfg);
  }

  lemma {:induction false} WeightPositive(cfg: Settings, jobs: seq<Job>, j: JobId)
    requires j < |jobs| && !jobs[j].Terminal()
    ensures Weight(cfg, jobs, None) > 0
  {
    var n := |jobs| - 1;
    if j < n {
      WeightPositive(cfg, jobs[..n], j);
    }
  }

  /** Claiming never adds weight. */
  lemma {:induction false} ClaimWeight(cfg: Settings, jobs: seq<Job>, ids: seq<JobId>, now: Time, until: Option<Time>)
    requires forall k :: 0 <= k < |ids| ==> ids[k] < |jobs| && Outbox.Claimable(jobs[ids[k]], now)
    ensures Weight(cfg, Outbox.ClaimRows(cfg, jobs, ids, now), until) <= Weight(cfg, jobs, until)
  {
    PointwiseWeight(cfg, jobs, Outbox.ClaimRows(cfg, jobs, ids, now), until);
  }

  lemma {:induction false} PointwiseWeight(cfg: Settings, before: seq<Job>, after: seq<Job>, until: Option<Time>)
    requires |before| == |after|
    requires forall i :: 0 <= i < |before| ==>
      after[i].createdAt == before[i].createdAt && JobWeight(cfg, after[i]) <= JobWeight(cfg, before[i])
    ensures Weight(cfg, after, until) <= Weight(cfg, before, until)
  {
    if before != [] {
      PointwiseWeight(cfg, before[..|before| - 1], after[..|after| - 1], until);
    }
  }

  // ---- the claim query ----

  /** SKIP LOCKED leaves out the rows that other transactions hold. */
  function Eligible(jobs: seq<Job>, now: Time, locked: set<JobId>): set<JobId> {
    set j | 0 <= j < |jobs| && Outbox.Claimable(jobs[j], now) && j !in locked
  }

  /** ORDER BY created_at LIMIT: the oldest rows, as many as fit, in order. Rows of one age come in any order. */
  predicate OldestFirst(jobs: seq<Job>, rows: set<JobId>, limit: nat, ids: seq<JobId>) {
    && (forall j :: j in rows ==> j < |jobs|)
    && Protocol.Distinct(ids) && |ids| == Min(limit, |rows|)
    && (forall k :: 0 <= k < |ids| ==> ids[k] in rows)
    && (forall i, k :: 0 <= i < k < |ids| ==> jobs[ids[i]].createdAt <= jobs[ids[k]].createdAt)
    && (forall j, k :: j in rows && j !in ids && 0 <= k < |ids| ==> jobs[ids[k]].createdAt <= jobs[j].createdAt)
  }

  lemma {:induction false} DistinctSize(ids: seq<JobId>, rows: set<JobId>)
    requires Protocol.Distinct(ids) && forall k :: 0 <= k < |ids| ==> ids[k] in rows
    ensures |ids| <= |rows|
    ensures |ids| == |rows| ==> forall j :: j in rows ==> j in ids
  {
    if ids != [] {
      DistinctSize(ids[1..], rows - {ids[0]});
      assert forall j :: j in ids <==> j == ids[0] || j in ids[1..];
    }
  }

  /** A row that the query could have taken and did not is beaten by a full batch of rows at least as old. */
  lemma LeftOutMeansFull(jobs: seq<Job>, rows: set<JobId>, limit: nat, ids: seq<JobId>, j: JobId)
    requires OldestFirst(jobs, rows, limit, ids) && j in rows && j !in ids
    ensures |ids| == limit
    ensures forall k :: 0 <= k < |ids| ==> jobs[ids[k]].createdAt <= jobs[j].createdAt
  {
    DistinctSize(ids, rows);
  }

  /** A claim takes no job before its retry is due or its lease has run out, and what it leaves although it could take it
    comes after a full batch of jobs at least as old. */
  lemma DueAreTaken(jobs: seq<Job>, now: Time, locked: set<JobId>, limit: nat, ids: seq<JobId>, j: JobId)
    requires OldestFirst(jobs, Eligible(jobs, now, locked), limit, ids) && j < |jobs|
    ensures var job := jobs[j];
      var due := || (job.status.Pending? && job.availableAt < now)
                 || (job.status.Processing? && job.lease.Some? && job.lease.value < now);
      && (j in ids ==> due && j !in locked)
      && (due && j !in locked && j !in ids ==>
            |ids| == limit && forall k :: 0 <= k < |ids| ==> ids[k] < |jobs| && jobs[ids[k]].createdAt <= job.createdAt)
  {
    if j in Eligible(jobs, now, locked) && j !in ids {
      LeftOutMeansFull(jobs, Eligible(jobs, now, locked), limit, ids, j);
    }
  }

  /** With distinct creation times the query has one answer. */
  lemma OldestFirstUnique(jobs: seq<Job>, rows: set<JobId>, limit: nat, a: seq<JobId>, b: seq<JobId>)
    requires OldestFirst(jobs, rows, limit, a) && OldestFirst(jobs, rows, limit, b)
    requires forall i, k :: i in rows && k in rows && jobs[i].createdAt == jobs[k].createdAt ==> i == k
    ensures a == b
  {
    forall k | 0 <= k < |a| ensures a[k] == b[k] {
      OldestFirstAgree(jobs, rows, limit, a, b, k);
    }
  }

  lemma {:induction false} OldestFirstAgree(jobs: seq<Job>, rows: set<JobId>, limit: nat, a: seq<JobId>, b: seq<JobId>, k: nat)
    requires OldestFirst(jobs, rows, limit, a) && OldestFirst(jobs, rows, limit, b) && k < |a|
    requires forall i, k :: i in rows && k in rows && jobs[i].createdAt == jobs[k].createdAt ==> i == k
    ensures forall i :: 0 <= i <= k ==> a[i] == b[i]
  {
    if k > 0 {
      OldestFirstAgree(jobs, rows, limit, a, b, k - 1);
    }
    NotYounger(jobs, rows, limit, a, b, k);
    NotYounger(jobs, rows, limit, b, a, k);
  }

  lemma NotYounger(jobs: seq<Job>, rows: set<JobId>, limit: nat, a: seq<JobId>, b: seq<JobId>, k: nat)
    requires OldestFirst(jobs, rows, limit, a) && OldestFirst(jobs, rows, limit, b) && k < |a|
    requires forall i :: 0 <= i < k ==> a[i] == b[i]
    ensures jobs[a[k]].createdAt <= jobs[b[k]].createdAt
  {
    if b[k] in a {
      var i :| 0 <= i < |a| && a[i] == b[k];
      assert i >= k;
    }
  }
}
