/** app/worker/photo_jobs.py, run by one worker. Between its transactions and storage calls other processes do as they
  like, and time passes. Every method is shown to be a run of the protocol, so what holds for all runs holds here. */
module WorkerJobs {
  import opened Records
  import Backoff
  import opened Outbox
  import opened Protocol
  import Safety
  import opened Accounting
  import opened Weights
  import opened Batches
  import opened Backend

  datatype ClaimedJob = ClaimedJob(id: JobId, key: PhotoId)

  function Ids(claimed: seq<ClaimedJob>): seq<JobId> {
    seq(|claimed|, k requires 0 <= k < |claimed| => claimed[k].id)
  }

  // ---- the queries ----

  method OldestJob(jobs: seq<Job>, rows: set<JobId>) returns (oldest: JobId)
    requires rows != {} && forall j :: j in rows ==> j < |jobs|
    ensures oldest in rows && forall j :: j in rows ==> jobs[oldest].createdAt <= jobs[j].createdAt
  {
    oldest :| oldest in rows;
    var rest := rows - {oldest};
    while rest != {}
      invariant rest <= rows && oldest in rows
      invariant forall j :: j in rows - rest ==> jobs[oldest].createdAt <= jobs[j].createdAt
      decreases rest
    {
      var j :| j in rest;
      rest := rest - {j};
      if jobs[j].createdAt < jobs[oldest].createdAt {
        oldest := j;
      }
    }
  }

  /** What the database answers to the claim query. */
  method SelectOldest(jobs: seq<Job>, rows: set<JobId>, limit: nat) returns (ids: seq<JobId>)
    requires forall j :: j in rows ==> j < |jobs|
    ensures OldestFirst(jobs, rows, limit, ids)
  {
    ids := [];
    var rest := rows;
    while |ids| < limit && rest != {}
      invariant rest <= rows && |ids| <= limit && |ids| + |rest| == |rows|
      invariant Distinct(ids) && forall k :: 0 <= k < |ids| ==> ids[k] in rows && ids[k] !in rest
      invariant forall j :: j in rows && j !in ids ==> j in rest
      invariant forall i, k :: 0 <= i < k < |ids| ==> jobs[ids[i]].createdAt <= jobs[ids[k]].createdAt
      invariant forall j, k :: j in rest && 0 <= k < |ids| ==> jobs[ids[k]].createdAt <= jobs[j].createdAt
      decreases rest
    {
      var j := OldestJob(jobs, rest);
      ids, rest := ids + [j], rest - {j};
    }
  }

  // ---- claiming ----

  /** The loop of claim_jobs over the rows that the query has locked. */
  method ClaimLoop(cfg: Settings, jobs: seq<Job>, ids: seq<JobId>, now: Time)
      returns (rows: seq<Job>, claimed: seq<ClaimedJob>)
    requires Distinct(ids) && forall k :: 0 <= k < |ids| ==> ids[k] < |jobs|
    ensures rows == ClaimRows(cfg, jobs, ids, now)
    ensures |claimed| == |ids| && forall k :: 0 <= k < |ids| ==> claimed[k] == ClaimedJob(ids[k], jobs[ids[k]].key)
  {
    rows, claimed := jobs, [];
    for i := 0 to |ids|
      invariant |rows| == |jobs| && |claimed| == i
      invariant forall k :: 0 <= k < i ==> claimed[k] == ClaimedJob(ids[k], jobs[ids[k]].key)
      invariant forall j :: 0 <= j < |rows| ==> rows[j] == if j in ids[..i] then ClaimRow(cfg, jobs[j], now) else jobs[j]
    {
      var job := rows[ids[i]];
      assert ids[i] !in ids[..i] && ids[..i + 1] == ids[..i] + [ids[i]];
      rows := rows[ids[i] := job.(status := Processing, attempts := job.attempts + 1,
                                  lease := Some(now + 1_000_000 * cfg.leaseWindow))];
      claimed := claimed + [ClaimedJob(ids[i], job.key)];
    }
    assert ids[..|ids|] == ids;
  }

  lemma SelectRun(cfg: Settings, alone: bool, run: Trace, w: nat, ids: seq<JobId>, now: Time) returns (next: Trace)
    requires IsRun(cfg, run) && w !in Reached(cfg, run).locks && MayClaim(cfg, Reached(cfg, run), w, ids, now)
    requires forall k :: 0 <= k < |ids| ==> RowFree(Reached(cfg, run), ids[k])
    ensures IsRun(cfg, next) && Follows(cfg, alone, run, next)
    ensures Reached(cfg, next) == Reached(cfg, run).(locks := Reached(cfg, run).locks[w := Selection(ids, now)])
  {
    next := Grow(cfg, alone, run, run, SelectJobs(w, ids, now));
  }

  lemma CommitRun(cfg: Settings, alone: bool, from: Trace, run: Trace, w: nat, ids: seq<JobId>, now: Time)
      returns (next: Trace)
    requires IsRun(cfg, run) && Follows(cfg, alone, from, run) && MayClaim(cfg, Reached(cfg, run), w, ids, now)
    requires w in Reached(cfg, run).locks && Reached(cfg, run).locks[w] == Selection(ids, now)
    ensures IsRun(cfg, next) && Follows(cfg, alone, from, next)
    ensures var s := Reached(cfg, run);
      Reached(cfg, next) == s.(db := s.db.(jobs := ClaimRows(cfg, s.db.jobs, ids, now)), locks := s.locks - {w},
                               workers := s.workers[w := Worker(Claims(s.db.jobs, ids), Ready, now, s.clock)])
  {
    next := Grow(cfg, alone, from, run, ClaimBatch(w, ids, now));
  }

  lemma ClaimRun(cfg: Settings, alone: bool, run: Trace, w: nat, ids: seq<JobId>, now: Time) returns (next: Trace)
    requires IsRun(cfg, run) && w !in Reached(cfg, run).locks && MayClaim(cfg, Reached(cfg, run), w, ids, now)
    requires forall k :: 0 <= k < |ids| ==> RowFree(Reached(cfg, run), ids[k])
    ensures IsRun(cfg, next) && Follows(cfg, alone, run, next)
    ensures var s := Reached(cfg, run);
      Reached(cfg, next) == s.(db := s.db.(jobs := ClaimRows(cfg, s.db.jobs, ids, now)),
                               workers := s.workers[w := Worker(Claims(s.db.jobs, ids), Ready, now, s.clock)])
  {
    next := SelectRun(cfg, alone, run, w, ids, now);
    next := CommitRun(cfg, alone, run, next, w, ids, now);
    assert Reached(cfg, next).locks == Reached(cfg, run).locks;
  }

  /** The worker forgets its jobs. */
  lemma ForgetRun(cfg: Settings, alone: bool, from: Trace, run: Trace, w: nat) returns (next: Trace)
    requires IsRun(cfg, run) && Follows(cfg, alone, from, run) && w in Reached(cfg, run).workers
    requires w !in Reached(cfg, run).locks
    ensures IsRun(cfg, next) && Follows(cfg, alone, from, next)
    ensures Reached(cfg, next) == Reached(cfg, run).(workers := Reached(cfg, run).workers - {w})
  {
    next := Grow(cfg, alone, from, run, WorkerStops(w));
    assert Reached(cfg, next).locks == Reached(cfg, run).locks;
  }

  lemma RollbackRun(cfg: Settings, alone: bool, run: Trace, w: nat, ids: seq<JobId>, now: Time) returns (next: Trace)
    requires IsRun(cfg, run) && w !in Reached(cfg, run).locks && MayClaim(cfg, Reached(cfg, run), w, ids, now)
    requires forall k :: 0 <= k < |ids| ==> RowFree(Reached(cfg, run), ids[k])
    ensures IsRun(cfg, next) && Follows(cfg, alone, run, next)
    ensures Reached(cfg, next) == Reached(cfg, run)
  {
    next := SelectRun(cfg, alone, run, w, ids, now);
    next := Grow(cfg, alone, run, next, ClaimFails(w));
    assert Reached(cfg, next).locks == Reached(cfg, run).locks;
  }

  /** The claim takes exactly the oldest claimable rows that nobody has locked, and changes no other row. If the commit
    raises, the worker has no jobs, though the rows may be claimed. */
  method ClaimJobs(b: World, ghost w: nat) returns (ok: bool, claimed: seq<ClaimedJob>, ghost ids: seq<JobId>)
    requires b.Valid() && b.Resting(w)
    modifies b`jobs, b`run
    ensures b.Valid() && b.Since(old(b.run)) && w !in b.Here().locks
    ensures OldestFirst(old(b.jobs), Eligible(old(b.jobs), b.clock, b.lockedJobs), b.cfg.batchSize, ids)
    ensures b.jobs == ClaimRows(b.cfg, old(b.jobs), ids, b.clock) || (!ok && b.jobs == old(b.jobs))
    ensures b.writesSucceed ==> ok
    ensures ok ==>
      && Ids(claimed) == ids && (forall k :: 0 <= k < |ids| ==> claimed[k].key == old(b.jobs)[ids[k]].key)
      && w in b.Here().workers
      && b.Here().workers[w] == Worker(Claims(old(b.jobs), ids), Ready, b.clock, b.clock)
    ensures !ok ==> claimed == [] && b.Here().Idle(w)
  {
    var now := b.clock;
    var oldest := SelectOldest(b.jobs, Eligible(b.jobs, now, b.lockedJobs), b.cfg.batchSize);
    ids := oldest;
    var rows;
    rows, claimed := ClaimLoop(b.cfg, b.jobs, oldest, now);
    assert Ids(claimed) == ids;
    var written;
    ok, written := b.Commit();
    ghost var from := b.run;
    if written {
      b.run := ClaimRun(b.cfg, b.alone, from, w, ids, now);
      b.jobs := rows;
    } else {
      b.run := RollbackRun(b.cfg, b.alone, from, w, ids, now);
    }
    if !ok {
      claimed := [];
      if written {
        b.run := ForgetRun(b.cfg, b.alone, from, b.run, w);
      }
    }
  }

  // ---- outcomes ----

  /** The delay in microseconds. */
  method CalculateBackoff(cfg: Settings, attempts: nat) returns (delay: nat)
    ensures delay <= 1000 * Backoff.Ceiling(cfg, attempts)
  {
    delay :| delay <= 1000 * Backoff.Ceiling(cfg, attempts);
  }

  /** Worker w has its answer from the bucket for job j and goes on to record it. */
  predicate Answering(s: State, w: nat, j: JobId, ok: bool) {
    s.At(w) && w !in s.locks && s.Next(w).job == j && s.workers[w].phase == Deleted(ok)
  }

  /** Worker w has gone on to its next job. */
  predicate GoneOn(s: State, t: State, w: nat)
    requires s.At(w)
  {
    && w in t.workers && t.workers[w].todo == s.workers[w].todo[1..] && t.workers[w].phase.Ready?
    && w !in t.locks
  }

  lemma ReadRun(cfg: Settings, alone: bool, run: Trace, w: nat, j: JobId, ok: bool) returns (next: Trace)
    requires IsRun(cfg, run) && Answering(Reached(cfg, run), w, j, ok) && j < |Reached(cfg, run).db.jobs|
    ensures IsRun(cfg, next) && Follows(cfg, alone, run, next)
    ensures Reached(cfg, next) == Reached(cfg, run).SetPhase(w, Recording(ok, Reached(cfg, run).db.jobs[j]))
  {
    next := Grow(cfg, alone, run, run, ReadJob(w));
  }

  /** Worker w has read the row and waits for it. */
  predicate Writing(s: State, w: nat, j: JobId, ok: bool, seen: Job) {
    s.At(w) && w !in s.locks && s.Next(w).job == j && s.workers[w].phase == Recording(ok, seen)
    && j < |s.db.jobs| && RowFree(s, j)
  }

  lemma WrittenRun(cfg: Settings, alone: bool, from: Trace, run: Trace, w: nat, j: JobId, ok: bool, seen: Job,
                   now: Time, delay: nat) returns (next: Trace)
    requires IsRun(cfg, run) && Follows(cfg, alone, from, run) && Writing(Reached(cfg, run), w, j, ok, seen)
    requires now <= Reached(cfg, run).clock && delay <= Millis(Backoff.Ceiling(cfg, seen.attempts))
    requires alone ==> seen == Reached(cfg, run).db.jobs[j]
    ensures IsRun(cfg, next) && Follows(cfg, alone, from, next)
    ensures var s := Reached(cfg, run);
      Reached(cfg, next) == s.Advance(w).(db := RecordOutcome(cfg, s.db, j, seen, ok, now + delay))
    ensures Continues(run, next) && OutcomesBy(cfg, run, w, j, ok) < OutcomesBy(cfg, next, w, j, ok)
  {
    next := Grow(cfg, alone, from, run, WriteOutcome(w, now, delay));
  }

  lemma LostRun(cfg: Settings, alone: bool, from: Trace, run: Trace, w: nat, j: JobId, ok: bool, seen: Job)
      returns (next: Trace)
    requires IsRun(cfg, run) && Follows(cfg, alone, from, run) && Writing(Reached(cfg, run), w, j, ok, seen)
    ensures IsRun(cfg, next) && Follows(cfg, alone, from, next)
    ensures Reached(cfg, next) == Reached(cfg, run).Advance(w)
  {
    next := Grow(cfg, alone, from, run, LoseOutcome(w));
  }

  lemma NextJobExists(cfg: Settings, run: Trace, w: nat)
    requires IsRun(cfg, run) && Reached(cfg, run).At(w)
    ensures Safety.ClaimKnown(Reached(cfg, run).db.jobs, Reached(cfg, run).Next(w))
    ensures Safety.Inv(Reached(cfg, run))
  {
    Safety.InvHolds(cfg, run);
  }

  /** The unlocked read, and the wait for the row: others may change it in between. */
  method ReadRow(b: World, ghost w: nat, j: JobId, ghost ok: bool) returns (seen: Job)
    requires b.Valid() && Answering(b.Here(), w, j, ok)
    modifies b
    ensures b.WorkerKept(old(b.shutdown), old(b.naps))
    ensures b.Valid() && b.Since(old(b.run)) && b.clock >= old(b.clock)
    ensures j < |old(b.jobs)| && seen == old(b.jobs)[j]
    ensures Writing(b.Here(), w, j, ok, seen) && b.Here().workers[w].todo == old(b.Here()).workers[w].todo
    ensures seen.key == b.jobs[j].key && seen.key in Queued(b.jobs)
    ensures b.alone ==> b.Rows() == old(b.Rows()) && b.store == old(b.store)
  {
    NextJobExists(b.cfg, b.run, w);
    seen := b.jobs[j];
    ghost var from := b.run;
    b.run := ReadRun(b.cfg, b.alone, b.run, w, j, ok);
    ghost var read := b.run;
    b.AwaitRow(w, j);
    FollowsTrans(b.cfg, b.alone, from, read, b.run);
    NextJobExists(b.cfg, b.run, w);
  }

  method WriteFailure(b: World, ghost from: Trace, ghost w: nat, j: JobId, job: Job, now: Time, delay: nat)
    requires b.Valid() && b.Since(from) && Writing(b.Here(), w, j, false, job) && (b.alone ==> job == b.jobs[j])
    requires now <= b.clock && delay <= Millis(Backoff.Ceiling(b.cfg, job.attempts))
    modifies b`jobs, b`run
    ensures b.Valid() && b.Since(from) && GoneOn(old(b.Here()), b.Here(), w)
    ensures |b.jobs| == |old(b.jobs)| && b.jobs[j].availableAt == now + delay
    ensures b.Rows() == RecordOutcome(b.cfg, old(b.Rows()), j, job, false, now + delay)
    ensures OutcomesBy(b.cfg, old(b.run), w, j, false) < OutcomesBy(b.cfg, b.run, w, j, false)
  {
    b.run := WrittenRun(b.cfg, b.alone, from, b.run, w, j, false, job, now, delay);
    var status := if job.attempts < b.cfg.maxAttempts then Pending else Failed;
    var row := b.jobs[j];
    b.jobs := b.jobs[j := row.(status := if status == job.status then row.status else status,
                               availableAt := now + delay,
                               lease := if job.lease.None? then row.lease else None)];
  }

  method CommitFailure(b: World, ghost from: Trace, ghost w: nat, j: JobId, job: Job, now: Time, delay: nat)
      returns (ok: bool, ghost written: bool)
    requires b.Valid() && b.Since(from) && Writing(b.Here(), w, j, false, job) && (b.alone ==> job == b.jobs[j])
    requires now <= b.clock && delay <= Millis(Backoff.Ceiling(b.cfg, job.attempts))
    modifies b`jobs, b`run
    ensures b.Valid() && b.Since(from) && GoneOn(old(b.Here()), b.Here(), w) && |b.jobs| == |old(b.jobs)|
    ensures b.Rows() == if written then RecordOutcome(b.cfg, old(b.Rows()), j, job, false, now + delay) else old(b.Rows())
    ensures (ok ==> written) && (b.writesSucceed ==> ok)
    ensures written ==>
      b.jobs[j].availableAt == now + delay
      && OutcomesBy(b.cfg, old(b.run), w, j, false) < OutcomesBy(b.cfg, b.run, w, j, false)
  {
    var done;
    ok, done := b.Commit();
    written := done;
    if done {
      WriteFailure(b, from, w, j, job, now, delay);
    } else {
      b.run := LostRun(b.cfg, b.alone, from, b.run, w, j, false, job);
    }
  }

  /** The job row as it was read decides the new values; only those that differ from it are written, over the row as it is
    then. A failed job is retried after a random delay, or given up. `before` is what the write finds. */
  method CaptureFailure(b: World, ghost w: nat, j: JobId)
      returns (ok: bool, ghost written: bool, ghost seen: Job, ghost before: Db)
    requires b.Valid() && Answering(b.Here(), w, j, false)
    modifies b
    ensures b.WorkerKept(old(b.shutdown), old(b.naps))
    ensures b.Valid() && b.Since(old(b.run)) && GoneOn(old(b.Here()), b.Here(), w)
    ensures j < |old(b.jobs)| && seen == old(b.jobs)[j] && j < |before.jobs| == |b.jobs|
    ensures b.Rows() == if written then RecordOutcome(b.cfg, before, j, seen, false, b.jobs[j].availableAt) else before
    ensures written ==>
      old(b.clock) <= b.jobs[j].availableAt <= old(b.clock) + 1000 * Backoff.Ceiling(b.cfg, seen.attempts)
    ensures (ok ==> written) && (b.writesSucceed ==> ok)
    ensures written ==> OutcomesBy(b.cfg, old(b.run), w, j, false) < OutcomesBy(b.cfg, b.run, w, j, false)
    ensures b.alone ==> before == old(b.Rows()) && b.store == old(b.store)
  {
    ghost var from := b.run;
    var now := b.clock;
    var job := ReadRow(b, w, j, false);
    OutcomesGrow(b.cfg, from, b.run, w, j, false);
    seen, before := job, b.Rows();
    var delay := CalculateBackoff(b.cfg, job.attempts);
    ok, written := CommitFailure(b, from, w, j, job, now, delay);
  }

  method WriteSuccess(b: World, ghost from: Trace, ghost w: nat, j: JobId, job: Job)
    requires b.Valid() && b.Since(from) && Writing(b.Here(), w, j, true, job) && (b.alone ==> job == b.jobs[j])
    modifies b`photos, b`jobs, b`reports, b`run
    ensures b.Valid() && b.Since(from) && GoneOn(old(b.Here()), b.Here(), w) && |b.jobs| == |old(b.jobs)|
    ensures b.Rows() == RecordOutcome(b.cfg, old(b.Rows()), j, job, true, b.jobs[j].availableAt)
    ensures OutcomesBy(b.cfg, old(b.run), w, j, true) < OutcomesBy(b.cfg, b.run, w, j, true)
  {
    b.run := WrittenRun(b.cfg, b.alone, from, b.run, w, j, true, job, b.clock, 0);
    var row := b.jobs[j];
    b.jobs := b.jobs[j := row.(status := if job.status.Completed? then row.status else Completed,
                               lease := if job.lease.None? then row.lease else None)];
    var rows := RemovePhoto(b.Rows(), job.key);
    b.photos, b.reports := rows.photos, rows.reports;
  }

  method CommitSuccess(b: World, ghost from: Trace, ghost w: nat, j: JobId, job: Job)
      returns (ok: bool, ghost written: bool)
    requires b.Valid() && b.Since(from) && Writing(b.Here(), w, j, true, job) && (b.alone ==> job == b.jobs[j])
    modifies b`photos, b`jobs, b`reports, b`run
    ensures b.Valid() && b.Since(from) && GoneOn(old(b.Here()), b.Here(), w) && |b.jobs| == |old(b.jobs)|
    ensures b.Rows() ==
      if written then RecordOutcome(b.cfg, old(b.Rows()), j, job, true, b.jobs[j].availableAt) else old(b.Rows())
    ensures (ok ==> written) && (b.writesSucceed ==> ok)
    ensures written ==> OutcomesBy(b.cfg, old(b.run), w, j, true) < OutcomesBy(b.cfg, b.run, w, j, true)
  {
    var done;
    ok, done := b.Commit();
    written := done;
    if done {
      WriteSuccess(b, from, w, j, job);
    } else {
      b.run := LostRun(b.cfg, b.alone, from, b.run, w, j, true, job);
    }
  }

  /** The job is completed, and its photo goes with its reports, in one transaction. */
  method CaptureSuccess(b: World, ghost w: nat, j: JobId)
      returns (ok: bool, ghost written: bool, ghost seen: Job, ghost before: Db)
    requires b.Valid() && Answering(b.Here(), w, j, true)
    modifies b
    ensures b.WorkerKept(old(b.shutdown), old(b.naps))
    ensures b.Valid() && b.Since(old(b.run)) && GoneOn(old(b.Here()), b.Here(), w)
    ensures j < |old(b.jobs)| && seen == old(b.jobs)[j] && j < |before.jobs| == |b.jobs|
    ensures b.Rows() == if written then RecordOutcome(b.cfg, before, j, seen, true, b.jobs[j].availableAt) else before
    ensures written ==> b.photos == before.photos - {seen.key}
    ensures written ==> forall r :: r in b.reports <==> r in before.reports && before.reports[r].photo != seen.key
    ensures forall r :: r in b.reports ==> b.reports[r] == before.reports[r]
    ensures (ok ==> written) && (b.writesSucceed ==> ok)
    ensures written ==> OutcomesBy(b.cfg, old(b.run), w, j, true) < OutcomesBy(b.cfg, b.run, w, j, true)
    ensures b.alone ==> before == old(b.Rows()) && b.store == old(b.store)
  {
    ghost var from := b.run;
    var job := ReadRow(b, w, j, true);
    OutcomesGrow(b.cfg, from, b.run, w, j, true);
    seen, before := job, b.Rows();
    ok, written := CommitSuccess(b, from, w, j, job);
  }

  /** A photo with a job is not a pending upload. */
  lemma NotUploading(cfg: Settings, run: Trace, p: PhotoId)
    requires IsRun(cfg, run) && p in Queued(Reached(cfg, run).db.jobs)
    ensures Uploads(Reached(cfg, run).db.photos - {p}) == Uploads(Reached(cfg, run).db.photos)
  {
    Safety.InvHolds(cfg, run);
  }

  /** _record_job_outcome: an error is caught and the outcome counts as lost, whether or not it was written. */
  method RecordJobOutcome(b: World, ghost w: nat, j: JobId, ok: bool)
      returns (recorded: bool, ghost written: bool, ghost seen: Job, ghost before: Db)
    requires b.Valid() && Answering(b.Here(), w, j, ok)
    modifies b
    ensures b.WorkerKept(old(b.shutdown), old(b.naps))
    ensures b.Valid() && b.Since(old(b.run)) && GoneOn(old(b.Here()), b.Here(), w)
    ensures j < |old(b.jobs)| && seen == old(b.jobs)[j] && j < |before.jobs| == |b.jobs|
    ensures b.Rows() == if written then RecordOutcome(b.cfg, before, j, seen, ok, b.jobs[j].availableAt) else before
    ensures (recorded ==> written) && (b.writesSucceed ==> recorded)
    ensures written ==> OutcomesBy(b.cfg, old(b.run), w, j, ok) < OutcomesBy(b.cfg, b.run, w, j, ok)
    ensures b.alone ==> before == old(b.Rows()) && b.store == old(b.store)
    ensures b.alone && written ==>
      && OutcomeOf(b.cfg, old(b.jobs)[j], b.jobs[j]) && b.jobs[j].status == NewStatus(b.cfg, old(b.jobs)[j], ok)
    ensures b.alone ==> Uploads(b.photos) == Uploads(old(b.photos))
  {
    NextJobExists(b.cfg, b.run, w);
    assert b.jobs[j].key in Queued(b.jobs);
    NotUploading(b.cfg, b.run, b.jobs[j].key);
    if ok {
      recorded, written, seen, before := CaptureSuccess(b, w, j);
    } else {
      recorded, written, seen, before := CaptureFailure(b, w, j);
    }
  }

  // ---- a batch ----

  /** The first i outcomes of the batch are recorded; the other claimed rows are as the claim left them. */
  ghost predicate Halfway(cfg: Settings, r: Round, i: nat) {
    && |r.after| == |r.before| && i <= |r.ids|
    && (forall j :: 0 <= j < |r.before| && j !in r.ids ==> r.after[j] == r.before[j])
    && (forall k :: 0 <= k < |r.ids| ==> r.ids[k] < |r.before|)
    && (forall k :: 0 <= k < i ==> OutcomeOf(cfg, ClaimRow(cfg, r.before[r.ids[k]], r.now), r.after[r.ids[k]]))
    && (forall k :: i <= k < |r.ids| ==> r.after[r.ids[k]] == ClaimRow(cfg, r.before[r.ids[k]], r.now))
  }

  lemma HalfwayStep(cfg: Settings, r: Round, i: nat, next: seq<Job>)
    requires Halfway(cfg, r, i) && i < |r.ids| && Distinct(r.ids)
    requires |next| == |r.after| && next == r.after[r.ids[i] := next[r.ids[i]]]
    requires OutcomeOf(cfg, r.after[r.ids[i]], next[r.ids[i]])
    ensures Halfway(cfg, r.(after := next), i + 1)
  {
    forall k | 0 <= k < |r.ids| && k != i ensures next[r.ids[k]] == r.after[r.ids[k]] {
      assert r.ids[k] != r.ids[i];
    }
  }

  /** The delete of one job, and what others do until its outcome is recorded. */
  method DeleteObject(b: World, ghost from: Trace, ghost w: nat, job: ClaimedJob) returns (ok: bool)
    requires b.Valid() && b.Since(from) && !b.shutdown
    requires b.Here().At(w) && b.Here().workers[w].phase.Ready? && w !in b.Here().locks
    requires b.Here().Next(w).job == job.id && b.Here().Next(w).key == job.key
    modifies b
    ensures b.WorkerKept(old(b.shutdown), old(b.naps))
    ensures b.Valid() && b.Since(from) && Continues(old(b.run), b.run)
    ensures Answering(b.Here(), w, job.id, ok) && b.Here().workers[w].todo == old(b.Here()).workers[w].todo
    ensures job.key in b.Here().deletes
    ensures b.deletesSucceed ==> ok
    ensures b.alone ==> b.Rows() == old(b.Rows())
  {
    ghost var begin, at := b.run, b.run;
    ok, at := b.DeletePhoto(w, job.key);
    FollowsTrans(b.cfg, b.alone, from, begin, b.run);
    ghost var answered := b.run;
    b.Others(Working(w));
    ContinuesTrans(begin, answered, b.run);
    FollowsTrans(b.cfg, b.alone, from, answered, b.run);
    OnlyGrows(b.cfg, answered, b.run);
  }

  /** One job of the batch: delete the object, then record the outcome. */
  method DeleteAndRecord(b: World, ghost from: Trace, ghost w: nat, job: ClaimedJob) returns (recorded: bool)
    requires b.Valid() && b.Since(from) && !b.shutdown
    requires b.Here().At(w) && b.Here().workers[w].phase.Ready? && w !in b.Here().locks
    requires b.Here().Next(w).job == job.id && b.Here().Next(w).key == job.key
    modifies b
    ensures b.WorkerKept(old(b.shutdown), old(b.naps))
    ensures b.Valid() && b.Since(from) && Continues(old(b.run), b.run)
    ensures GoneOn(old(b.Here()), b.Here(), w) && job.key in b.Here().deletes
    ensures b.writesSucceed ==> recorded
    ensures recorded ==> Told(b.cfg, old(b.run), b.run, w, job.id, b.deletesSucceed)
    ensures b.alone ==>
      && job.id < |old(b.jobs)| == |b.jobs| && b.jobs == old(b.jobs)[job.id := b.jobs[job.id]]
      && Uploads(b.photos) == Uploads(old(b.photos))
      && (recorded ==> OutcomeOf(b.cfg, old(b.jobs)[job.id], b.jobs[job.id]))
      && (recorded && b.deletesSucceed ==> b.jobs[job.id].status.Completed?)
  {
    ghost var begin := b.run;
    var ok := DeleteObject(b, from, w, job);
    ghost var waited, written, seen, before := b.run, false, Job(0, Pending, 0, 0, None, 0), b.Rows();
    recorded, written, seen, before := RecordJobOutcome(b, w, job.id, ok);
    OutcomesGrow(b.cfg, begin, waited, w, job.id, ok);
    OnlyGrows(b.cfg, waited, b.run);
    ContinuesTrans(begin, waited, b.run);
    FollowsTrans(b.cfg, b.alone, from, waited, b.run);
  }

  /** Worker w has asked for the deletion of the first i of the jobs it claimed at `now`, when the table was `before`, and
    gone on from each; unless a write fails it has recorded their outcomes. If nobody else acts, their rows show it. */
  ghost predicate InBatch(b: World, from: Trace, w: nat, before: seq<Job>, now: Time, ids: seq<JobId>, i: nat)
    requires forall k :: 0 <= k < |ids| ==> ids[k] < |before|
    reads b
  {
    && b.Valid() && IsRun(b.cfg, from) && b.Since(from) && i <= |ids|
    && w in b.Here().workers && w !in b.Here().locks
    && b.Here().workers[w].todo == Claims(before, ids)[i..]
    && b.Here().workers[w].phase.Ready?
    && (forall k :: 0 <= k < i ==> before[ids[k]].key in b.Here().deletes)
    && (b.writesSucceed ==> forall k :: 0 <= k < i ==> Told(b.cfg, from, b.run, w, ids[k], b.deletesSucceed))
    && (b.alone ==> |b.jobs| == |before|)
    && (b.alone && b.writesSucceed ==> Halfway(b.cfg, Round(before, now, ids, b.jobs), i))
    && (b.alone && b.writesSucceed && b.deletesSucceed ==> forall k :: 0 <= k < i ==> b.jobs[ids[k]].status.Completed?)
  }

  /** The batch has begun with these jobs. */
  ghost predicate Begun(b: World, from: Trace, w: nat, before: seq<Job>, now: Time, claimed: seq<ClaimedJob>)
    reads b
  {
    && OldestFirst(before, Eligible(before, now, b.lockedJobs), b.cfg.batchSize, Ids(claimed))
    && (forall k :: 0 <= k < |claimed| ==>
          claimed[k].id < |before| && claimed[k].key == before[claimed[k].id].key)
    && InBatch(b, from, w, before, now, Ids(claimed), 0)
  }

  lemma CompletedStep(jobs: seq<Job>, next: seq<Job>, ids: seq<JobId>, i: nat)
    requires Distinct(ids) && i < |ids| && |next| == |jobs| && forall k :: 0 <= k < |ids| ==> ids[k] < |jobs|
    requires next == jobs[ids[i] := next[ids[i]]] && next[ids[i]].status.Completed?
    requires forall k :: 0 <= k < i ==> jobs[ids[k]].status.Completed?
    ensures forall k :: 0 <= k < i + 1 ==> next[ids[k]].status.Completed?
  {
    forall k | 0 <= k < i ensures next[ids[k]] == jobs[ids[k]] {
      assert ids[k] != ids[i];
    }
  }

  /** What was asked and told before the turn of job i still holds after it. */
  lemma TurnTold(b: World, from: Trace, run: Trace, w: nat, before: seq<Job>, now: Time, ids: seq<JobId>, i: nat)
    requires IsRun(b.cfg, from) && IsRun(b.cfg, run) && IsRun(b.cfg, b.run) && i < |ids|
    requires Continues(from, run) && Continues(run, b.run)
    requires forall k :: 0 <= k < |ids| ==> ids[k] < |before|
    requires forall k :: 0 <= k < i ==> before[ids[k]].key in Reached(b.cfg, run).deletes
    requires b.writesSucceed ==>
      && (forall k :: 0 <= k < i ==> Told(b.cfg, from, run, w, ids[k], b.deletesSucceed))
      && Told(b.cfg, run, b.run, w, ids[i], b.deletesSucceed)
    ensures forall k :: 0 <= k < i ==> before[ids[k]].key in b.Here().deletes
    ensures b.writesSucceed ==> forall k :: 0 <= k < i + 1 ==> Told(b.cfg, from, b.run, w, ids[k], b.deletesSucceed)
  {
    OnlyGrows(b.cfg, run, b.run);
    if b.writesSucceed {
      forall k | 0 <= k < i + 1 ensures Told(b.cfg, from, b.run, w, ids[k], b.deletesSucceed) {
        if k < i {
          ToldMeanwhile(b.cfg, from, from, run, b.run, w, ids[k], b.deletesSucceed);
        } else {
          ToldMeanwhile(b.cfg, from, run, b.run, b.run, w, ids[k], b.deletesSucceed);
        }
      }
    }
  }

  method BatchStep(b: World, ghost from: Trace, ghost w: nat, ghost before: seq<Job>, ghost now: Time,
                   claimed: seq<ClaimedJob>, i: nat)
    requires Distinct(Ids(claimed)) && forall k :: 0 <= k < |claimed| ==> claimed[k].id < |before|
    requires forall k :: 0 <= k < |claimed| ==> claimed[k].key == before[claimed[k].id].key
    requires i < |claimed| && InBatch(b, from, w, before, now, Ids(claimed), i) && !b.shutdown
    modifies b
    ensures b.WorkerKept(old(b.shutdown), old(b.naps))
    ensures InBatch(b, from, w, before, now, Ids(claimed), i + 1)
    ensures b.alone ==> Uploads(b.photos) == Uploads(old(b.photos))
  {
    ghost var ids, rows, run := Ids(claimed), b.jobs, b.run;
    assert b.Here().Next(w) == Claims(before, ids)[i];
    var recorded := DeleteAndRecord(b, from, w, claimed[i]);
    assert Claims(before, ids)[i..][1..] == Claims(before, ids)[i + 1..];
    TurnTold(b, from, run, w, before, now, ids, i);
    if b.alone && b.writesSucceed {
      HalfwayStep(b.cfg, Round(before, now, ids, rows), i, b.jobs);
      if b.deletesSucceed {
        CompletedStep(rows, b.jobs, ids, i);
      }
    }
  }

  lemma BatchDone(cfg: Settings, r: Round, allDeleted: bool)
    requires OldestFirst(r.before, Eligible(r.before, r.now, {}), cfg.batchSize, r.ids)
    requires Halfway(cfg, r, |r.ids|)
    requires allDeleted ==> forall k :: 0 <= k < |r.ids| ==> r.after[r.ids[k]].status.Completed?
    ensures Worked(cfg, r)
    ensures allDeleted ==> NoNewFailures(r)
  {
    forall j | 0 <= j < |r.after| && r.after[j].status.Failed? && allDeleted ensures r.before[j].status.Failed? {
      assert j !in r.ids;
    }
  }

  predicate NoNewFailures(r: Round) {
    forall j :: 0 <= j < |r.after| && r.after[j].status.Failed? ==> j < |r.before| && r.before[j].status.Failed?
  }

  /** What an undisturbed batch does: an outcome for each claimed job, and photos go only with completed ones. */
  ghost predicate Undisturbed(cfg: Settings, before: Db, now: Time, ids: seq<JobId>, after: Db, allDeleted: bool) {
    var r := Round(before.jobs, now, ids, after.jobs);
    && Worked(cfg, r) && Uploads(after.photos) == Uploads(before.photos)
    && (ids == [] ==> after.photos == before.photos && after.reports == before.reports)
    && (allDeleted ==> NoNewFailures(r))
  }

  /** The loop of run_delete_batch: one job after the other until a shutdown is signalled. */
  method WorkThrough(b: World, ghost from: Trace, ghost w: nat, ghost before: seq<Job>, ghost now: Time,
                     claimed: seq<ClaimedJob>) returns (processed: nat)
    requires Distinct(Ids(claimed)) && forall k :: 0 <= k < |claimed| ==> claimed[k].id < |before|
    requires forall k :: 0 <= k < |claimed| ==> claimed[k].key == before[claimed[k].id].key
    requires InBatch(b, from, w, before, now, Ids(claimed), 0)
    modifies b
    ensures processed <= |claimed| && InBatch(b, from, w, before, now, Ids(claimed), processed)
    ensures b.shutdown || processed == |claimed|
    ensures old(b.shutdown) ==> b.shutdown && processed == 0
    ensures b.WorkerKept(old(b.shutdown), old(b.naps))
    ensures b.alone ==> Uploads(b.photos) == Uploads(old(b.photos))
    ensures b.alone && processed == 0 ==> b.photos == old(b.photos) && b.reports == old(b.reports)
  {
    processed := 0;
    for i := 0 to |claimed|
      invariant processed == i && InBatch(b, from, w, before, now, Ids(claimed), i)
      invariant b.WorkerKept(old(b.shutdown), old(b.naps)) && (old(b.shutdown) ==> i == 0)
      invariant b.alone ==> Uploads(b.photos) == Uploads(old(b.photos))
      invariant b.alone && i == 0 ==> b.photos == old(b.photos) && b.reports == old(b.reports)
    {
      if b.shutdown {
        return;
      }
      processed := processed + 1;
      BatchStep(b, from, w, before, now, claimed, i);
    }
  }

  /** Since `from`, worker w has asked for the deletion and, unless a write fails, recorded the outcome. */
  ghost predicate Processed(b: World, from: Trace, w: nat, job: ClaimedJob)
    requires IsRun(b.cfg, from) && IsRun(b.cfg, b.run)
    reads b
  {
    && job.key in b.Here().deletes
    && (b.writesSucceed ==> Told(b.cfg, from, b.run, w, job.id, b.deletesSucceed))
  }

  ghost predicate ProcessedJobs(b: World, from: Trace, w: nat, claimed: seq<ClaimedJob>, n: nat)
    requires IsRun(b.cfg, from) && IsRun(b.cfg, b.run) && n <= |claimed|
    reads b
  {
    forall k :: 0 <= k < n ==> Processed(b, from, w, claimed[k])
  }

  lemma BatchStarts(b: World, from: Trace, w: nat, before: seq<Job>, claimed: seq<ClaimedJob>)
    requires b.Valid() && IsRun(b.cfg, from) && b.Since(from)
    requires Distinct(Ids(claimed)) && forall k :: 0 <= k < |claimed| ==> claimed[k].id < |before|
    requires b.jobs == ClaimRows(b.cfg, before, Ids(claimed), b.clock)
    requires w in b.Here().workers && w !in b.Here().locks
    requires b.Here().workers[w] == Worker(Claims(before, Ids(claimed)), Ready, b.clock, b.clock)
    ensures InBatch(b, from, w, before, b.clock, Ids(claimed), 0)
  {
    assert Claims(before, Ids(claimed))[0..] == Claims(before, Ids(claimed));
  }

  method WorkBatch(b: World, ghost from: Trace, ghost w: nat, ghost before: seq<Job>, ghost now: Time,
                   claimed: seq<ClaimedJob>) returns (processed: nat)
    requires Begun(b, from, w, before, now, claimed)
    modifies b
    ensures processed <= |claimed| && b.Valid() && b.Since(from) && (b.shutdown || b.Resting(w))
    ensures b.shutdown || processed == |claimed|
    ensures old(b.shutdown) ==> b.shutdown && processed == 0
    ensures b.naps == old(b.naps)
    ensures ProcessedJobs(b, from, w, claimed, processed)
    ensures old(b.Steady()) ==>
      && b.Steady()
      && Undisturbed(b.cfg, Db(old(b.photos), before, old(b.reports)), now, Ids(claimed), b.Rows(), b.deletesSucceed)
  {
    ghost var steady := b.Steady();
    processed := WorkThrough(b, from, w, before, now, claimed);
    forall k | 0 <= k < processed ensures Processed(b, from, w, claimed[k]) {
      assert Ids(claimed)[k] == claimed[k].id;
      assert before[Ids(claimed)[k]].key in b.Here().deletes;
    }
    if steady {
      BatchDone(b.cfg, Round(before, now, Ids(claimed), b.jobs), b.deletesSucceed);
    }
  }

  /** The claim that a batch begins with. */
  method StartBatch(b: World, ghost w: nat) returns (ok: bool, claimed: seq<ClaimedJob>)
    requires b.Valid() && b.Resting(w)
    modifies b`jobs, b`run
    ensures b.writesSucceed ==> ok
    ensures if ok then Begun(b, old(b.run), w, old(b.jobs), b.clock, claimed)
            else b.Valid() && b.Since(old(b.run)) && b.Resting(w)
  {
    ghost var before, from, ids := b.jobs, b.run, [];
    ok, claimed, ids := ClaimJobs(b, w);
    if ok {
      assert forall k :: 0 <= k < |claimed| ==> claimed[k].id == ids[k];
      BatchStarts(b, from, w, before, claimed);
    }
  }

  /** run_delete_batch: claim the oldest jobs and work through them. Whatever others do, the deletion of every processed
    job was requested and, unless a write fails, its outcome recorded; only a failed claim or a shutdown leaves jobs
    behind. */
  method RunDeleteBatch(b: World, ghost w: nat) returns (processed: nat, ghost claimed: seq<ClaimedJob>)
    requires b.Valid() && b.Resting(w)
    modifies b
    ensures b.Valid() && b.Since(old(b.run)) && (b.shutdown || b.Resting(w))
    ensures old(b.shutdown) ==> b.shutdown && processed == 0
    ensures b.naps == old(b.naps)
    ensures OldestFirst(old(b.jobs), Eligible(old(b.jobs), old(b.clock), old(b.lockedJobs)), b.cfg.batchSize, Ids(claimed))
      || (claimed == [] && !b.writesSucceed)
    ensures processed <= |claimed| && (b.shutdown || processed == |claimed|)
    ensures forall k :: 0 <= k < |claimed| ==>
      claimed[k].id < |old(b.jobs)| && claimed[k].key == old(b.jobs)[claimed[k].id].key
    ensures ProcessedJobs(b, old(b.run), w, claimed, processed)
    ensures old(b.Steady()) ==>
      b.Steady() && Undisturbed(b.cfg, old(b.Rows()), old(b.clock), Ids(claimed), b.Rows(), b.deletesSucceed)
  {
    processed, claimed := 0, [];
    ghost var before, from, now := b.jobs, b.run, b.clock;
    var ok, jobs := StartBatch(b, w);
    if ok {
      processed := WorkBatch(b, from, w, before, now, jobs);
      claimed := jobs;
    }
  }

  // ---- the reaper ----

  function Reapables(cfg: Settings, db: Db, now: Time, locked: set<PhotoId>): set<PhotoId> {
    set p | p in db.photos && Reapable(cfg, db, p, now) && p !in locked
  }

  /** The rows of the reaper's query: the oldest, as many as fit, in order. */
  predicate OldestUploads(photos: map<PhotoId, Photo>, rows: set<PhotoId>, limit: nat, ids: seq<PhotoId>) {
    && rows <= photos.Keys && Distinct(ids) && |ids| == Min(limit, |rows|)
    && (forall k :: 0 <= k < |ids| ==> ids[k] in rows)
    && (forall i, k :: 0 <= i < k < |ids| ==> photos[ids[i]].addedAt <= photos[ids[k]].addedAt)
    && (forall p, k :: p in rows && p !in ids && 0 <= k < |ids| ==> photos[ids[k]].addedAt <= photos[p].addedAt)
  }

  method OldestUpload(photos: map<PhotoId, Photo>, rows: set<PhotoId>) returns (oldest: PhotoId)
    requires rows != {} && rows <= photos.Keys
    ensures oldest in rows && forall p :: p in rows ==> photos[oldest].addedAt <= photos[p].addedAt
  {
    oldest :| oldest in rows;
    var rest := rows - {oldest};
    while rest != {}
      invariant rest <= rows && oldest in rows
      invariant forall p :: p in rows - rest ==> photos[oldest].addedAt <= photos[p].addedAt
      decreases rest
    {
      var p :| p in rest;
      rest := rest - {p};
      if photos[p].addedAt < photos[oldest].addedAt {
        oldest := p;
      }
    }
  }

  method SelectUploads(photos: map<PhotoId, Photo>, rows: set<PhotoId>, limit: nat) returns (ids: seq<PhotoId>)
    requires rows <= photos.Keys
    ensures OldestUploads(photos, rows, limit, ids)
  {
    ids := [];
    var rest := rows;
    while |ids| < limit && rest != {}
      invariant rest <= rows && |ids| <= limit && |ids| + |rest| == |rows|
      invariant Distinct(ids) && forall k :: 0 <= k < |ids| ==> ids[k] in rows && ids[k] !in rest
      invariant forall p :: p in rows && p !in ids ==> p in rest
      invariant forall i, k :: 0 <= i < k < |ids| ==> photos[ids[i]].addedAt <= photos[ids[k]].addedAt
      invariant forall p, k :: p in rest && 0 <= k < |ids| ==> photos[ids[k]].addedAt <= photos[p].addedAt
      decreases rest
    {
      var p := OldestUpload(photos, rest);
      ids, rest := ids + [p], rest - {p};
    }
  }

  /** create_delete_crane_job for one photo after the other. */
  function QueueDeletes(db: Db, ids: seq<PhotoId>, now: Time): (after: Db)
    requires forall k :: 0 <= k < |ids| ==> ids[k] in db.photos
    ensures after.photos.Keys == db.photos.Keys && after.reports == db.reports
  {
    if ids == [] then db else QueueDelete(QueueDeletes(db, ids[..|ids| - 1], now), ids[|ids| - 1], now)
  }

  lemma {:induction false} QueueDeletesEffect(db: Db, ids: seq<PhotoId>, now: Time)
    requires Distinct(ids) && forall k :: 0 <= k < |ids| ==> ids[k] in db.photos
    ensures var after := QueueDeletes(db, ids, now);
      && (forall p :: p in db.photos ==>
            after.photos[p] == if p in ids then db.photos[p].(status := PendingDelete) else db.photos[p])
      && |after.jobs| == |db.jobs| + |ids| && after.jobs[..|db.jobs|] == db.jobs
      && (forall k :: 0 <= k < |ids| ==> after.jobs[|db.jobs| + k] == Job(ids[k], Pending, 0, now, None, now))
  {
    if ids != [] {
      var n := |ids| - 1;
      QueueDeletesEffect(db, ids[..n], now);
      assert ids == ids[..n] + [ids[n]];
    }
  }

  predicate AllPending(db: Db, ids: seq<PhotoId>) {
    forall k :: 0 <= k < |ids| ==> ids[k] in db.photos && db.photos[ids[k]].status.PendingUpload?
  }

  /** Reaping turns the weight of an upload into the smaller weight of a job. */
  lemma {:induction false} ReapWeight(cfg: Settings, db: Db, ids: seq<PhotoId>, now: Time)
    requires Distinct(ids) && AllPending(db, ids)
    ensures TotalWeight(cfg, QueueDeletes(db, ids, now)) + |ids| == TotalWeight(cfg, db)
  {
    if ids != [] {
      var n := |ids| - 1;
      var queued := QueueDeletes(db, ids[..n], now);
      ReapWeight(cfg, db, ids[..n], now);
      QueueDeletesEffect(db, ids[..n], now);
      QueueWeight(cfg, queued, ids[n], now);
      assert QueueDeletes(db, ids, now) == QueueDelete(queued, ids[n], now);
    }
  }

  lemma {:induction false} ReapRun(cfg: Settings, alone: bool, run: Trace, ids: seq<PhotoId>, now: Time)
      returns (next: Trace)
    requires IsRun(cfg, run) && Distinct(ids) && now <= Reached(cfg, run).clock && AllPending(Reached(cfg, run).db, ids)
    requires forall k :: 0 <= k < |ids| ==> Reapable(cfg, Reached(cfg, run).db, ids[k], now)
    ensures IsRun(cfg, next) && Follows(cfg, alone, run, next)
    ensures Reached(cfg, next) == Reached(cfg, run).(db := QueueDeletes(Reached(cfg, run).db, ids, now))
  {
    next := run;
    if ids != [] {
      var n := |ids| - 1;
      var db := Reached(cfg, run).db;
      next := ReapRun(cfg, alone, run, ids[..n], now);
      QueueDeletesEffect(db, ids[..n], now);
      assert Reapable(cfg, db, ids[n], now);
      next := Grow(cfg, alone, run, next, Reap(ids[n], now));
    }
  }

  /** The loop of run_reap_crane_photos over the rows that the query has locked. */
  method ReapLoop(db: Db, photos: seq<PhotoId>, now: Time) returns (rows: Db)
    requires AllPending(db, photos)
    ensures rows == QueueDeletes(db, photos, now)
  {
    rows := db;
    for i := 0 to |photos|
      invariant rows == QueueDeletes(db, photos[..i], now)
    {
      assert photos[..i + 1][..i] == photos[..i];
      rows := QueueDelete(rows, photos[i], now);
    }
    assert photos[..|photos|] == photos;
  }

  lemma SelectedPending(cfg: Settings, db: Db, now: Time, locked: set<PhotoId>, ids: seq<PhotoId>)
    requires OldestUploads(db.photos, Reapables(cfg, db, now, locked), cfg.batchSize, ids)
    ensures AllPending(db, ids) && forall k :: 0 <= k < |ids| ==> Reapable(cfg, db, ids[k], now)
  {
  }

  /** The reaper takes no upload within its window, and what it leaves although it could take it comes after a full batch
    of uploads at least as old. */
  lemma StalledAreTaken(cfg: Settings, db: Db, now: Time, locked: set<PhotoId>, ids: seq<PhotoId>, p: PhotoId)
    requires OldestUploads(db.photos, Reapables(cfg, db, now, locked), cfg.batchSize, ids)
    requires p in db.photos
    ensures var photo := db.photos[p];
      var stalled := photo.status.PendingUpload? && photo.addedAt + 1000 * cfg.uploadWindow < now;
      && (p in ids ==> stalled && p !in locked)
      && (stalled && p !in locked && p !in ids ==>
            |ids| == cfg.batchSize && forall k :: 0 <= k < |ids| ==>
              ids[k] in db.photos && db.photos[ids[k]].addedAt <= photo.addedAt)
  {
    if p in Reapables(cfg, db, now, locked) {
      DistinctSize(ids, Reapables(cfg, db, now, locked));
    }
  }

  /** The query and the loop: the rows as the transaction leaves them. */
  method ReapRows(b: World) returns (photos: seq<PhotoId>, rows: Db)
    requires b.Valid()
    ensures OldestUploads(b.photos, Reapables(b.cfg, b.Rows(), b.clock, b.lockedPhotos), b.cfg.batchSize, photos)
    ensures Distinct(photos) && AllPending(b.Rows(), photos)
    ensures forall k :: 0 <= k < |photos| ==> Reapable(b.cfg, b.Rows(), photos[k], b.clock)
    ensures rows == QueueDeletes(b.Rows(), photos, b.clock)
  {
    photos := SelectUploads(b.photos, Reapables(b.cfg, b.Rows(), b.clock, b.lockedPhotos), b.cfg.batchSize);
    SelectedPending(b.cfg, b.Rows(), b.clock, b.lockedPhotos, photos);
    rows := ReapLoop(b.Rows(), photos, b.clock);
  }

  /** run_reap_crane_photos: the loop works on the rows of the transaction, which commits at the end or not at all. If the
    commit raises, nothing counts as reaped, though the rows may be. */
  method RunReapCranePhotos(b: World) returns (reaped: nat, ghost ids: seq<PhotoId>)
    requires b.Valid()
    modifies b`photos, b`jobs, b`run
    ensures b.Valid() && b.Since(old(b.run)) && b.Here() == old(b.Here()).(db := b.Rows())
    ensures OldestUploads(old(b.photos), Reapables(b.cfg, old(b.Rows()), b.clock, b.lockedPhotos), b.cfg.batchSize, ids)
    ensures AllPending(old(b.Rows()), ids)
    ensures forall k :: 0 <= k < |ids| ==>
      ids[k] in old(b.photos) && old(b.photos)[ids[k]].addedAt + 1000 * b.cfg.uploadWindow < b.clock
    ensures b.Rows() == QueueDeletes(old(b.Rows()), ids, b.clock) || (reaped == 0 && b.Rows() == old(b.Rows()))
    ensures reaped == |ids| || (reaped == 0 && !b.writesSucceed)
    ensures b.writesSucceed ==> b.Rows() == QueueDeletes(old(b.Rows()), ids, b.clock)
  {
    var photos, rows := ReapRows(b);
    var ok, written := b.Commit();
    if written {
      b.run := ReapRun(b.cfg, b.alone, b.run, photos, b.clock);
      b.photos, b.jobs := rows.photos, rows.jobs;
    }
    reaped, ids := if ok then |photos| else 0, photos;
  }
}
