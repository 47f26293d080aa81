/** app/worker/main.py: the worker's loop. Each cycle makes progress or finds nothing to do, and after a bounded number
  of cycles nothing is left to do: only active photos remain, and the bucket holds exactly their objects. */
module WorkerMain {
  import opened Records
  import Outbox
  import opened Protocol
  import Safety
  import Orphans
  import Stranding
  import opened Weights
  import Batches
  import opened Backend
  import opened WorkerJobs

  /** Nothing can be claimed at the one time or reaped at the other. */
  predicate NothingToDo(cfg: Settings, db: Db, claimTime: Time, reapTime: Time) {
    && (forall j :: 0 <= j < |db.jobs| ==> !Outbox.Claimable(db.jobs[j], claimTime))
    && (forall p :: p in db.photos ==> !Outbox.Reapable(cfg, db, p, reapTime))
  }

  predicate NoFailed(jobs: seq<Job>) {
    forall j :: 0 <= j < |jobs| ==> !jobs[j].status.Failed?
  }

  lemma NothingSelected(cfg: Settings, db: Db, claimTime: Time, reapTime: Time, ids: seq<JobId>, photos: seq<PhotoId>)
    requires cfg.batchSize > 0 && |ids| == 0 && |photos| == 0
    requires OldestFirst(db.jobs, Eligible(db.jobs, claimTime, {}), cfg.batchSize, ids)
    requires OldestUploads(db.photos, Reapables(cfg, db, reapTime, {}), cfg.batchSize, photos)
    ensures NothingToDo(cfg, db, claimTime, reapTime)
  {
    assert |Eligible(db.jobs, claimTime, {})| == 0 && |Reapables(cfg, db, reapTime, {})| == 0;
    forall j | 0 <= j < |db.jobs| ensures !Outbox.Claimable(db.jobs[j], claimTime) {
      assert j !in Eligible(db.jobs, claimTime, {});
    }
    forall p | p in db.photos ensures !Outbox.Reapable(cfg, db, p, reapTime) {
      assert p !in Reapables(cfg, db, reapTime, {});
    }
  }

  /** What a cycle that nothing disturbs does: it lowers the total weight by all it has processed, and if that is nothing
    then nothing could be claimed when it began or reaped when it ended. */
  predicate Progress(cfg: Settings, before: Db, began: Time, after: Db, ended: Time, processed: nat) {
    && TotalWeight(cfg, after) + processed <= TotalWeight(cfg, before)
    && (processed == 0 && cfg.batchSize > 0 ==> after == before && NothingToDo(cfg, after, began, ended))
  }

  lemma FailedKept(between: Db, photos: seq<PhotoId>, now: Time)
    requires NoFailed(between.jobs) && Distinct(photos) && AllPending(between, photos)
    ensures NoFailed(QueueDeletes(between, photos, now).jobs)
  {
    QueueDeletesEffect(between, photos, now);
    var after := QueueDeletes(between, photos, now).jobs;
    forall j | 0 <= j < |after| ensures !after[j].status.Failed? {
      if j < |between.jobs| {
        assert after[j] == after[..|between.jobs|][j];
      } else {
        var k := j - |between.jobs|;
        assert after[|between.jobs| + k] == Job(photos[k], Pending, 0, now, None, now);
      }
    }
  }

  /** What the batch and the reaper make of an undisturbed cycle. */
  lemma CycleProgress(cfg: Settings, before: Db, between: Db, claimTime: Time, reapTime: Time,
                      ids: seq<JobId>, photos: seq<PhotoId>, allDeleted: bool)
    requires Undisturbed(cfg, before, claimTime, ids, between, allDeleted) && AllPending(between, photos)
    requires OldestUploads(between.photos, Reapables(cfg, between, reapTime, {}), cfg.batchSize, photos)
    ensures Progress(cfg, before, claimTime, QueueDeletes(between, photos, reapTime), reapTime, |ids| + |photos|)
    ensures allDeleted && NoFailed(before.jobs) ==> NoFailed(QueueDeletes(between, photos, reapTime).jobs)
  {
    Batches.BatchWeight(cfg, Batches.Round(before.jobs, claimTime, ids, between.jobs));
    ReapWeight(cfg, between, photos, reapTime);
    if |ids| + |photos| == 0 && cfg.batchSize > 0 {
      assert between.jobs == before.jobs;
      NothingSelected(cfg, before, claimTime, reapTime, ids, photos);
    }
    if allDeleted && NoFailed(before.jobs) {
      FailedKept(between, photos, reapTime);
    }
  }

  /** The batch, and what others do after it. */
  method DeletePart(b: World, ghost w: nat) returns (deleted: nat, ghost ids: seq<JobId>)
    requires b.Valid() && b.Resting(w)
    modifies b
    ensures b.Valid() && b.Since(old(b.run)) && (b.shutdown || b.Resting(w)) && b.naps == old(b.naps)
    ensures old(b.Steady()) ==>
      && b.Steady() && deleted == |ids|
      && Undisturbed(b.cfg, old(b.Rows()), old(b.clock), ids, b.Rows(), b.deletesSucceed)
  {
    ghost var from, claimed := b.run, [];
    deleted, claimed := RunDeleteBatch(b, w);
    ids := Ids(claimed);
    ghost var run := b.run;
    b.Others(Working(w));
    FollowsTrans(b.cfg, b.alone, from, run, b.run);
  }

  /** One turn of the loop. Other processes may act at any time. */
  method Cycle(b: World, ghost w: nat) returns (processed: nat)
    requires b.Valid() && b.Resting(w)
    modifies b
    ensures b.Valid() && b.Since(old(b.run)) && b.clock >= old(b.clock)
    ensures (b.shutdown || b.Resting(w)) && b.naps == old(b.naps)
    ensures old(b.Steady()) ==>
      && b.Steady() && Progress(b.cfg, old(b.Rows()), old(b.clock), b.Rows(), b.clock, processed)
      && (b.deletesSucceed && NoFailed(old(b.jobs)) ==> NoFailed(b.jobs))
  {
    ghost var from, ids, photos := b.run, [], [];
    var deleted, reaped;
    deleted, ids := DeletePart(b, w);
    ghost var between, run := b.Rows(), b.run;
    reaped, photos := RunReapCranePhotos(b);
    FollowsTrans(b.cfg, b.alone, from, run, b.run);
    OnlyGrows(b.cfg, from, b.run);
    processed := deleted + reaped;
    if old(b.Steady()) {
      CycleProgress(b.cfg, old(b.Rows()), between, old(b.clock), b.clock, ids, photos, b.deletesSucceed);
    }
  }

  // ---- everything left to do becomes ripe ----

  /** After this many microseconds any job or upload that is left alone can be taken. */
  function Horizon(cfg: Settings): nat {
    Max(Stranding.Patience(cfg), 1000 * cfg.uploadWindow)
  }

  /** Whatever is left to do can be taken at any time after T. */
  predicate RipeAfter(cfg: Settings, db: Db, T: Time) {
    && (forall j :: 0 <= j < |db.jobs| && !db.jobs[j].Terminal() ==> RipeJob(db.jobs[j], T))
    && (forall p :: p in db.photos && db.photos[p].status.PendingUpload? ==>
          db.photos[p].addedAt + 1000 * cfg.uploadWindow <= T)
  }

  predicate RipeJob(job: Job, T: Time) {
    if job.status.Pending? then job.availableAt <= T else job.lease.Some? && job.lease.value <= T
  }

  /** Left alone, everything unfinished can be taken after a fixed time, exactly if no job in processing lacks a lease. */
  lemma RipensInTime(cfg: Settings, run: Trace)
    requires IsRun(cfg, run)
    ensures Stranding.AllLeased(Reached(cfg, run).db.jobs) <==>
      RipeAfter(cfg, Reached(cfg, run).db, Reached(cfg, run).clock + Horizon(cfg))
  {
    Stranding.BoundedKept(cfg, run);
    var s := Reached(cfg, run);
    forall j | 0 <= j < |s.db.jobs| && !s.db.jobs[j].Terminal()
      ensures Stranding.Leased(s.db.jobs[j]) <==> RipeJob(s.db.jobs[j], s.clock + Horizon(cfg))
    {
      assert Stranding.JobBounded(cfg, s.clock, s.db.jobs[j]);
    }
  }

  lemma {:induction false} NoWeightWhenDone(cfg: Settings, jobs: seq<Job>)
    requires forall j :: 0 <= j < |jobs| ==> jobs[j].Terminal()
    ensures Weight(cfg, jobs, None) == 0
  {
    if jobs != [] {
      NoWeightWhenDone(cfg, jobs[..|jobs| - 1]);
    }
  }

  /** If everything is ripe then a cycle that finds nothing to do proves that no weight is left. */
  lemma RipeIsTaken(cfg: Settings, db: Db, T: Time, claimTime: Time, reapTime: Time)
    requires RipeAfter(cfg, db, T) && NothingToDo(cfg, db, claimTime, reapTime) && T < claimTime <= reapTime
    ensures TotalWeight(cfg, db) == 0
  {
    forall j | 0 <= j < |db.jobs| ensures db.jobs[j].Terminal() {
      assert !Outbox.Claimable(db.jobs[j], claimTime);
    }
    NoWeightWhenDone(cfg, db.jobs);
    forall p | p in db.photos ensures !db.photos[p].status.PendingUpload? {
      assert !Outbox.Reapable(cfg, db, p, reapTime);
    }
    assert Uploads(db.photos) == {};
  }

  // ---- how many cycles it takes ----

  function Quotient(a: nat, d: nat): (q: nat)
    requires d > 0
    ensures q * d <= a < q * d + d
  {
    if a < d then 0 else Quotient(a - d, d) + 1
  }

  /** The idle cycles between two that make progress. */
  function IdleBound(cfg: Settings): nat
    requires cfg.sleep > 0
  {
    Quotient(Horizon(cfg), Seconds(cfg.sleep)) + 1
  }

  function CycleBound(cfg: Settings, weight: nat): nat
    requires cfg.sleep > 0
  {
    weight * (IdleBound(cfg) + 1)
  }

  lemma MulOrder(a: nat, b: nat, d: nat)
    ensures a < b || b * d <= a * d
  {
    if a >= b {
      assert a * d == b * d + (a - b) * d;
    }
  }

  lemma IdleFits(cfg: Settings, idle: nat)
    requires cfg.sleep > 0 && idle * Seconds(cfg.sleep) <= Horizon(cfg)
    ensures idle + 1 <= IdleBound(cfg)
  {
    var d := Seconds(cfg.sleep);
    var q := Quotient(Horizon(cfg), d);
    MulOrder(idle, q + 1, d);
    assert (q + 1) * d == q * d + d;
  }

  lemma TooFewCycles(cfg: Settings, turns: nat, progress: nat, idle: nat, weight: nat)
    requires cfg.sleep > 0 && progress < weight && idle <= IdleBound(cfg)
    requires turns <= progress * (IdleBound(cfg) + 1) + idle
    ensures turns < CycleBound(cfg, weight)
  {
    var k := IdleBound(cfg) + 1;
    MulOrder(weight, progress + 1, k);
    assert (progress + 1) * k == progress * k + k;
  }

  // ---- what is left in the end ----

  predicate Quiescent(db: Db) {
    && (forall j :: 0 <= j < |db.jobs| ==> db.jobs[j].Terminal())
    && (forall p :: p in db.photos ==> !db.photos[p].status.PendingUpload?)
  }

  /** Only active photos are left, all their jobs are done, and the bucket holds exactly their objects. */
  predicate Reconciled(s: State) {
    && (forall p :: p in s.db.photos ==> s.db.photos[p].status.Active?)
    && (forall j :: 0 <= j < |s.db.jobs| ==> s.db.jobs[j].status.Completed?)
    && s.store == s.db.photos.Keys
  }

  lemma QuiescentWhenWeightless(cfg: Settings, db: Db)
    requires TotalWeight(cfg, db) == 0
    ensures Quiescent(db)
  {
    forall j | 0 <= j < |db.jobs| ensures db.jobs[j].Terminal() {
      if !db.jobs[j].Terminal() {
        WeightPositive(cfg, db.jobs, j);
      }
    }
    assert UploadWeight(cfg) * |Uploads(db.photos)| >= |Uploads(db.photos)|;
    forall p | p in db.photos ensures !db.photos[p].status.PendingUpload? {
      assert p !in Uploads(db.photos);
    }
  }

  /** A bucket without orphans is then reconciled; a run in which no put was late has left none (NoOrphans). */
  lemma QuiescentIsReconciled(cfg: Settings, run: Trace)
    requires IsRun(cfg, run) && Orphans.OrphanFree(Reached(cfg, run))
    requires Quiescent(Reached(cfg, run).db) && NoFailed(Reached(cfg, run).db.jobs)
    ensures Reconciled(Reached(cfg, run))
  {
    Safety.InvHolds(cfg, run);
    var db := Reached(cfg, run).db;
    assert forall j :: 0 <= j < |db.jobs| ==> db.jobs[j].status.Completed? && db.jobs[j].key !in db.photos;
    assert forall p :: p in db.photos ==> p !in Outbox.Queued(db.jobs);
  }

  // ---- the loop ----

  /** What the loop has achieved after `turns` cycles from total weight `weight`: `progress` of them did something, and
    since the last of those, at time `since`, `idle` cycles have slept. */
  ghost predicate OnTrack(cfg: Settings, db: Db, clock: Time, turns: nat, weight: nat, progress: nat, idle: nat, since: Time)
    requires cfg.sleep > 0
  {
    && progress + TotalWeight(cfg, db) <= weight
    && (TotalWeight(cfg, db) > 0 ==>
          && turns <= progress * (IdleBound(cfg) + 1) + idle && idle <= IdleBound(cfg)
          && since + idle * Seconds(cfg.sleep) <= clock && RipeAfter(cfg, db, since + Horizon(cfg)))
  }

  lemma ProgressTurn(cfg: Settings, db: Db, clock: Time, turns: nat, weight: nat, progress: nat, idle: nat, since: Time,
                     after: Db, now: Time, processed: nat)
    requires cfg.sleep > 0 && OnTrack(cfg, db, clock, turns, weight, progress, idle, since)
    requires processed > 0 && TotalWeight(cfg, after) + processed <= TotalWeight(cfg, db)
    requires RipeAfter(cfg, after, now + Horizon(cfg))
    ensures OnTrack(cfg, after, now, turns + 1, weight, progress + 1, 0, now)
  {
    assert (progress + 1) * (IdleBound(cfg) + 1) == progress * (IdleBound(cfg) + 1) + IdleBound(cfg) + 1;
  }

  lemma IdleTurn(cfg: Settings, db: Db, clock: Time, turns: nat, weight: nat, progress: nat, idle: nat, since: Time,
                 reapTime: Time, now: Time)
    requires cfg.sleep > 0 && OnTrack(cfg, db, clock, turns, weight, progress, idle, since)
    requires NothingToDo(cfg, db, clock, reapTime) && clock <= reapTime && reapTime + Seconds(cfg.sleep) <= now
    ensures OnTrack(cfg, db, now, turns + 1, weight, progress, idle + 1, since)
  {
    if since + Horizon(cfg) < clock && TotalWeight(cfg, db) > 0 {
      RipeIsTaken(cfg, db, since + Horizon(cfg), clock, reapTime);
    } else if TotalWeight(cfg, db) > 0 {
      IdleFits(cfg, idle);
      assert (idle + 1) * Seconds(cfg.sleep) == idle * Seconds(cfg.sleep) + Seconds(cfg.sleep);
    }
  }

  lemma TurnRipens(cfg: Settings, from: Trace, run: Trace)
    requires IsRun(cfg, from) && IsRun(cfg, run) && Grown(cfg, from, run) && Stranding.AllLeased(Reached(cfg, from).db.jobs)
    ensures RipeAfter(cfg, Reached(cfg, run).db, Reached(cfg, run).clock + Horizon(cfg))
  {
    GrownKeeps(cfg, from, run);
    RipensInTime(cfg, run);
  }

  /** One turn in the accounts, after a sleep if nothing was processed. */
  lemma TurnCounts(cfg: Settings, from: Trace, run: Trace, db: Db, clock: Time,
                   turns: nat, weight: nat, progress: nat, idle: nat, since: Time, ended: Time, processed: nat)
      returns (progress': nat, idle': nat, since': Time)
    requires IsRun(cfg, from) && IsRun(cfg, run) && Grown(cfg, from, run) && Stranding.AllLeased(Reached(cfg, from).db.jobs)
    requires cfg.sleep > 0 && cfg.batchSize > 0 && OnTrack(cfg, db, clock, turns, weight, progress, idle, since)
    requires Progress(cfg, db, clock, Reached(cfg, run).db, ended, processed)
    requires processed == 0 ==> clock <= ended && ended + Seconds(cfg.sleep) <= Reached(cfg, run).clock
    ensures OnTrack(cfg, Reached(cfg, run).db, Reached(cfg, run).clock, turns + 1, weight, progress', idle', since')
  {
    TurnRipens(cfg, from, run);
    var after, slept := Reached(cfg, run).db, Reached(cfg, run).clock;
    if processed == 0 {
      IdleTurn(cfg, db, clock, turns, weight, progress, idle, since, ended, slept);
      return progress, idle + 1, since;
    }
    ProgressTurn(cfg, db, clock, turns, weight, progress, idle, since, after, slept, processed);
    return progress + 1, 0, slept;
  }

  /** Nothing disturbs the worker, and no job is stranded. */
  ghost predicate GoodConditions(b: World)
    reads b
  {
    b.Steady() && b.cfg.batchSize > 0 && b.cfg.sleep > 0 && Stranding.AllLeased(b.jobs)
  }

  /** One iteration: a cycle, and a sleep if it has done nothing. */
  method Turn(b: World, ghost w: nat) returns (processed: nat, ghost ended: Time)
    requires b.Valid() && b.Resting(w)
    modifies b
    ensures b.Valid() && b.Since(old(b.run)) && (b.shutdown || b.Resting(w))
    ensures old(b.Steady()) ==>
      && b.Steady() && Progress(b.cfg, old(b.Rows()), old(b.clock), b.Rows(), ended, processed)
      && (b.deletesSucceed && NoFailed(old(b.jobs)) ==> NoFailed(b.jobs))
    ensures b.naps == old(b.naps) + if processed == 0 then 1 else 0
    ensures processed == 0 ==> old(b.clock) <= ended && (b.shutdown || ended + Seconds(b.cfg.sleep) <= b.clock)
  {
    processed := Cycle(b, w);
    ghost var run := b.run;
    ended := b.clock;
    if processed == 0 {
      b.WaitForShutdown(Seconds(b.cfg.sleep));
      FollowsTrans(b.cfg, b.alone, old(b.run), run, b.run);
      run := b.run;
    }
    b.Others(Working(w));
    FollowsTrans(b.cfg, b.alone, old(b.run), run, b.run);
  }

  /** The worker's loop, for as many cycles as pass before a shutdown signal. If nothing disturbs it, a bounded number of
    cycles leaves nothing to do; if the bucket answers, too, what is left is reconciled. */
  method Loop(b: World, ghost w: nat, cycles: nat) returns (turns: nat)
    requires b.Valid() && b.Resting(w)
    modifies b
    ensures b.Valid() && b.Since(old(b.run))
    ensures turns <= cycles && (b.shutdown || turns == cycles) && (old(b.shutdown) ==> turns == 0)
    ensures old(GoodConditions(b)) && cycles >= CycleBound(b.cfg, TotalWeight(b.cfg, old(b.Rows()))) ==>
      && Quiescent(b.Rows())
      && (b.deletesSucceed && NoFailed(old(b.jobs)) && Orphans.OrphanFree(old(b.Here())) ==> Reconciled(b.Here()))
  {
    ghost var from, weight, counted := b.run, TotalWeight(b.cfg, b.Rows()), GoodConditions(b);
    ghost var progress, idle, since := 0, 0, b.clock;
    if counted {
      RipensInTime(b.cfg, b.run);
    }
    turns := 0;
    while turns < cycles && !b.shutdown
      invariant b.Valid() && b.Since(from) && turns <= cycles
      invariant (b.shutdown || b.Resting(w)) && (old(b.shutdown) ==> b.shutdown && turns == 0)
      invariant old(b.Steady()) ==> b.Steady()
      invariant counted ==> OnTrack(b.cfg, b.Rows(), b.clock, turns, weight, progress, idle, since)
      invariant old(b.Steady()) && b.deletesSucceed && NoFailed(old(b.jobs)) ==> NoFailed(b.jobs)
      decreases cycles - turns
    {
      ghost var db, clock, run := b.Rows(), b.clock, b.run;
      ghost var ended;
      var processed;
      processed, ended := Turn(b, w);
      FollowsTrans(b.cfg, b.alone, from, run, b.run);
      if counted {
        progress, idle, since := TurnCounts(b.cfg, from, b.run, db, clock, turns, weight, progress, idle, since,
                                            ended, processed);
      }
      turns := turns + 1;
    }
    if counted && cycles >= CycleBound(b.cfg, weight) {
      GrownKeeps(b.cfg, from, b.run);
      LoopEnds(b.cfg, b.run, b.Rows(), b.clock, turns, weight, progress, idle, since);
    }
  }

  lemma LoopEnds(cfg: Settings, run: Trace, db: Db, clock: Time, turns: nat, weight: nat, progress: nat, idle: nat, since: Time)
    requires IsRun(cfg, run) && Reached(cfg, run).db == db && cfg.sleep > 0
    requires OnTrack(cfg, db, clock, turns, weight, progress, idle, since) && turns >= CycleBound(cfg, weight)
    ensures Quiescent(db)
    ensures NoFailed(db.jobs) && Orphans.OrphanFree(Reached(cfg, run)) ==> Reconciled(Reached(cfg, run))
  {
    if TotalWeight(cfg, db) > 0 {
      TooFewCycles(cfg, turns, progress, idle, weight);
    }
    QuiescentWhenWeightless(cfg, db);
    if NoFailed(db.jobs) && Orphans.OrphanFree(Reached(cfg, run)) {
      QuiescentIsReconciled(cfg, run);
    }
  }
}
