/** At most two jobs are ever queued for one key. Two are possible because abandon_crane_photo_upload reads the row
  without a lock, so the reaper can queue a job between its read and its write. */
module Jobs {
  import opened Records
  import opened Outbox
  import opened Protocol
  import opened Safety
  import Leases
  import Accounting

  ghost predicate OneUpload(s: State) {
    forall u, v, p :: u in s.uploads && v in s.uploads && s.uploads[u].For(p) && s.uploads[v].For(p) ==> u == v
  }

  /** A request that may still abandon the photo. */
  predicate Open(s: State, p: PhotoId) {
    exists u :: u in s.uploads && s.uploads[u].For(p)
  }

  predicate FewJobs(s: State, p: PhotoId) {
    JobCount(s.db.jobs, p) + (if Open(s, p) then 1 else 0) <= 2
  }

  /** A request for a photo either was one before or has just reserved it. */
  lemma ForStep(cfg: Settings, s: State, e: Event, u: nat, p: PhotoId)
    requires Enabled(cfg, s, e) && u in Apply(cfg, s, e).uploads && Apply(cfg, s, e).uploads[u].For(p)
    ensures u in s.uploads && (s.uploads[u].For(p) || (e.Reserve? && e.u == u && e.photo == p))
  {
    var t := Apply(cfg, s, e);
  }

  lemma OneUploadStep(cfg: Settings, s: State, e: Event)
    requires Enabled(cfg, s, e) && Inv(s) && OneUpload(s)
    ensures OneUpload(Apply(cfg, s, e))
  {
    var t := Apply(cfg, s, e);
    forall u, v, p | u in t.uploads && v in t.uploads && t.uploads[u].For(p) && t.uploads[v].For(p) ensures u == v {
      ForStep(cfg, s, e, u, p);
      ForStep(cfg, s, e, v, p);
      assert s.uploads[u].For(p) ==> p in s.minted;
      assert s.uploads[v].For(p) ==> p in s.minted;
    }
  }

  lemma OpenStep(cfg: Settings, s: State, e: Event, p: PhotoId)
    requires Enabled(cfg, s, e) && OneUpload(s)
    ensures Open(Apply(cfg, s, e), p) ==> Open(s, p) || (e.Reserve? && e.photo == p)
    ensures e.AbandonWrite? && s.uploads[e.u].photo == p ==> Open(s, p) && !Open(Apply(cfg, s, e), p)
  {
    if e.AbandonWrite? {
      assert s.uploads[e.u].For(s.uploads[e.u].photo);
    }
  }

  lemma JobCountStep(cfg: Settings, s: State, e: Event, p: PhotoId)
    requires Enabled(cfg, s, e)
    ensures var jobs, after := s.db.jobs, Apply(cfg, s, e).db.jobs;
      || JobCount(after, p) == JobCount(jobs, p)
      || (JobCount(after, p) == JobCount(jobs, p) + 1
          && (((e.AdminDelete? || e.Reap?) && e.photo == p) || (e.AbandonWrite? && s.uploads[e.u].photo == p)))
  {
    var jobs, after := s.db.jobs, Apply(cfg, s, e).db.jobs;
    JobsGrowStep(cfg, s, e);
    if |after| == |jobs| {
      JobCountSameKeys(jobs, after, p);
    } else {
      assert after == jobs + [after[|jobs|]];
      JobCountAppend(jobs, after[|jobs|], p);
    }
  }

  lemma {:induction false} FewJobsKept(cfg: Settings, run: Trace, p: PhotoId)
    requires IsRun(cfg, run)
    ensures OneUpload(Reached(cfg, run)) && FewJobs(Reached(cfg, run), p)
  {
    if run.Then? {
      var s, e := Reached(cfg, run.before), run.event;
      FewJobsKept(cfg, run.before, p);
      InvHolds(cfg, run.before);
      OneUploadStep(cfg, s, e);
      OpenStep(cfg, s, e, p);
      JobCountStep(cfg, s, e, p);
      JobCountPositive(s.db.jobs, p);
    }
  }

  lemma AtMostTwoJobs(cfg: Settings, run: Trace, p: PhotoId)
    requires IsRun(cfg, run)
    ensures JobCount(Reached(cfg, run).db.jobs, p) <= 2
  {
    FewJobsKept(cfg, run, p);
  }

  /** Two jobs do occur, whatever the settings: the reaper takes a row that abandon has just read. */
  lemma TwoJobsForOneKey(cfg: Settings) returns (run: Trace)
    ensures IsRun(cfg, run)
    ensures JobCount(Reached(cfg, run).db.jobs, 0) == 2
  {
    var s;
    var now := Millis(cfg.uploadWindow) + 1;
    run, s := FirstReserved(cfg);
    run, s := Do(cfg, run, s, PutFails(0));
    run, s := Do(cfg, run, s, AbandonSelect(0));
    assert s.uploads == map[0 := Abandoning(0)];
    run, s := Do(cfg, run, s, Tick(now));
    run, s := Do(cfg, run, s, Reap(0, now));
    var job := Job(0, Pending, 0, now, None, now);
    assert s.db.jobs == [job];
    run, s := Do(cfg, run, s, AbandonWrite(0, now));
    JobCountAppend([], job, 0);
    JobCountAppend([job], job, 0);
  }

  // ---- one job for one row ----

  /** Abandon writes in the state it has read: its row is not yet pending deletion. */
  predicate Unraced(cfg: Settings, s: State, e: Event) {
    e.AbandonWrite? && e.u in s.uploads && s.uploads[e.u].Abandoning? ==>
      !s.db.Has(s.uploads[e.u].photo, PendingDelete)
  }

  predicate KeysDistinct(jobs: seq<Job>) {
    forall i, k :: 0 <= i < k < |jobs| ==> jobs[i].key != jobs[k].key
  }

  /** The jobs that are not completed and the rows pending deletion are in bijection by key. */
  predicate Bijection(db: Db) {
    && KeysDistinct(db.jobs)
    && (forall j :: 0 <= j < |db.jobs| ==> (!db.jobs[j].status.Completed? <==> db.Has(db.jobs[j].key, PendingDelete)))
    && (forall p :: p in db.photos && db.Has(p, PendingDelete) ==> p in Queued(db.jobs))
  }

  lemma KeysDistinctStep(cfg: Settings, s: State, e: Event)
    requires Enabled(cfg, s, e) && Unraced(cfg, s, e) && Inv(s) && KeysDistinct(s.db.jobs)
    ensures KeysDistinct(Apply(cfg, s, e).db.jobs)
  {
    var jobs, after := s.db.jobs, Apply(cfg, s, e).db.jobs;
    JobsGrowStep(cfg, s, e);
    if |after| > |jobs| {
      assert forall i :: 0 <= i < |jobs| ==> jobs[i].key in Queued(jobs);
    }
  }

  lemma RacedStep(cfg: Settings, s: State, e: Event)
    requires Enabled(cfg, s, e) && Inv(s) && !Unraced(cfg, s, e)
    ensures !KeysDistinct(Apply(cfg, s, e).db.jobs)
  {
    var p, jobs := s.uploads[e.u].photo, s.db.jobs;
    assert p in Queued(jobs);
    var i :| 0 <= i < |jobs| && jobs[i].key == p;
    var after := Apply(cfg, s, e).db.jobs;
    assert after == jobs + [Job(p, Pending, 0, e.now, None, e.now)];
    assert after[i].key == after[|jobs|].key;
  }

  lemma RepeatedStep(cfg: Settings, s: State, e: Event)
    requires Enabled(cfg, s, e) && !KeysDistinct(s.db.jobs)
    ensures !KeysDistinct(Apply(cfg, s, e).db.jobs)
  {
    JobsGrowStep(cfg, s, e);
    var i, k :| 0 <= i < k < |s.db.jobs| && s.db.jobs[i].key == s.db.jobs[k].key;
    var after := Apply(cfg, s, e).db.jobs;
    assert after[i].key == after[k].key;
  }

  /** A run queues at most one job for each key if and only if abandon always writes in the state it has read. */
  lemma {:induction false} DistinctIffUnraced(cfg: Settings, run: Trace)
    requires IsRun(cfg, run)
    ensures KeysDistinct(Reached(cfg, run).db.jobs) <==> Throughout(cfg, INITIAL, run, Unraced)
  {
    if run.Then? {
      var s, e := Reached(cfg, run.before), run.event;
      DistinctIffUnraced(cfg, run.before);
      InvHolds(cfg, run.before);
      if !KeysDistinct(s.db.jobs) {
        RepeatedStep(cfg, s, e);
      } else if Unraced(cfg, s, e) {
        KeysDistinctStep(cfg, s, e);
      } else {
        RacedStep(cfg, s, e);
      }
    }
  }

  /** A row pending deletion goes only when its own job is completed. */
  lemma RowStays(cfg: Settings, s: State, e: Event, j: JobId)
    requires Enabled(cfg, s, e) && Leases.NoSteal(cfg, s, e) && Inv(s) && Leases.Holders(s)
    requires Bijection(s.db) && j < |s.db.jobs|
    ensures var t := Apply(cfg, s, e);
      j < |t.db.jobs| && t.db.jobs[j].key == s.db.jobs[j].key
      && (!t.db.jobs[j].status.Completed? <==> t.db.Has(t.db.jobs[j].key, PendingDelete))
  {
    var key := s.db.jobs[j].key;
    JobsGrowStep(cfg, s, e);
    Accounting.RowStep(cfg, s, e, j);
    assert key in Queued(s.db.jobs);
    PendingRowStep(cfg, s, e, key);
    if e.WriteOutcome? {
      Accounting.RowStep(cfg, s, e, s.Next(e.w).job);
      assert ClaimKnown(s.db.jobs, s.Next(e.w));
    }
  }

  lemma PendingRowStep(cfg: Settings, s: State, e: Event, p: PhotoId)
    requires Enabled(cfg, s, e) && GivenUp(s, p)
    ensures var t := Apply(cfg, s, e);
      t.db.Has(p, PendingDelete) <==>
        s.db.Has(p, PendingDelete) && !(e.WriteOutcome? && s.workers[e.w].phase.ok && s.workers[e.w].phase.seen.key == p)
  {
    var t := Apply(cfg, s, e);
  }

  lemma BijectionStep(cfg: Settings, s: State, e: Event)
    requires Enabled(cfg, s, e) && Leases.NoSteal(cfg, s, e) && Inv(s) && Leases.Holders(s) && Bijection(s.db)
    requires Inv(Apply(cfg, s, e)) && KeysDistinct(Apply(cfg, s, e).db.jobs)
    ensures Bijection(Apply(cfg, s, e).db)
  {
    var t := Apply(cfg, s, e);
    forall j | 0 <= j < |t.db.jobs|
      ensures !t.db.jobs[j].status.Completed? <==> t.db.Has(t.db.jobs[j].key, PendingDelete)
    {
      if j < |s.db.jobs| {
        RowStays(cfg, s, e, j);
      } else {
        Accounting.NewRowStep(cfg, s, e, j);
        NewKeyStep(cfg, s, e, j);
      }
    }
  }

  /** A job is queued for a row that is there. */
  lemma NewKeyStep(cfg: Settings, s: State, e: Event, j: JobId)
    requires Enabled(cfg, s, e) && |s.db.jobs| <= j < |Apply(cfg, s, e).db.jobs|
    ensures var t := Apply(cfg, s, e); t.db.Has(t.db.jobs[j].key, PendingDelete)
  {
    var t := Apply(cfg, s, e);
  }

  /** With no job taken from a live worker, the uncompleted jobs and the rows pending deletion agree one to one, and a
    completed job has no row, if and only if abandon always writes in the state it has read. */
  lemma {:induction false} OutboxBijection(cfg: Settings, run: Trace)
    requires IsRun(cfg, run) && Throughout(cfg, INITIAL, run, Leases.NoSteal)
    ensures Bijection(Reached(cfg, run).db) <==> Throughout(cfg, INITIAL, run, Unraced)
  {
    DistinctIffUnraced(cfg, run);
    if run.Then? && Throughout(cfg, INITIAL, run, Unraced) {
      OutboxBijection(cfg, run.before);
      InvHolds(cfg, run.before);
      InvHolds(cfg, run);
      Leases.HoldersKept(cfg, run.before);
      BijectionStep(cfg, Reached(cfg, run.before), run.event);
    }
  }
}
