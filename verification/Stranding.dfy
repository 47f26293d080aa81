/** When an unfinished job can be claimed again, and when it cannot.

  capture_failure and capture_success read the job row without a lock and write only the columns that differ from what
  they read. If the job is claimed in between, the write can put a status and a lease together that do not belong
  together. Two families of writes matter. Runs without torn writes are exactly those in which every job has a lease
  while it is processed and at no other time. Runs without stripping writes, which take the lease off a row that is
  being processed, are exactly those in which no job is ever stranded. */
module Stranding {
  import opened Records
  import opened Outbox
  import opened Protocol
  import opened Leases

  predicate NotTorn(cfg: Settings, s: State, e: Event) {
    e.WriteOutcome? && s.At(e.w) && s.workers[e.w].phase.Recording? && s.Next(e.w).job < |s.db.jobs| ==>
      !Torn(cfg, s.workers[e.w].phase.seen, s.db.jobs[s.Next(e.w).job], s.workers[e.w].phase.ok)
  }

  predicate AllPaired(s: State) {
    forall j :: 0 <= j < |s.db.jobs| ==> Paired(s.db.jobs[j])
  }

  predicate SeenPaired(s: State) {
    forall w :: w in s.workers && s.workers[w].phase.Recording? ==> Paired(s.workers[w].phase.seen)
  }

  predicate AlwaysPaired(cfg: Settings, run: Trace)
    requires IsRun(cfg, run)
  {
    AllPaired(Reached(cfg, run)) && (run.Then? ==> AlwaysPaired(cfg, run.before))
  }

  lemma SeenPairedStep(cfg: Settings, s: State, e: Event)
    requires Enabled(cfg, s, e) && AllPaired(s) && SeenPaired(s)
    ensures SeenPaired(Apply(cfg, s, e))
  {
    var t := Apply(cfg, s, e);
  }

  /** One event keeps all jobs paired exactly when it is not a torn write. */
  lemma PairedStep(cfg: Settings, s: State, e: Event)
    requires Enabled(cfg, s, e) && AllPaired(s) && SeenPaired(s)
    ensures AllPaired(Apply(cfg, s, e)) <==> NotTorn(cfg, s, e)
  {
    var jobs, after := s.db.jobs, Apply(cfg, s, e).db.jobs;
    forall j | 0 <= j < |jobs| && !Touched(s, e, j) ensures j < |after| && after[j] == jobs[j] {
      UntouchedStep(cfg, s, e, j);
    }
    if e.WriteOutcome? {
      var j, phase := s.Next(e.w).job, s.workers[e.w].phase;
      OutcomeKeepsPairing(cfg, phase.seen, jobs[j], phase.ok, e.now + e.delay);
      assert after[j] == OutcomeRow(cfg, phase.seen, jobs[j], phase.ok, e.now + e.delay);
    }
  }

  /** In every state of a run each job has a lease exactly while it is processed, if and only if no write is torn. */
  lemma {:induction false} PairedIffNotTorn(cfg: Settings, run: Trace)
    requires IsRun(cfg, run)
    ensures AlwaysPaired(cfg, run) <==> Throughout(cfg, INITIAL, run, NotTorn)
    ensures AlwaysPaired(cfg, run) ==> SeenPaired(Reached(cfg, run))
  {
    if run.Then? {
      PairedIffNotTorn(cfg, run.before);
      if AlwaysPaired(cfg, run.before) {
        SeenPairedStep(cfg, Reached(cfg, run.before), run.event);
        PairedStep(cfg, Reached(cfg, run.before), run.event);
      }
    }
  }

  /** If no job is claimed from a live worker then no write is torn. */
  lemma {:induction false} NoStealNeverTorn(cfg: Settings, run: Trace)
    requires IsRun(cfg, run) && Throughout(cfg, INITIAL, run, NoSteal)
    ensures Throughout(cfg, INITIAL, run, NotTorn)
  {
    if run.Then? {
      NoStealNeverTorn(cfg, run.before);
      HoldersKept(cfg, run.before);
      var s, e := Reached(cfg, run.before), run.event;
      assert e.WriteOutcome? ==> WorkerCurrent(s.db.jobs, s.workers[e.w]);
    }
  }

  // ---- every deadline lies within a fixed distance of the clock ----

  predicate JobBounded(cfg: Settings, clock: Time, job: Job) {
    && job.availableAt <= clock + 1000 * cfg.maxDelay
    && (job.lease.Some? ==> job.lease.value <= clock + 1_000_000 * cfg.leaseWindow)
  }

  predicate JobsBounded(cfg: Settings, s: State) {
    forall j :: 0 <= j < |s.db.jobs| ==> JobBounded(cfg, s.clock, s.db.jobs[j])
  }

  predicate Bounded(cfg: Settings, s: State) {
    JobsBounded(cfg, s) && forall p :: p in s.db.photos ==> s.db.photos[p].addedAt <= s.clock
  }

  lemma JobsBoundedStep(cfg: Settings, s: State, e: Event)
    requires Enabled(cfg, s, e) && JobsBounded(cfg, s)
    ensures JobsBounded(cfg, Apply(cfg, s, e))
  {
    var t := Apply(cfg, s, e);
    forall j | 0 <= j < |t.db.jobs| ensures JobBounded(cfg, t.clock, t.db.jobs[j]) {
      if j < |s.db.jobs| {
        assert JobBounded(cfg, s.clock, s.db.jobs[j]);
        if !Touched(s, e, j) {
          UntouchedStep(cfg, s, e, j);
        }
      }
    }
  }

  lemma BoundedStep(cfg: Settings, s: State, e: Event)
    requires Enabled(cfg, s, e) && Bounded(cfg, s)
    ensures Bounded(cfg, Apply(cfg, s, e))
  {
    JobsBoundedStep(cfg, s, e);
  }

  lemma {:induction false} BoundedKept(cfg: Settings, run: Trace)
    requires IsRun(cfg, run)
    ensures Bounded(cfg, Reached(cfg, run))
  {
    if run.Then? {
      BoundedKept(cfg, run.before);
      BoundedStep(cfg, Reached(cfg, run.before), run.event);
    }
  }

  /** How long, in microseconds, a job can wait before it may be claimed. */
  function Patience(cfg: Settings): nat {
    Max(1000 * cfg.maxDelay, 1_000_000 * cfg.leaseWindow)
  }

  // ---- no job is stranded, unless a write takes the lease off a row in processing ----

  /** The write leaves the status of a row in processing alone and takes its lease. */
  predicate Stripping(cfg: Settings, s: State, e: Event) {
    e.WriteOutcome? && s.At(e.w) && s.workers[e.w].phase.Recording? && s.Next(e.w).job < |s.db.jobs|
    && var seen := s.workers[e.w].phase.seen;
       s.db.jobs[s.Next(e.w).job].status.Processing? && seen.lease.Some?
       && seen.status == NewStatus(cfg, seen, s.workers[e.w].phase.ok)
  }

  predicate NotStripping(cfg: Settings, s: State, e: Event) {
    !Stripping(cfg, s, e)
  }

  predicate Leased(job: Job) {
    job.status.Processing? ==> job.lease.Some?
  }

  predicate AllLeased(jobs: seq<Job>) {
    forall j :: 0 <= j < |jobs| ==> Leased(jobs[j])
  }

  /** One event leaves every job in processing its lease exactly when it is not a stripping write. */
  lemma LeasedStep(cfg: Settings, s: State, e: Event)
    requires Enabled(cfg, s, e) && AllLeased(s.db.jobs)
    ensures AllLeased(Apply(cfg, s, e).db.jobs) <==> NotStripping(cfg, s, e)
  {
    var jobs, after := s.db.jobs, Apply(cfg, s, e).db.jobs;
    forall j | 0 <= j < |jobs| && !Touched(s, e, j) ensures j < |after| && after[j] == jobs[j] {
      UntouchedStep(cfg, s, e, j);
    }
    if e.WriteOutcome? {
      var j, phase := s.Next(e.w).job, s.workers[e.w].phase;
      assert after[j] == OutcomeRow(cfg, phase.seen, jobs[j], phase.ok, e.now + e.delay);
    }
  }

  /** Left alone, this job can be claimed at any time after the longest delay and the lease have passed. */
  ghost predicate ClaimableInTime(cfg: Settings, clock: Time, job: Job) {
    forall later :: later > clock + Patience(cfg) ==> Claimable(job, later)
  }

  /** In every run, an unfinished job becomes claimable in time exactly if it is not in processing without a lease. */
  lemma ClaimableIffLeased(cfg: Settings, run: Trace, j: JobId)
    requires IsRun(cfg, run) && j < |Reached(cfg, run).db.jobs| && !Reached(cfg, run).db.jobs[j].Terminal()
    ensures var s := Reached(cfg, run); ClaimableInTime(cfg, s.clock, s.db.jobs[j]) <==> Leased(s.db.jobs[j])
  {
    BoundedKept(cfg, run);
    var s := Reached(cfg, run);
    assert JobBounded(cfg, s.clock, s.db.jobs[j]);
    if !Leased(s.db.jobs[j]) {
      assert !Claimable(s.db.jobs[j], s.clock + Patience(cfg) + 1);
    }
  }

  /** In all states of the run, every unfinished job becomes claimable in time. */
  ghost predicate NeverStranded(cfg: Settings, run: Trace)
    requires IsRun(cfg, run)
  {
    var s := Reached(cfg, run);
    && (forall j :: 0 <= j < |s.db.jobs| && !s.db.jobs[j].Terminal() ==> ClaimableInTime(cfg, s.clock, s.db.jobs[j]))
    && (run.Then? ==> NeverStranded(cfg, run.before))
  }

  /** No job is stranded in a run, whether its worker shut down, crashed, or failed to record the outcome, if and only if
    no write of the run is stripping. */
  lemma {:induction false} NoJobStranded(cfg: Settings, run: Trace)
    requires IsRun(cfg, run)
    ensures NeverStranded(cfg, run) <==> Throughout(cfg, INITIAL, run, NotStripping)
    ensures NeverStranded(cfg, run) ==> AllLeased(Reached(cfg, run).db.jobs)
  {
    var s := Reached(cfg, run);
    forall j | 0 <= j < |s.db.jobs| && !s.db.jobs[j].Terminal()
      ensures ClaimableInTime(cfg, s.clock, s.db.jobs[j]) <==> Leased(s.db.jobs[j])
    {
      ClaimableIffLeased(cfg, run, j);
    }
    if run.Then? {
      NoJobStranded(cfg, run.before);
      if NeverStranded(cfg, run.before) {
        LeasedStep(cfg, Reached(cfg, run.before), run.event);
      }
    }
  }

  /** A run without torn writes has no stripping ones, so neither strands a job. */
  lemma {:induction false} NotTornNotStripping(cfg: Settings, run: Trace)
    requires IsRun(cfg, run) && Throughout(cfg, INITIAL, run, NotTorn)
    ensures Throughout(cfg, INITIAL, run, NotStripping)
  {
    if run.Then? {
      NotTornNotStripping(cfg, run.before);
      PairedIffNotTorn(cfg, run.before);
    }
  }

  // ---- a stranded job ----

  /** The job counts as being processed, but it has no lease and nobody holds it. */
  predicate Stranded(s: State, j: JobId) {
    && j < |s.db.jobs| && s.db.jobs[j].status.Processing? && s.db.jobs[j].lease.None?
    && forall w :: w in s.workers ==> !Holds(s.workers[w], j)
  }

  lemma StrandedStep(cfg: Settings, s: State, e: Event, j: JobId)
    requires Enabled(cfg, s, e) && Stranded(s, j)
    ensures Stranded(Apply(cfg, s, e), j)
  {
    var t := Apply(cfg, s, e);
    forall w | s.At(w) ensures s.Next(w).job != j {
      assert Holds(s.workers[w], s.Next(w).job);
    }
    UntouchedStep(cfg, s, e, j);
    forall w | w in t.workers ensures !Holds(t.workers[w], j) {
      if !(e.ClaimBatch? && e.w == w) {
        TodoStep(cfg, s, e, w);
        assert !Holds(s.workers[w], j);
      }
    }
  }

  /** Nothing that the system does ever moves a stranded job again. */
  lemma {:induction false} StrandedForever(cfg: Settings, s: State, run: Trace, j: JobId)
    requires Valid(cfg, s, run) && Stranded(s, j)
    ensures Stranded(End(cfg, s, run), j)
  {
    if run.Then? {
      StrandedForever(cfg, s, run.before, j);
      StrandedStep(cfg, End(cfg, s, run.before), run.event, j);
    }
  }

  // Three workers whose leases have run out bring this about; a default of five attempts is enough.

  /** Time passes, worker w claims the only job, and its storage call fails. */
  lemma ClaimAndFail(cfg: Settings, run: Trace, s: State, job: Job, w: nat, now: Time)
      returns (next: Trace, t: State)
    requires IsRun(cfg, run) && s == Reached(cfg, run) && s.db.jobs == [job] && s.locks == map[]
    requires s.clock <= now && Claimable(job, now) && s.Idle(w) && cfg.batchSize > 0
    ensures IsRun(cfg, next) && t == Reached(cfg, next) && t.clock == now && t.locks == map[]
    ensures t.db.jobs == [ClaimRow(cfg, job, now)]
    ensures t.workers == s.workers[w := Worker([Claim(0, job.key, job.attempts + 1)], Deleted(false), now, now)]
  {
    next, t := Do(cfg, run, s, Tick(now));
    next, t := ClaimOnly(cfg, next, t, job, w);
    next, t := DeleteRaises(cfg, next, t, w);
  }

  lemma DeleteRaises(cfg: Settings, run: Trace, s: State, w: nat) returns (next: Trace, t: State)
    requires IsRun(cfg, run) && s == Reached(cfg, run) && s.At(w) && s.workers[w].phase.Ready?
    ensures IsRun(cfg, next) && t == Reached(cfg, next) && t.db == s.db && t.clock == s.clock && t.locks == s.locks
    ensures t.workers == s.workers[w := s.workers[w].(phase := Deleted(false))]
  {
    next, t := Do(cfg, run, s, SendDelete(w));
    next, t := Do(cfg, next, t, DeleteFails(w));
  }

  /** Worker w holds the only job by its k-th claim and has its answer from the bucket. */
  predicate HasAnswer(s: State, w: nat, k: nat, ok: bool) {
    w in s.workers && s.workers[w].todo == [Claim(0, 0, k)] && s.workers[w].phase == Deleted(ok)
  }

  lemma DeleteTaken(cfg: Settings, run: Trace, s: State, w: nat) returns (next: Trace, t: State)
    requires IsRun(cfg, run) && s == Reached(cfg, run) && s.At(w) && s.workers[w].phase.Ready?
    ensures IsRun(cfg, next) && t == Reached(cfg, next) && t.db == s.db && t.clock == s.clock && t.locks == s.locks
    ensures t.workers == s.workers[w := s.workers[w].(phase := Deleting(true))]
  {
    next, t := Do(cfg, run, s, SendDelete(w));
    next, t := Do(cfg, next, t, DeleteTakes(w));
  }

  lemma DeleteSucceeds(cfg: Settings, run: Trace, s: State, w: nat) returns (next: Trace, t: State)
    requires IsRun(cfg, run) && s == Reached(cfg, run) && s.At(w) && s.workers[w].phase.Ready?
    ensures IsRun(cfg, next) && t == Reached(cfg, next) && t.db == s.db && t.clock == s.clock && t.locks == s.locks
    ensures t.workers == s.workers[w := s.workers[w].(phase := Deleted(true))]
  {
    next, t := DeleteTaken(cfg, run, s, w);
    next, t := Do(cfg, next, t, DeleteOk(w));
  }

  lemma FirstHolder(cfg: Settings) returns (run: Trace, s: State, job: Job)
    requires cfg.batchSize > 0
    ensures IsRun(cfg, run) && s == Reached(cfg, run) && s.locks == map[]
    ensures s.db.jobs == [job] && job.key == 0 && job.status.Processing? && job.attempts == 1 && job.lease.Some?
    ensures s.workers.Keys == {0} && HasAnswer(s, 0, 1, true)
  {
    run, s := FirstClaimed(cfg, 0, Millis(cfg.uploadWindow) + 1);
    run, s := DeleteSucceeds(cfg, run, s, 0);
    job := s.db.jobs[0];
  }

  /** A job with three live holders: the first has deleted the object, the other two could not. */
  lemma ThreeHolders(cfg: Settings) returns (run: Trace, s: State, job: Job)
    requires cfg.batchSize > 0
    ensures IsRun(cfg, run) && s == Reached(cfg, run) && s.locks == map[]
    ensures s.db.jobs == [job] && job.key == 0 && job.status.Processing? && job.attempts == 3 && job.lease.Some?
    ensures s.workers.Keys == {0, 1, 2}
    ensures HasAnswer(s, 0, 1, true) && HasAnswer(s, 1, 2, false) && HasAnswer(s, 2, 3, false)
  {
    run, s, job := FirstHolder(cfg);
    run, s := ClaimAndFail(cfg, run, s, job, 1, Max(s.clock, job.lease.value + 1));
    job := s.db.jobs[0];
    run, s := ClaimAndFail(cfg, run, s, job, 2, Max(s.clock, job.lease.value + 1));
    job := s.db.jobs[0];
  }

  predicate SawCompleted(phase: Phase) {
    phase.Recording? && !phase.ok && phase.seen.status.Completed? && phase.seen.attempts == 3 && phase.seen.lease.None?
  }

  lemma FirstCompletes(cfg: Settings) returns (run: Trace, s: State, job: Job)
    requires cfg.batchSize > 0
    ensures IsRun(cfg, run) && s == Reached(cfg, run) && s.locks == map[]
    ensures s.db.jobs == [job] && job.key == 0 && job.status.Completed? && job.attempts == 3 && job.lease.None?
    ensures s.workers.Keys == {0, 1, 2} && s.Idle(0)
    ensures HasAnswer(s, 1, 2, false) && HasAnswer(s, 2, 3, false)
  {
    run, s, job := ThreeHolders(cfg);
    run, s := Do(cfg, run, s, ReadJob(0));
    run, s := Do(cfg, run, s, WriteOutcome(0, s.clock, 0));
    job := s.db.jobs[0];
  }

  /** The first completes the job, the second reads it, and the third puts it back: a completed job is pending again. */
  lemma CompletedThenPending(cfg: Settings) returns (run: Trace, s: State, job: Job)
    requires cfg.batchSize > 0 && cfg.maxAttempts > 4
    ensures IsRun(cfg, run) && s == Reached(cfg, run) && s.locks == map[]
    ensures s.db.jobs == [job] && job.key == 0 && job.status.Pending? && job.attempts == 3 && job.lease.None?
    ensures job.availableAt <= s.clock
    ensures s.workers.Keys == {0, 1, 2} && s.Idle(0) && s.Idle(2) && s.workers[1].todo == [Claim(0, 0, 2)]
    ensures SawCompleted(s.workers[1].phase)
    ensures run.Then? && |Reached(cfg, run.before).db.jobs| == 1 && Reached(cfg, run.before).db.jobs[0].status.Completed?
  {
    run, s, job := FirstCompletes(cfg);
    run, s := Do(cfg, run, s, ReadJob(1));
    run, s := Do(cfg, run, s, ReadJob(2));
    run, s := Do(cfg, run, s, WriteOutcome(2, s.clock, 0));
    job := s.db.jobs[0];
  }

  /** It is claimed again, and the second writes its failure over the claim: a pending job with a lease. */
  lemma PendingWithLease(cfg: Settings) returns (run: Trace, s: State, job: Job)
    requires cfg.batchSize > 0 && cfg.maxAttempts > 4
    ensures IsRun(cfg, run) && s == Reached(cfg, run) && s.locks == map[]
    ensures s.db.jobs == [job] && job.key == 0 && job.status.Pending? && job.attempts == 4 && job.lease.Some?
    ensures job.availableAt <= s.clock
    ensures s.workers.Keys == {0, 1, 2} && s.Idle(1) && s.Idle(2)
    ensures s.workers[0].todo == [Claim(0, 0, 4)] && s.workers[0].phase == Deleted(false)
  {
    run, s, job := CompletedThenPending(cfg);
    run, s := ClaimAndFail(cfg, run, s, job, 0, s.clock + 1);
    run, s := Do(cfg, run, s, WriteOutcome(1, s.clock, 0));
    job := s.db.jobs[0];
  }

  /** The holder reads that row, the job is claimed once more, and the holder's write takes only the lease. When the
    last claimant crashes the job is stranded. */
  lemma JobCanBeStranded(cfg: Settings) returns (run: Trace)
    requires cfg.batchSize > 0 && cfg.maxAttempts > 4
    ensures IsRun(cfg, run) && Stranded(Reached(cfg, run), 0)
  {
    var s, job;
    run, s, job := PendingWithLease(cfg);
    run, s := Do(cfg, run, s, ReadJob(0));
    run, s := ClaimAndFail(cfg, run, s, job, 2, s.clock + 1);
    run, s := Do(cfg, run, s, WriteOutcome(0, s.clock, 0));
    run, s := Do(cfg, run, s, WorkerStops(2));
  }
}
