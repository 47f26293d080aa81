/** Several workers are safe as long as each of them is quick enough for its lease. */
module Timing {
  import opened Records
  import Outbox
  import opened Protocol
  import opened Leases

  /** How long, in microseconds, claiming a batch and working on one job may take. */
  datatype Bounds = Bounds(claim: nat, job: nat)

  /** The clock passes no worker's bound. */
  predicate Prompt(bounds: Bounds, s: State, e: Event) {
    match e
    case Tick(now) =>
      forall w :: w in s.workers && s.workers[w].todo != [] ==> now <= s.workers[w].since + bounds.job
    case ClaimBatch(w, ids, now) => s.clock <= now + bounds.claim
    case _ => true
  }

  predicate AlwaysPrompt(cfg: Settings, bounds: Bounds, s: State, run: Trace)
    requires Valid(cfg, s, run)
  {
    run.Then? ==> AlwaysPrompt(cfg, bounds, s, run.before) && Prompt(bounds, End(cfg, s, run.before), run.event)
  }

  /** The whole batch fits into the lease: one claim, and as many jobs one after the other as a batch can hold. */
  predicate Fits(cfg: Settings, bounds: Bounds) {
    bounds.claim + cfg.batchSize * bounds.job <= 1_000_000 * cfg.leaseWindow
  }

  /** A worker with jobs left is on schedule: the jobs it has done took at most their share of the time. */
  predicate OnSchedule(cfg: Settings, bounds: Bounds, s: State, worker: Worker) {
    worker.todo != [] ==>
      && |worker.todo| <= cfg.batchSize
      && s.clock <= worker.since + bounds.job
      && worker.since <= worker.start + bounds.claim + (cfg.batchSize - |worker.todo|) * bounds.job
      && forall k :: 0 <= k < |worker.todo| ==> LeaseOf(s.db.jobs, worker.todo[k], worker.start + Seconds(cfg.leaseWindow))
  }

  predicate LeaseOf(jobs: seq<Job>, claim: Claim, expiry: Time) {
    claim.job < |jobs| && jobs[claim.job].lease == Some(expiry)
  }

  predicate Schedule(cfg: Settings, bounds: Bounds, s: State) {
    forall w :: w in s.workers ==> OnSchedule(cfg, bounds, s, s.workers[w])
  }

  lemma WithinLease(cfg: Settings, bounds: Bounds, s: State, worker: Worker)
    requires Fits(cfg, bounds) && OnSchedule(cfg, bounds, s, worker) && worker.todo != []
    ensures s.clock <= worker.start + Seconds(cfg.leaseWindow)
  {
    var n, job := |worker.todo|, bounds.job;
    assert (cfg.batchSize - n) * job + job == (cfg.batchSize - n + 1) * job <= cfg.batchSize * job;
  }

  lemma HeldNotClaimable(cfg: Settings, bounds: Bounds, s: State, w: nat, i: nat, now: Time)
    requires Fits(cfg, bounds) && Holders(s) && Schedule(cfg, bounds, s) && now <= s.clock
    requires w in s.workers && i < |s.workers[w].todo|
    ensures var j := s.workers[w].todo[i].job;
      j < |s.db.jobs| && !Outbox.Claimable(s.db.jobs[j], now)
      && s.db.jobs[j].lease.Some? && s.clock <= s.db.jobs[j].lease.value
  {
    WithinLease(cfg, bounds, s, s.workers[w]);
    assert Current(s.db.jobs, s.workers[w].todo[i]);
    assert LeaseOf(s.db.jobs, s.workers[w].todo[i], s.workers[w].start + Seconds(cfg.leaseWindow));
  }

  lemma PromptNeverSteals(cfg: Settings, bounds: Bounds, s: State, e: Event)
    requires Fits(cfg, bounds) && Enabled(cfg, s, e) && Holders(s) && Schedule(cfg, bounds, s)
    ensures NoSteal(cfg, s, e)
  {
    if e.SelectJobs? || e.ClaimBatch? {
      forall w, i | w in s.workers && 0 <= i < |s.workers[w].todo|
        ensures !Outbox.Claimable(s.db.jobs[s.workers[w].todo[i].job], e.now)
      {
        HeldNotClaimable(cfg, bounds, s, w, i, e.now);
      }
    }
  }

  lemma ScheduleStarts(cfg: Settings, bounds: Bounds, s: State, e: Event)
    requires Enabled(cfg, s, e) && e.ClaimBatch? && Prompt(bounds, s, e)
    ensures OnSchedule(cfg, bounds, Apply(cfg, s, e), Apply(cfg, s, e).workers[e.w])
  {
    Product(cfg.batchSize - |e.ids|, bounds.job);
  }

  lemma LeaseKept(cfg: Settings, bounds: Bounds, s: State, e: Event, w: nat, k: nat)
    requires Enabled(cfg, s, e) && NoSteal(cfg, s, e) && Holders(s) && Schedule(cfg, bounds, s)
    requires w in s.workers && k < |s.workers[w].todo| && !(e.WriteOutcome? && e.w == w && k == 0)
    ensures LeaseOf(Apply(cfg, s, e).db.jobs, s.workers[w].todo[k], s.workers[w].start + Seconds(cfg.leaseWindow))
  {
    assert LeaseOf(s.db.jobs, s.workers[w].todo[k], s.workers[w].start + Seconds(cfg.leaseWindow));
    HeldUntouched(cfg, s, e, w, k);
  }

  lemma ScheduleStep(cfg: Settings, bounds: Bounds, s: State, e: Event, w: nat)
    requires Enabled(cfg, s, e) && Prompt(bounds, s, e) && NoSteal(cfg, s, e) && Holders(s)
    requires Schedule(cfg, bounds, s) && w in Apply(cfg, s, e).workers
    ensures OnSchedule(cfg, bounds, Apply(cfg, s, e), Apply(cfg, s, e).workers[w])
  {
    if e.ClaimBatch? && e.w == w {
      ScheduleStarts(cfg, bounds, s, e);
    } else {
      TodoStep(cfg, s, e, w);
      var prior, next := s.workers[w], Apply(cfg, s, e).workers[w];
      forall k | 0 <= k < |prior.todo| && !(e.WriteOutcome? && e.w == w && k == 0)
        ensures LeaseOf(Apply(cfg, s, e).db.jobs, prior.todo[k], prior.start + Seconds(cfg.leaseWindow))
      {
        LeaseKept(cfg, bounds, s, e, w, k);
      }
      ScheduleAdvances(cfg, bounds, s, prior, Apply(cfg, s, e), next);
    }
  }

  lemma ScheduleAdvances(cfg: Settings, bounds: Bounds, s: State, prior: Worker, t: State, next: Worker)
    requires OnSchedule(cfg, bounds, s, prior)
    requires
      || (Keeps(prior, next) && (next.todo != [] ==> t.clock <= prior.since + bounds.job))
      || (Drops(prior, next, s.clock) && t.clock == s.clock)
    requires forall k :: |prior.todo| - |next.todo| <= k < |prior.todo| ==>
      LeaseOf(t.db.jobs, prior.todo[k], prior.start + Seconds(cfg.leaseWindow))
    ensures OnSchedule(cfg, bounds, t, next)
  {
    if next.todo != [] {
      var n, b, job := |prior.todo|, cfg.batchSize, bounds.job;
      assert (b - n) * job + job == (b - (n - 1)) * job;
      forall k | 0 <= k < |next.todo|
        ensures LeaseOf(t.db.jobs, next.todo[k], prior.start + Seconds(cfg.leaseWindow))
      {
        assert next.todo[k] == prior.todo[k + n - |next.todo|];
      }
    }
  }

  /** Lease exclusivity: if a claim and a full batch fit into the lease, no job is ever held by two live workers, and
    every worker still holds its leases whenever it acts. */
  lemma {:induction false} PromptWorkersExclude(cfg: Settings, bounds: Bounds, run: Trace)
    requires Fits(cfg, bounds) && IsRun(cfg, run) && AlwaysPrompt(cfg, bounds, INITIAL, run)
    ensures Throughout(cfg, INITIAL, run, NoSteal)
    ensures Holders(Reached(cfg, run)) && Schedule(cfg, bounds, Reached(cfg, run))
    ensures var s := Reached(cfg, run);
      forall w, k :: w in s.workers && 0 <= k < |s.workers[w].todo| ==>
        s.clock <= s.db.jobs[s.workers[w].todo[k].job].lease.value
  {
    if run.Then? {
      var s, e := Reached(cfg, run.before), run.event;
      PromptWorkersExclude(cfg, bounds, run.before);
      PromptNeverSteals(cfg, bounds, s, e);
      HoldersStep(cfg, s, e);
      forall w | w in Reached(cfg, run).workers
        ensures OnSchedule(cfg, bounds, Reached(cfg, run), Reached(cfg, run).workers[w])
      {
        ScheduleStep(cfg, bounds, s, e, w);
      }
      LeasesAhead(cfg, bounds, Reached(cfg, run));
    }
  }

  lemma LeasesAhead(cfg: Settings, bounds: Bounds, s: State)
    requires Fits(cfg, bounds) && Holders(s) && Schedule(cfg, bounds, s)
    ensures forall w, k :: w in s.workers && 0 <= k < |s.workers[w].todo| ==>
      s.clock <= s.db.jobs[s.workers[w].todo[k].job].lease.value
  {
    forall w, k | w in s.workers && 0 <= k < |s.workers[w].todo|
      ensures s.clock <= s.db.jobs[s.workers[w].todo[k].job].lease.value
    {
      HeldNotClaimable(cfg, bounds, s, w, k, s.clock);
    }
  }
}
