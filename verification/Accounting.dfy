/** What the attempt counter of a job means, and what follows for retries, final states and total backoff. All of it
  holds for runs in which no claim takes a job from a live worker. */
module Accounting {
  import opened Records
  import Backoff
  import Outbox
  import opened Protocol
  import Safety
  import opened Leases

  // ---- what happened to a job in a run ----

  predicate RecordsOutcome(s: State, e: Event, j: JobId, ok: bool) {
    e.WriteOutcome? && s.At(e.w) && s.Next(e.w).job == j && s.workers[e.w].phase.Recording? && s.workers[e.w].phase.ok == ok
  }

  /** Recorded outcomes of the job, successes or failures. */
  function Outcomes(cfg: Settings, run: Trace, j: JobId, ok: bool): nat
    requires IsRun(cfg, run)
  {
    if run.Start? then 0
    else Outcomes(cfg, run.before, j, ok) + if RecordsOutcome(Reached(cfg, run.before), run.event, j, ok) then 1 else 0
  }

  /** Those recorded by worker w. */
  function OutcomesBy(cfg: Settings, run: Trace, w: nat, j: JobId, ok: bool): nat
    requires IsRun(cfg, run)
  {
    if run.Start? then 0
    else
      OutcomesBy(cfg, run.before, w, j, ok)
      + if RecordsOutcome(Reached(cfg, run.before), run.event, j, ok) && run.event.w == w then 1 else 0
  }

  lemma {:induction false} OutcomesGrow(cfg: Settings, a: Trace, b: Trace, w: nat, j: JobId, ok: bool)
    requires IsRun(cfg, a) && IsRun(cfg, b) && Continues(a, b)
    ensures OutcomesBy(cfg, a, w, j, ok) <= OutcomesBy(cfg, b, w, j, ok)
  {
    if a != b {
      OutcomesGrow(cfg, a, b.before, w, j, ok);
    }
  }

  /** Between the two runs worker w recorded an outcome of the job: a success, if all deletes succeed. */
  predicate Told(cfg: Settings, a: Trace, b: Trace, w: nat, j: JobId, allDeleted: bool)
    requires IsRun(cfg, a) && IsRun(cfg, b)
  {
    || OutcomesBy(cfg, a, w, j, true) < OutcomesBy(cfg, b, w, j, true)
    || (!allDeleted && OutcomesBy(cfg, a, w, j, false) < OutcomesBy(cfg, b, w, j, false))
  }

  lemma ToldMeanwhile(cfg: Settings, a: Trace, b: Trace, c: Trace, d: Trace, w: nat, j: JobId, allDeleted: bool)
    requires IsRun(cfg, a) && IsRun(cfg, b) && IsRun(cfg, c) && IsRun(cfg, d)
    requires Continues(a, b) && Continues(c, d) && Told(cfg, b, c, w, j, allDeleted)
    ensures Told(cfg, a, d, w, j, allDeleted)
  {
    OutcomesGrow(cfg, a, b, w, j, true);
    OutcomesGrow(cfg, a, b, w, j, false);
    OutcomesGrow(cfg, c, d, w, j, true);
    OutcomesGrow(cfg, c, d, w, j, false);
  }

  predicate Reclaims(s: State, e: Event, j: JobId) {
    e.ClaimBatch? && j in e.ids && j < |s.db.jobs| && s.db.jobs[j].status.Processing?
  }

  /** Claims of the job that were lost: its lease ran out and it was claimed again. */
  function LostClaims(cfg: Settings, run: Trace, j: JobId): nat
    requires IsRun(cfg, run)
  {
    if run.Start? then 0
    else LostClaims(cfg, run.before, j) + if Reclaims(Reached(cfg, run.before), run.event, j) then 1 else 0
  }

  /** A failure is recorded after which the job is to be retried. */
  predicate Retries(cfg: Settings, s: State, e: Event, j: JobId) {
    RecordsOutcome(s, e, j, false) && Outbox.FailureStatus(cfg, s.workers[e.w].phase.seen).Pending?
  }

  /** The delays, in microseconds, after which the job was to be retried. */
  function TotalBackoff(cfg: Settings, run: Trace, j: JobId): nat
    requires IsRun(cfg, run)
  {
    if run.Start? then 0
    else
      var s, e := Reached(cfg, run.before), run.event;
      TotalBackoff(cfg, run.before, j)
      + if Retries(cfg, s, e, j) then e.delay else 0
  }

  // ---- how one event changes a job row ----

  /** The life of a row when outcomes are recorded by current holders. */
  lemma RowStep(cfg: Settings, s: State, e: Event, j: JobId)
    requires Enabled(cfg, s, e) && NoSteal(cfg, s, e) && Holders(s)
    requires j < |s.db.jobs|
    ensures j < |Apply(cfg, s, e).db.jobs|
    ensures var row, next := s.db.jobs[j], Apply(cfg, s, e).db.jobs[j];
      if e.ClaimBatch? && j in e.ids then
        next == Outbox.ClaimRow(cfg, row, e.now) && Outbox.Claimable(row, e.now)
      else if e.WriteOutcome? && s.Next(e.w).job == j then
        var ok := s.workers[e.w].phase.ok;
        && row.status.Processing? && s.workers[e.w].phase.seen == row
        && next.status == Outbox.NewStatus(cfg, row, ok) && next.lease.None? && next.attempts == row.attempts
      else next == row
  {
    if e.WriteOutcome? && s.Next(e.w).job == j {
      assert WorkerCurrent(s.db.jobs, s.workers[e.w]);
    } else if !(e.ClaimBatch? && j in e.ids) {
      UntouchedStep(cfg, s, e, j);
    }
  }

  lemma NewRowStep(cfg: Settings, s: State, e: Event, j: JobId)
    requires Enabled(cfg, s, e) && |s.db.jobs| <= j < |Apply(cfg, s, e).db.jobs|
    ensures var job := Apply(cfg, s, e).db.jobs[j];
      job.status.Pending? && job.attempts == 0 && job.lease.None?
    ensures !Touched(s, e, j)
  {
    var t := Apply(cfg, s, e);
  }

  // ---- the accounts ----

  function One(b: bool): nat { if b then 1 else 0 }

  predicate Balanced(cfg: Settings, job: Job, failures: nat, successes: nat, lost: nat) {
    && job.attempts == failures + successes + lost + One(job.status.Processing?)
    && successes == One(job.status.Completed?)
    && (job.status.Pending? ==> job.attempts == 0 || job.attempts < cfg.maxAttempts)
    && (job.status.Failed? ==> job.attempts >= cfg.maxAttempts && 0 < failures <= Max(cfg.maxAttempts, 1))
    && (!job.status.Failed? ==> failures == 0 || failures < cfg.maxAttempts)
  }

  lemma BalancedStep(cfg: Settings, s: State, e: Event, j: JobId, failures: nat, successes: nat, lost: nat)
    requires Enabled(cfg, s, e) && NoSteal(cfg, s, e) && Holders(s) && j < |s.db.jobs|
    requires Balanced(cfg, s.db.jobs[j], failures, successes, lost)
    ensures j < |Apply(cfg, s, e).db.jobs|
    ensures Balanced(cfg, Apply(cfg, s, e).db.jobs[j],
                     failures + One(RecordsOutcome(s, e, j, false)), successes + One(RecordsOutcome(s, e, j, true)),
                     lost + One(Reclaims(s, e, j)))
  {
    RowStep(cfg, s, e, j);
  }

  lemma {:induction false} NothingYet(cfg: Settings, run: Trace, j: JobId)
    requires IsRun(cfg, run) && |Reached(cfg, run).db.jobs| <= j
    ensures Outcomes(cfg, run, j, true) == Outcomes(cfg, run, j, false) == LostClaims(cfg, run, j) == 0
    ensures TotalBackoff(cfg, run, j) == 0
  {
    if run.Then? {
      Safety.JobsGrowStep(cfg, Reached(cfg, run.before), run.event);
      NothingYet(cfg, run.before, j);
    }
  }

  /** Every attempt is accounted for: it failed, it succeeded, its lease was lost, or it is under way. Failures are
    bounded, and the states between attempts agree with the counter. */
  lemma {:induction false} AttemptsBalance(cfg: Settings, run: Trace, j: JobId)
    requires IsRun(cfg, run) && Throughout(cfg, INITIAL, run, NoSteal) && j < |Reached(cfg, run).db.jobs|
    ensures Balanced(cfg, Reached(cfg, run).db.jobs[j], Outcomes(cfg, run, j, false), Outcomes(cfg, run, j, true),
                     LostClaims(cfg, run, j))
  {
    var s, e := Reached(cfg, run.before), run.event;
    if j < |s.db.jobs| {
      AttemptsBalance(cfg, run.before, j);
      HoldersKept(cfg, run.before);
      BalancedStep(cfg, s, e, j, Outcomes(cfg, run.before, j, false), Outcomes(cfg, run.before, j, true),
                   LostClaims(cfg, run.before, j));
    } else {
      NothingYet(cfg, run.before, j);
      NewRowStep(cfg, s, e, j);
    }
  }

  /** If no job is claimed from a live worker, completed and failed rows never change again. */
  lemma {:induction false} TerminalIsFinal(cfg: Settings, run: Trace, more: Trace, j: JobId)
    requires IsRun(cfg, run) && Throughout(cfg, INITIAL, run, NoSteal)
    requires Valid(cfg, Reached(cfg, run), more) && Throughout(cfg, Reached(cfg, run), more, NoSteal)
    requires j < |Reached(cfg, run).db.jobs| && Reached(cfg, run).db.jobs[j].Terminal()
    ensures Holders(End(cfg, Reached(cfg, run), more))
    ensures var t := End(cfg, Reached(cfg, run), more);
      j < |t.db.jobs| && t.db.jobs[j] == Reached(cfg, run).db.jobs[j]
  {
    if more.Then? {
      TerminalIsFinal(cfg, run, more.before, j);
      var t := End(cfg, Reached(cfg, run), more.before);
      RowStep(cfg, t, more.event, j);
      HoldersStep(cfg, t, more.event);
    } else {
      HoldersKept(cfg, run);
    }
  }

  // ---- in all runs: when a finished job comes back ----

  /** An outcome that differs from the status its worker has read, written over another outcome. */
  predicate Reviving(cfg: Settings, s: State, e: Event) {
    e.WriteOutcome? && s.At(e.w) && s.workers[e.w].phase.Recording? && s.Next(e.w).job < |s.db.jobs|
    && var seen, row := s.workers[e.w].phase.seen, s.db.jobs[s.Next(e.w).job];
       var status := Outbox.NewStatus(cfg, seen, s.workers[e.w].phase.ok);
       row.Terminal() && status != seen.status && status != row.status
  }

  predicate NotReviving(cfg: Settings, s: State, e: Event) {
    !Reviving(cfg, s, e)
  }

  predicate KeepsFinal(before: seq<Job>, after: seq<Job>) {
    |before| <= |after| && forall j :: 0 <= j < |before| && before[j].Terminal() ==> after[j].status == before[j].status
  }

  predicate AlwaysFinal(cfg: Settings, run: Trace)
    requires IsRun(cfg, run)
  {
    run.Then? ==> AlwaysFinal(cfg, run.before) && KeepsFinal(Reached(cfg, run.before).db.jobs, Reached(cfg, run).db.jobs)
  }

  lemma FinalStep(cfg: Settings, s: State, e: Event)
    requires Enabled(cfg, s, e)
    ensures KeepsFinal(s.db.jobs, Apply(cfg, s, e).db.jobs) <==> NotReviving(cfg, s, e)
  {
    Safety.JobsGrowStep(cfg, s, e);
    Safety.JobsStep(cfg, s, e);
    var jobs, after := s.db.jobs, Apply(cfg, s, e).db.jobs;
    forall j | 0 <= j < |jobs| && !Touched(s, e, j) ensures after[j] == jobs[j] {
      UntouchedStep(cfg, s, e, j);
    }
    if Reviving(cfg, s, e) {
      assert after[s.Next(e.w).job].status != jobs[s.Next(e.w).job].status;
    }
  }

  /** In a run every finished job keeps its status, if and only if no write is reviving. */
  lemma {:induction false} FinalIffNotReviving(cfg: Settings, run: Trace)
    requires IsRun(cfg, run)
    ensures AlwaysFinal(cfg, run) <==> Throughout(cfg, INITIAL, run, NotReviving)
  {
    if run.Then? {
      FinalIffNotReviving(cfg, run.before);
      FinalStep(cfg, Reached(cfg, run.before), run.event);
    }
  }

  // ---- total backoff ----

  /** The failures of a job that were to be retried happened at different attempt numbers below the maximum. */
  function Retried(cfg: Settings, job: Job): nat {
    var done := if job.status.Processing? then job.attempts - 1 else job.attempts;
    Max(0, Min(done, cfg.maxAttempts - 1))
  }

  lemma BackoffStep(cfg: Settings, s: State, e: Event, j: JobId, total: nat)
    requires Enabled(cfg, s, e) && NoSteal(cfg, s, e) && Holders(s) && j < |s.db.jobs|
    requires s.db.jobs[j].status.Processing? ==> s.db.jobs[j].attempts > 0
    requires total <= Millis(Backoff.CeilingSum(cfg, Retried(cfg, s.db.jobs[j])))
    ensures j < |Apply(cfg, s, e).db.jobs|
    ensures total + (if Retries(cfg, s, e, j) then e.delay else 0)
      <= Millis(Backoff.CeilingSum(cfg, Retried(cfg, Apply(cfg, s, e).db.jobs[j])))
  {
    RowStep(cfg, s, e, j);
    var row, next := s.db.jobs[j], Apply(cfg, s, e).db.jobs[j];
    Backoff.CeilingSumMonotone(cfg, Retried(cfg, row), Retried(cfg, next));
    if RecordsOutcome(s, e, j, false) && row.attempts < cfg.maxAttempts {
      assert Retried(cfg, row) == row.attempts - 1 && Retried(cfg, next) == row.attempts;
    }
  }

  lemma {:induction false} BackoffKept(cfg: Settings, run: Trace, j: JobId)
    requires IsRun(cfg, run) && Throughout(cfg, INITIAL, run, NoSteal) && j < |Reached(cfg, run).db.jobs|
    ensures TotalBackoff(cfg, run, j) <= Millis(Backoff.CeilingSum(cfg, Retried(cfg, Reached(cfg, run).db.jobs[j])))
  {
    var s, e := Reached(cfg, run.before), run.event;
    if j < |s.db.jobs| {
      BackoffKept(cfg, run.before, j);
      AttemptsBalance(cfg, run.before, j);
      HoldersKept(cfg, run.before);
      BackoffStep(cfg, s, e, j, TotalBackoff(cfg, run.before, j));
    } else {
      NothingYet(cfg, run.before, j);
      NewRowStep(cfg, s, e, j);
    }
  }

  /** All the backoff a job can collect in its life, however many of its workers stop or lose their outcomes. */
  lemma LifetimeBackoff(cfg: Settings, run: Trace, j: JobId)
    requires IsRun(cfg, run) && Throughout(cfg, INITIAL, run, NoSteal) && j < |Reached(cfg, run).db.jobs|
    requires cfg.maxAttempts > 0
    ensures TotalBackoff(cfg, run, j) <= 1000 * ((cfg.maxAttempts - 1) * cfg.maxDelay)
    ensures TotalBackoff(cfg, run, j) <= 1000 * (cfg.minDelay * (Backoff.Pow2(cfg.maxAttempts) - 2))
  {
    BackoffKept(cfg, run, j);
    BackoffBounded(cfg, TotalBackoff(cfg, run, j), Retried(cfg, Reached(cfg, run).db.jobs[j]));
  }

  lemma BackoffBounded(cfg: Settings, total: nat, retried: nat)
    requires total <= Millis(Backoff.CeilingSum(cfg, retried)) && retried < cfg.maxAttempts
    ensures total <= 1000 * ((cfg.maxAttempts - 1) * cfg.maxDelay)
    ensures total <= 1000 * (cfg.minDelay * (Backoff.Pow2(cfg.maxAttempts) - 2))
  {
    var n := cfg.maxAttempts - 1;
    Backoff.CeilingSumMonotone(cfg, retried, n);
    Backoff.CeilingSumBounds(cfg, n);
    assert n + 1 == cfg.maxAttempts;
  }
}
