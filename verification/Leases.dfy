/** Who holds a job. Outcome writes do not check the lease, so what follows depends on one thing: that no job is
  claimed while a live worker still holds it. One live worker guarantees that, and so do workers that are quick
  enough for their leases. */
module Leases {
  import opened Records
  import Outbox
  import opened Protocol
  import Safety

  predicate Holds(worker: Worker, j: JobId) {
    exists k :: 0 <= k < |worker.todo| && worker.todo[k].job == j
  }

  /** No claim takes a job that a live worker still holds, neither when it selects its rows nor when it commits. */
  predicate NoSteal(cfg: Settings, s: State, e: Event) {
    e.SelectJobs? || e.ClaimBatch? ==> forall w, k :: w in s.workers && 0 <= k < |e.ids| ==> !Holds(s.workers[w], e.ids[k])
  }

  // ---- how one event changes a worker ----

  predicate Keeps(prior: Worker, next: Worker) {
    next.todo == prior.todo && next.start == prior.start && next.since == prior.since
  }

  predicate Drops(prior: Worker, next: Worker, clock: Time) {
    prior.todo != [] && next == Worker(prior.todo[1..], Ready, prior.start, clock)
  }

  /** Unless it claims, a worker keeps its claims or drops the first; it drops the first when it records its outcome. */
  lemma TodoStep(cfg: Settings, s: State, e: Event, w: nat)
    requires Enabled(cfg, s, e) && w in Apply(cfg, s, e).workers && !(e.ClaimBatch? && e.w == w)
    ensures w in s.workers
    ensures var prior, next := s.workers[w], Apply(cfg, s, e).workers[w];
      || (Keeps(prior, next) && !(e.WriteOutcome? && e.w == w))
      || (Drops(prior, next, s.clock) && !e.Tick?)
  {
    var t := Apply(cfg, s, e);
  }

  // ---- attempts ----

  predicate TokensApart(a: Worker, b: Worker) {
    forall i, k :: 0 <= i < |a.todo| && 0 <= k < |b.todo| && a.todo[i].job == b.todo[k].job ==>
      a.todo[i].token != b.todo[k].token
  }

  predicate JobsDistinct(worker: Worker) {
    forall i, k :: 0 <= i < k < |worker.todo| ==> worker.todo[i].job != worker.todo[k].job
  }

  /** No attempt number of a job belongs to two claims. */
  predicate TokensUnique(s: State) {
    && (forall w :: w in s.workers ==> JobsDistinct(s.workers[w]))
    && (forall w, v :: w in s.workers && v in s.workers && w != v ==> TokensApart(s.workers[w], s.workers[v]))
  }

  lemma NewTokensApart(cfg: Settings, s: State, e: Event, v: nat)
    requires Enabled(cfg, s, e) && e.ClaimBatch? && Safety.Inv(s) && v in s.workers && v != e.w
    ensures var mine := Apply(cfg, s, e).workers[e.w];
      TokensApart(mine, s.workers[v]) && TokensApart(s.workers[v], mine)
  {
    assert forall k :: 0 <= k < |s.workers[v].todo| ==> Safety.ClaimKnown(s.db.jobs, s.workers[v].todo[k]);
  }

  lemma TokensStep(cfg: Settings, s: State, e: Event)
    requires Enabled(cfg, s, e) && Safety.Inv(s) && TokensUnique(s)
    ensures TokensUnique(Apply(cfg, s, e))
  {
    var t := Apply(cfg, s, e);
    forall w | w in t.workers ensures JobsDistinct(t.workers[w]) {
      if !(e.ClaimBatch? && e.w == w) {
        TodoStep(cfg, s, e, w);
        assert JobsDistinct(s.workers[w]);
      }
    }
    forall w, v | w in t.workers && v in t.workers && w != v ensures TokensApart(t.workers[w], t.workers[v]) {
      if e.ClaimBatch? && (e.w == w || e.w == v) {
        NewTokensApart(cfg, s, e, if e.w == w then v else w);
      } else {
        TodoStep(cfg, s, e, w);
        TodoStep(cfg, s, e, v);
        assert TokensApart(s.workers[w], s.workers[v]);
      }
    }
  }

  /** Every claim is an attempt of its own, in every run, even when leases expire under live workers. */
  lemma {:induction false} AttemptsNotShared(cfg: Settings, run: Trace)
    requires IsRun(cfg, run)
    ensures TokensUnique(Reached(cfg, run))
  {
    if run.Then? {
      AttemptsNotShared(cfg, run.before);
      Safety.InvHolds(cfg, run.before);
      TokensStep(cfg, Reached(cfg, run.before), run.event);
    }
  }

  // ---- current holders ----

  predicate Current(jobs: seq<Job>, claim: Claim) {
    && claim.job < |jobs|
    && jobs[claim.job].status.Processing?
    && jobs[claim.job].attempts == claim.token
    && jobs[claim.job].lease.Some?
  }

  predicate WorkerCurrent(jobs: seq<Job>, worker: Worker) {
    && (forall k :: 0 <= k < |worker.todo| ==> Current(jobs, worker.todo[k]))
    && (forall i, k :: 0 <= i < k < |worker.todo| ==> worker.todo[i].job != worker.todo[k].job)
    && (worker.phase.Recording? && worker.todo != [] ==> worker.phase.seen == jobs[worker.todo[0].job])
  }

  predicate Apart(a: Worker, b: Worker) {
    forall i, k :: 0 <= i < |a.todo| && 0 <= k < |b.todo| ==> a.todo[i].job != b.todo[k].job
  }

  /** Every claim in a worker's memory is the job's latest, and no job is held twice. */
  predicate Holders(s: State) {
    && (forall w :: w in s.workers ==> WorkerCurrent(s.db.jobs, s.workers[w]))
    && (forall w, v :: w in s.workers && v in s.workers && w != v ==> Apart(s.workers[w], s.workers[v]))
  }

  lemma ClaimApart(cfg: Settings, s: State, e: Event, v: nat)
    requires Enabled(cfg, s, e) && e.ClaimBatch? && NoSteal(cfg, s, e) && v in s.workers && v != e.w
    ensures var mine := Apply(cfg, s, e).workers[e.w];
      Apart(mine, s.workers[v]) && Apart(s.workers[v], mine)
  {
    var mine := Apply(cfg, s, e).workers[e.w];
    forall i, k | 0 <= i < |mine.todo| && 0 <= k < |s.workers[v].todo|
      ensures mine.todo[i].job != s.workers[v].todo[k].job
    {
      assert !Holds(s.workers[v], e.ids[i]);
    }
  }

  lemma ApartStep(cfg: Settings, s: State, e: Event)
    requires Enabled(cfg, s, e) && NoSteal(cfg, s, e) && Holders(s)
    ensures var t := Apply(cfg, s, e);
      forall w, v :: w in t.workers && v in t.workers && w != v ==> Apart(t.workers[w], t.workers[v])
  {
    var t := Apply(cfg, s, e);
    forall w, v | w in t.workers && v in t.workers && w != v ensures Apart(t.workers[w], t.workers[v]) {
      if e.ClaimBatch? && (e.w == w || e.w == v) {
        ClaimApart(cfg, s, e, if e.w == w then v else w);
      } else {
        TodoStep(cfg, s, e, w);
        TodoStep(cfg, s, e, v);
        assert Apart(s.workers[w], s.workers[v]);
      }
    }
  }

  /** The rows that one event rewrites: those it claims, or the one whose outcome it records. */
  predicate Touched(s: State, e: Event, j: JobId) {
    || (e.ClaimBatch? && j in e.ids)
    || (e.WriteOutcome? && s.At(e.w) && s.Next(e.w).job == j)
  }

  lemma UntouchedStep(cfg: Settings, s: State, e: Event, j: JobId)
    requires Enabled(cfg, s, e) && j < |s.db.jobs| && !Touched(s, e, j)
    ensures j < |Apply(cfg, s, e).db.jobs| && Apply(cfg, s, e).db.jobs[j] == s.db.jobs[j]
  {
    var t := Apply(cfg, s, e);
  }

  /** An event rewrites no held row, except that a worker records the outcome of its own first job. */
  lemma HeldUntouched(cfg: Settings, s: State, e: Event, w: nat, k: nat)
    requires Enabled(cfg, s, e) && NoSteal(cfg, s, e) && Holders(s)
    requires w in s.workers && k < |s.workers[w].todo|
    requires !(e.WriteOutcome? && e.w == w && k == 0)
    ensures var j := s.workers[w].todo[k].job;
      !Touched(s, e, j) && j < |Apply(cfg, s, e).db.jobs| && Apply(cfg, s, e).db.jobs[j] == s.db.jobs[j]
  {
    var j := s.workers[w].todo[k].job;
    assert Holds(s.workers[w], j);
    assert WorkerCurrent(s.db.jobs, s.workers[w]);
    if e.WriteOutcome? && e.w != w {
      assert Apart(s.workers[e.w], s.workers[w]);
    }
    UntouchedStep(cfg, s, e, j);
  }

  lemma FreshClaims(cfg: Settings, jobs: seq<Job>, ids: seq<JobId>, now: Time, clock: Time)
    requires Distinct(ids) && forall k :: 0 <= k < |ids| ==> ids[k] < |jobs|
    ensures WorkerCurrent(Outbox.ClaimRows(cfg, jobs, ids, now), Worker(Claims(jobs, ids), Ready, now, clock))
  {
  }

  /** And it remembers a row only as it has just read it. */
  lemma WorkerStep(cfg: Settings, s: State, e: Event, w: nat)
    requires Enabled(cfg, s, e) && w in Apply(cfg, s, e).workers && !(e.ClaimBatch? && e.w == w)
    ensures w in s.workers
    ensures var prior, next := s.workers[w], Apply(cfg, s, e).workers[w];
      || next == prior
      || (e == ReadJob(w) && s.At(w) && s.Next(w).job < |s.db.jobs|
          && next == prior.(phase := Recording(next.phase.ok, s.db.jobs[s.Next(w).job])))
      || (next == prior.(phase := next.phase) && !next.phase.Recording?)
      || ((e.WriteOutcome? || e.LoseOutcome?) && s.At(w) && next == Worker(prior.todo[1..], Ready, prior.start, s.clock))
  {
    var t := Apply(cfg, s, e);
  }

  lemma CurrentStep(cfg: Settings, s: State, e: Event, w: nat)
    requires Enabled(cfg, s, e) && NoSteal(cfg, s, e) && Holders(s)
    requires w in Apply(cfg, s, e).workers
    ensures WorkerCurrent(Apply(cfg, s, e).db.jobs, Apply(cfg, s, e).workers[w])
  {
    if e.ClaimBatch? && e.w == w {
      FreshClaims(cfg, s.db.jobs, e.ids, e.now, s.clock);
    } else {
      WorkerStep(cfg, s, e, w);
      TodoStep(cfg, s, e, w);
      assert WorkerCurrent(s.db.jobs, s.workers[w]);
      forall k | 0 <= k < |s.workers[w].todo| && !(e.WriteOutcome? && e.w == w && k == 0)
        ensures var j := s.workers[w].todo[k].job;
          j < |Apply(cfg, s, e).db.jobs| && Apply(cfg, s, e).db.jobs[j] == s.db.jobs[j]
      {
        HeldUntouched(cfg, s, e, w, k);
      }
      CurrentAgrees(s.db.jobs, Apply(cfg, s, e).db.jobs, s.workers[w], Apply(cfg, s, e).workers[w]);
    }
  }

  lemma CurrentAgrees(before: seq<Job>, after: seq<Job>, prior: Worker, next: Worker)
    requires WorkerCurrent(before, prior)
    requires next.todo == prior.todo || (prior.todo != [] && next.todo == prior.todo[1..] && next.phase.Ready?)
    requires next.todo == prior.todo && next.phase.Recording? && next.todo != [] ==>
      (next.phase == prior.phase || next.phase.seen == before[next.todo[0].job])
    requires forall k :: |prior.todo| - |next.todo| <= k < |prior.todo| ==>
      prior.todo[k].job < |after| && after[prior.todo[k].job] == before[prior.todo[k].job]
    ensures WorkerCurrent(after, next)
  {
    forall k | 0 <= k < |next.todo| ensures Current(after, next.todo[k]) {
      assert next.todo[k] == prior.todo[k + |prior.todo| - |next.todo|];
    }
  }

  lemma HoldersStep(cfg: Settings, s: State, e: Event)
    requires Enabled(cfg, s, e) && NoSteal(cfg, s, e) && Holders(s)
    ensures Holders(Apply(cfg, s, e))
  {
    ApartStep(cfg, s, e);
    forall w | w in Apply(cfg, s, e).workers
      ensures WorkerCurrent(Apply(cfg, s, e).db.jobs, Apply(cfg, s, e).workers[w])
    {
      CurrentStep(cfg, s, e, w);
    }
  }

  lemma {:induction false} HoldersKept(cfg: Settings, run: Trace)
    requires IsRun(cfg, run) && Throughout(cfg, INITIAL, run, NoSteal)
    ensures Holders(Reached(cfg, run))
  {
    if run.Then? {
      HoldersKept(cfg, run.before);
      HoldersStep(cfg, Reached(cfg, run.before), run.event);
    }
  }

  // ---- one live worker ----

  /** A worker claims only while no other worker is live with claimed jobs. */
  predicate OneLive(cfg: Settings, s: State, e: Event) {
    e.SelectJobs? || e.ClaimBatch? ==> forall w :: w in s.workers ==> s.workers[w].todo == []
  }

  lemma {:induction false} OneLiveWorkerNeverSteals(cfg: Settings, run: Trace)
    requires IsRun(cfg, run) && Throughout(cfg, INITIAL, run, OneLive)
    ensures Throughout(cfg, INITIAL, run, NoSteal)
  {
    if run.Then? {
      OneLiveWorkerNeverSteals(cfg, run.before);
    }
  }
}
