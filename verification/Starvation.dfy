/** No job waits for ever behind others: a bound on how often it is passed over, in every run of any number of workers
  whose claims overlap in any way, while jobs are queued. */
module Starvation {
  import opened Records
  import opened Protocol
  import Safety
  import opened Leases
  import RowLocks
  import Accounting
  import opened Weights

  /** The rows that open claims have locked. */
  function LockedJobs(s: State): set<JobId> {
    set j | 0 <= j < |s.db.jobs| && !RowFree(s, j)
  }

  /** What is asked of the run: no job is taken from a live worker, every claim commits and all its outcomes are
    recorded, every claim takes the oldest rows that no other has locked, and new jobs are created after T. */
  predicate Fair(cfg: Settings, T: Time, s: State, e: Event) {
    && NoSteal(cfg, s, e)
    && !e.LoseOutcome? && !e.ClaimFails? && (e.WorkerStops? ==> s.Idle(e.w) && e.w !in s.locks)
    && (e.SelectJobs? ==>
          OldestFirst(s.db.jobs, Eligible(s.db.jobs, e.now, LockedJobs(s)), cfg.batchSize, e.ids))
    && (e.Reap? || e.AdminDelete? || e.AbandonWrite? ==> T < e.now)
  }

  predicate AlwaysFair(cfg: Settings, T: Time, s: State, run: Trace)
    requires Valid(cfg, s, run)
  {
    run.Then? ==> AlwaysFair(cfg, T, s, run.before) && Fair(cfg, T, End(cfg, s, run.before), run.event)
  }

  /** The claim could have taken j and does not. */
  predicate PassesOver(s: State, e: Event, j: JobId) {
    e.SelectJobs? && j in Eligible(s.db.jobs, e.now, LockedJobs(s)) && j !in e.ids
  }

  function Skips(cfg: Settings, s: State, run: Trace, j: JobId): nat
    requires Valid(cfg, s, run)
  {
    if run.Start? then 0
    else Skips(cfg, s, run.before, j) + if PassesOver(End(cfg, s, run.before), run.event, j) then 1 else 0
  }

  // ---- claims under way ----

  predicate Held(s: State, j: JobId) {
    exists w :: w in s.workers && Holds(s.workers[w], j)
  }

  /** The jobs created no later than T that a claim has locked or a worker still has to do. */
  function Busy(s: State, T: Time): set<JobId> {
    set j | 0 <= j < |s.db.jobs| && s.db.jobs[j].createdAt <= T && (!RowFree(s, j) || Held(s, j))
  }

  /** A job under way stays so until its outcome is recorded. */
  lemma BusyStep(cfg: Settings, T: Time, s: State, e: Event, j: JobId)
    requires Enabled(cfg, s, e) && Fair(cfg, T, s, e) && j in Busy(s, T)
    ensures j in Busy(Apply(cfg, s, e), T) || (e.WriteOutcome? && s.Next(e.w).job == j)
  {
    var t := Apply(cfg, s, e);
    CreatedStep(cfg, s, e, j);
    if !RowFree(s, j) {
      var w :| w in s.locks && j in s.locks[w].ids;
      if e.ClaimBatch? && e.w == w {
        var k :| 0 <= k < |e.ids| && e.ids[k] == j;
        assert t.workers[w].todo[k].job == j;
        assert Holds(t.workers[w], j);
      } else {
        assert w in t.locks && t.locks[w] == s.locks[w];
      }
    } else {
      var w :| w in s.workers && Holds(s.workers[w], j);
      HeldStep(cfg, T, s, e, w, j);
    }
  }

  lemma HeldStep(cfg: Settings, T: Time, s: State, e: Event, w: nat, j: JobId)
    requires Enabled(cfg, s, e) && Fair(cfg, T, s, e) && w in s.workers && Holds(s.workers[w], j)
    ensures Held(Apply(cfg, s, e), j) || (e.WriteOutcome? && s.Next(e.w).job == j)
  {
    var t := Apply(cfg, s, e);
    var k :| 0 <= k < |s.workers[w].todo| && s.workers[w].todo[k].job == j;
    assert w in t.workers;
    TodoStep(cfg, s, e, w);
    if t.workers[w].todo == s.workers[w].todo {
      assert t.workers[w].todo[k].job == j;
    } else if k > 0 {
      assert t.workers[w].todo[k - 1].job == j;
    }
  }

  lemma CreatedStep(cfg: Settings, s: State, e: Event, j: JobId)
    requires Enabled(cfg, s, e) && j < |s.db.jobs|
    ensures j < |Apply(cfg, s, e).db.jobs| && Apply(cfg, s, e).db.jobs[j].createdAt == s.db.jobs[j].createdAt
  {
    if !Touched(s, e, j) {
      UntouchedStep(cfg, s, e, j);
    }
  }

  function AsSet(ids: seq<JobId>): set<JobId> {
    set k | 0 <= k < |ids| :: ids[k]
  }

  lemma {:induction false} AsSetSize(ids: seq<JobId>)
    requires Distinct(ids)
    ensures |AsSet(ids)| == |ids|
  {
    if ids != [] {
      AsSetSize(ids[1..]);
      assert AsSet(ids) == AsSet(ids[1..]) + {ids[0]};
    }
  }

  // ---- the weight that is not yet under way ----

  function Free(cfg: Settings, s: State, T: Time): int {
    Weight(cfg, s.db.jobs, Some(T)) - |Busy(s, T)|
  }

  lemma NewlyBusy(cfg: Settings, T: Time, s: State, e: Event, k: nat)
    requires Enabled(cfg, s, e) && e.SelectJobs? && NoSteal(cfg, s, e) && k < |e.ids|
    requires s.db.jobs[e.ids[k]].createdAt <= T
    ensures e.ids[k] in Busy(Apply(cfg, s, e), T) && e.ids[k] !in Busy(s, T)
  {
    assert e.ids[k] in Apply(cfg, s, e).locks[e.w].ids;
  }

  /** A claim that passes j over puts as much weight under way as the batch has places. */
  lemma SelectStep(cfg: Settings, T: Time, s: State, e: Event, j: JobId)
    requires Enabled(cfg, s, e) && e.SelectJobs? && Fair(cfg, T, s, e)
    requires j < |s.db.jobs| && s.db.jobs[j].createdAt == T
    ensures Free(cfg, Apply(cfg, s, e), T) + (if PassesOver(s, e, j) then cfg.batchSize else 0) <= Free(cfg, s, T)
  {
    var t := Apply(cfg, s, e);
    forall i | i in Busy(s, T) ensures i in Busy(t, T) {
      BusyStep(cfg, T, s, e, i);
    }
    if PassesOver(s, e, j) {
      LeftOutMeansFull(s.db.jobs, Eligible(s.db.jobs, e.now, LockedJobs(s)), cfg.batchSize, e.ids, j);
      forall k | 0 <= k < |e.ids| ensures e.ids[k] in Busy(t, T) && e.ids[k] !in Busy(s, T) {
        NewlyBusy(cfg, T, s, e, k);
      }
      AsSetSize(e.ids);
      SubsetSmaller(Busy(s, T) + AsSet(e.ids), Busy(t, T));
    } else {
      SubsetSmaller(Busy(s, T), Busy(t, T));
    }
  }

  /** A recorded outcome takes its job out of the way, and at least as much weight. */
  lemma RecordStep(cfg: Settings, T: Time, s: State, e: Event)
    requires Enabled(cfg, s, e) && e.WriteOutcome? && Fair(cfg, T, s, e) && Holders(s)
    ensures Free(cfg, Apply(cfg, s, e), T) <= Free(cfg, s, T)
  {
    var t, j := Apply(cfg, s, e), s.Next(e.w).job;
    Accounting.RowStep(cfg, s, e, j);
    Safety.JobsStep(cfg, s, e);
    WeightUpdate(cfg, s.db.jobs, j, t.db.jobs[j], Some(T));
    forall i | i in Busy(s, T) && i != j ensures i in Busy(t, T) {
      BusyStep(cfg, T, s, e, i);
    }
    if s.db.jobs[j].createdAt <= T {
      SubsetSmaller(Busy(s, T), Busy(t, T) + {j});
    } else {
      SubsetSmaller(Busy(s, T), Busy(t, T));
    }
  }

  /** No other event adds to the weight of the old jobs or loses one of them. */
  lemma OtherStep(cfg: Settings, T: Time, s: State, e: Event)
    requires Enabled(cfg, s, e) && !e.SelectJobs? && !e.WriteOutcome? && Fair(cfg, T, s, e)
    ensures Free(cfg, Apply(cfg, s, e), T) <= Free(cfg, s, T)
  {
    var t := Apply(cfg, s, e);
    forall i | i in Busy(s, T) ensures i in Busy(t, T) {
      BusyStep(cfg, T, s, e, i);
    }
    SubsetSmaller(Busy(s, T), Busy(t, T));
    if e.ClaimBatch? {
      ClaimWeight(cfg, s.db.jobs, e.ids, e.now, Some(T));
    } else {
      Safety.JobsStep(cfg, s, e);
      if t.db.jobs != s.db.jobs {
        var job := t.db.jobs[|s.db.jobs|];
        QueuedLater(cfg, T, s, e);
        assert t.db.jobs == s.db.jobs + [job];
        WeightAppend(cfg, s.db.jobs, job, Some(T));
      }
    }
  }

  lemma QueuedLater(cfg: Settings, T: Time, s: State, e: Event)
    requires Enabled(cfg, s, e) && Fair(cfg, T, s, e) && |Apply(cfg, s, e).db.jobs| > |s.db.jobs|
    ensures T < Apply(cfg, s, e).db.jobs[|s.db.jobs|].createdAt
  {
  }

  lemma FreeStep(cfg: Settings, T: Time, s: State, e: Event, j: JobId)
    requires Enabled(cfg, s, e) && Fair(cfg, T, s, e) && Holders(s)
    requires j < |s.db.jobs| && s.db.jobs[j].createdAt == T
    ensures Free(cfg, Apply(cfg, s, e), T) + (if PassesOver(s, e, j) then cfg.batchSize else 0) <= Free(cfg, s, T)
  {
    if e.SelectJobs? {
      SelectStep(cfg, T, s, e, j);
    } else if e.WriteOutcome? {
      RecordStep(cfg, T, s, e);
    } else {
      OtherStep(cfg, T, s, e);
    }
  }

  /** Jobs under way weigh something. */
  lemma {:induction false} BusyWeighs(cfg: Settings, jobs: seq<Job>, T: Time, ids: set<JobId>)
    requires forall j :: j in ids ==> j < |jobs| && !jobs[j].Terminal() && jobs[j].createdAt <= T
    ensures |ids| <= Weight(cfg, jobs, Some(T))
  {
    if jobs != [] {
      var n := |jobs| - 1;
      BusyWeighs(cfg, jobs[..n], T, ids - {n});
      SubsetSmaller(ids, (ids - {n}) + {n});
    }
  }

  lemma NothingOwed(cfg: Settings, s: State, T: Time)
    requires Holders(s) && RowLocks.LocksHold(cfg, s)
    ensures Free(cfg, s, T) >= 0
  {
    forall j | j in Busy(s, T) ensures !s.db.jobs[j].Terminal() {
      if !RowFree(s, j) {
        var w :| w in s.locks && j in s.locks[w].ids;
        assert MayClaim(cfg, s, w, s.locks[w].ids, s.locks[w].now);
      } else {
        var w :| w in s.workers && Holds(s.workers[w], j);
        assert WorkerCurrent(s.db.jobs, s.workers[w]);
      }
    }
    BusyWeighs(cfg, s.db.jobs, T, Busy(s, T));
  }

  lemma {:induction false} FairKept(cfg: Settings, T: Time, s: State, run: Trace, j: JobId)
    requires Valid(cfg, s, run) && AlwaysFair(cfg, T, s, run) && Holders(s) && RowLocks.LocksHold(cfg, s)
    requires j < |s.db.jobs| && s.db.jobs[j].createdAt == T
    ensures var t := End(cfg, s, run);
      Holders(t) && RowLocks.LocksHold(cfg, t) && j < |t.db.jobs| && t.db.jobs[j].createdAt == T
  {
    if run.Then? {
      FairKept(cfg, T, s, run.before, j);
      CreatedStep(cfg, End(cfg, s, run.before), run.event, j);
      HoldersStep(cfg, End(cfg, s, run.before), run.event);
      RowLocks.LocksHoldStep(cfg, End(cfg, s, run.before), run.event);
    }
  }

  lemma Times(n: nat, once: bool, b: nat)
    ensures (n + if once then 1 else 0) * b == n * b + if once then b else 0
  {
    assert (n + 1) * b == n * b + b;
  }

  lemma SkipsStep(cfg: Settings, s: State, run: Trace, j: JobId)
    requires Valid(cfg, s, run) && run.Then?
    ensures Skips(cfg, s, run, j) * cfg.batchSize == Skips(cfg, s, run.before, j) * cfg.batchSize
      + if PassesOver(End(cfg, s, run.before), run.event, j) then cfg.batchSize else 0
  {
    Times(Skips(cfg, s, run.before, j), PassesOver(End(cfg, s, run.before), run.event, j), cfg.batchSize);
  }

  lemma {:induction false} SkipsPaid(cfg: Settings, T: Time, s: State, run: Trace, j: JobId)
    requires Valid(cfg, s, run) && AlwaysFair(cfg, T, s, run) && Holders(s) && RowLocks.LocksHold(cfg, s)
    requires j < |s.db.jobs| && s.db.jobs[j].createdAt == T
    ensures Skips(cfg, s, run, j) * cfg.batchSize + Free(cfg, End(cfg, s, run), T) <= Free(cfg, s, T)
  {
    if run.Then? {
      SkipsPaid(cfg, T, s, run.before, j);
      FairKept(cfg, T, s, run.before, j);
      FreeStep(cfg, T, End(cfg, s, run.before), run.event, j);
      SkipsStep(cfg, s, run, j);
    }
  }

  /** However the run goes on, the claims that pass an eligible job over, times the batch size, never exceed the weight of
    the jobs created no later than it, less the jobs that are already under way. */
  lemma NoStarvation(cfg: Settings, run: Trace, more: Trace, j: JobId)
    requires IsRun(cfg, run) && Throughout(cfg, INITIAL, run, NoSteal) && j < |Reached(cfg, run).db.jobs|
    requires Valid(cfg, Reached(cfg, run), more)
    requires AlwaysFair(cfg, Reached(cfg, run).db.jobs[j].createdAt, Reached(cfg, run), more)
    ensures var s := Reached(cfg, run); var T := s.db.jobs[j].createdAt;
      Skips(cfg, s, more, j) * cfg.batchSize <= Weight(cfg, s.db.jobs, Some(T)) - |Busy(s, T)|
  {
    var s := Reached(cfg, run);
    HoldersKept(cfg, run);
    RowLocks.LocksHoldKept(cfg, run);
    SkipsPaid(cfg, s.db.jobs[j].createdAt, s, more, j);
    FairKept(cfg, s.db.jobs[j].createdAt, s, more, j);
    NothingOwed(cfg, End(cfg, s, more), s.db.jobs[j].createdAt);
  }
}
