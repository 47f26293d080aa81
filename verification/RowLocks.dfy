/** Claims that run at the same time. The claim query locks the rows it finds until its transaction commits, and leaves
  out the rows that other claims have locked. */
module RowLocks {
  import opened Records
  import Outbox
  import opened Protocol
  import Leases

  /** Every open claim can commit what it has selected, and no row is selected twice. */
  predicate LocksHold(cfg: Settings, s: State) {
    && (forall w :: w in s.locks ==> MayClaim(cfg, s, w, s.locks[w].ids, s.locks[w].now))
    && (forall w, v :: w in s.locks && v in s.locks && w != v ==> LocksApart(s.locks[w], s.locks[v]))
  }

  predicate LocksApart(a: Selection, b: Selection) {
    forall i, k :: 0 <= i < |a.ids| && 0 <= k < |b.ids| ==> a.ids[i] != b.ids[k]
  }

  lemma LockStep(cfg: Settings, s: State, e: Event, w: nat)
    requires Enabled(cfg, s, e) && w in Apply(cfg, s, e).locks
    ensures if e.SelectJobs? && e.w == w then Apply(cfg, s, e).locks[w] == Selection(e.ids, e.now)
            else w in s.locks && Apply(cfg, s, e).locks[w] == s.locks[w] && !(e.ClaimBatch? && e.w == w)
  {
    var t := Apply(cfg, s, e);
  }

  lemma ApartKept(cfg: Settings, s: State, e: Event)
    requires Enabled(cfg, s, e) && LocksHold(cfg, s)
    ensures var t := Apply(cfg, s, e);
      forall w, v :: w in t.locks && v in t.locks && w != v ==> LocksApart(t.locks[w], t.locks[v])
  {
    var t := Apply(cfg, s, e);
    forall w, v | w in t.locks && v in t.locks && w != v ensures LocksApart(t.locks[w], t.locks[v]) {
      LockStep(cfg, s, e, w);
      LockStep(cfg, s, e, v);
      assert e.SelectJobs? ==> forall k :: 0 <= k < |e.ids| ==> RowFree(s, e.ids[k]);
    }
  }

  /** No event rewrites a row that a claim has locked, but the commit of that claim. */
  lemma LockedUntouched(cfg: Settings, s: State, e: Event, w: nat, k: nat)
    requires Enabled(cfg, s, e) && LocksHold(cfg, s) && w in s.locks && k < |s.locks[w].ids|
    requires !(e.ClaimBatch? && e.w == w)
    ensures var j := s.locks[w].ids[k];
      j < |s.db.jobs| && j < |Apply(cfg, s, e).db.jobs| && Apply(cfg, s, e).db.jobs[j] == s.db.jobs[j]
  {
    var j := s.locks[w].ids[k];
    assert j in s.locks[w].ids;
    if e.ClaimBatch? {
      assert LocksApart(s.locks[w], s.locks[e.w]);
    }
    Leases.UntouchedStep(cfg, s, e, j);
  }

  /** A worker with an open claim stays without claimed jobs. */
  lemma IdleKept(cfg: Settings, s: State, e: Event, w: nat)
    requires Enabled(cfg, s, e) && w in s.locks && s.Idle(w) && !(e.ClaimBatch? && e.w == w)
    ensures Apply(cfg, s, e).Idle(w)
  {
    if w in Apply(cfg, s, e).workers {
      Leases.TodoStep(cfg, s, e, w);
    }
  }

  lemma LocksHoldStep(cfg: Settings, s: State, e: Event)
    requires Enabled(cfg, s, e) && LocksHold(cfg, s)
    ensures LocksHold(cfg, Apply(cfg, s, e))
  {
    var t := Apply(cfg, s, e);
    ApartKept(cfg, s, e);
    forall w | w in t.locks ensures MayClaim(cfg, t, w, t.locks[w].ids, t.locks[w].now) {
      LockStep(cfg, s, e, w);
      if w in s.locks {
        assert MayClaim(cfg, s, w, s.locks[w].ids, s.locks[w].now);
        IdleKept(cfg, s, e, w);
        forall k | 0 <= k < |s.locks[w].ids|
          ensures var j := s.locks[w].ids[k]; j < |t.db.jobs| && t.db.jobs[j] == s.db.jobs[j]
        {
          LockedUntouched(cfg, s, e, w, k);
        }
      }
    }
  }

  lemma {:induction false} LocksHoldKept(cfg: Settings, run: Trace)
    requires IsRun(cfg, run)
    ensures LocksHold(cfg, Reached(cfg, run))
  {
    if run.Then? {
      LocksHoldKept(cfg, run.before);
      LocksHoldStep(cfg, Reached(cfg, run.before), run.event);
    }
  }

  /** Claims that are open at the same time share no job and avoid every lease that has not run out when they begin; and
    each of them can commit all it has selected, whatever happened since. */
  lemma ClaimsDisjoint(cfg: Settings, run: Trace, w: nat)
    requires IsRun(cfg, run) && w in Reached(cfg, run).locks
    ensures var s := Reached(cfg, run); var mine := s.locks[w];
      && (forall v, i, k :: v in s.locks && v != w && 0 <= i < |mine.ids| && 0 <= k < |s.locks[v].ids| ==>
            mine.ids[i] != s.locks[v].ids[k])
      && (forall k :: 0 <= k < |mine.ids| ==>
            mine.ids[k] < |s.db.jobs|
            && var job := s.db.jobs[mine.ids[k]]; job.status.Processing? ==> job.lease.Some? && job.lease.value < mine.now)
      && Enabled(cfg, s, ClaimBatch(w, mine.ids, mine.now))
  {
    LocksHoldKept(cfg, run);
    var s := Reached(cfg, run);
    assert MayClaim(cfg, s, w, s.locks[w].ids, s.locks[w].now);
    forall v | v in s.locks && v != w ensures LocksApart(s.locks[w], s.locks[v]) {
    }
  }

  /** However a claim ends, by its commit, an error or a crash, its rows are free for other claims. */
  lemma ClaimEnds(cfg: Settings, run: Trace, w: nat, e: Event)
    requires IsRun(cfg, run) && w in Reached(cfg, run).locks
    requires var mine := Reached(cfg, run).locks[w];
      e == ClaimFails(w) || e == WorkerStops(w) || e == ClaimBatch(w, mine.ids, mine.now)
    ensures Enabled(cfg, Reached(cfg, run), e)
    ensures var mine := Reached(cfg, run).locks[w];
      forall k :: 0 <= k < |mine.ids| ==> RowFree(Apply(cfg, Reached(cfg, run), e), mine.ids[k])
  {
    ClaimsDisjoint(cfg, run, w);
    var s := Reached(cfg, run);
    var t := Apply(cfg, s, e);
    forall k, v | 0 <= k < |s.locks[w].ids| && v in t.locks ensures s.locks[w].ids[k] !in t.locks[v].ids {
      LockStep(cfg, s, e, v);
    }
  }

  // ---- one claim after another ----

  /** No event of the run rewrites the job row. */
  predicate LeftAlone(cfg: Settings, s: State, run: Trace, j: JobId)
    requires Valid(cfg, s, run)
  {
    run.Then? ==> LeftAlone(cfg, s, run.before, j) && !Leases.Touched(End(cfg, s, run.before), run.event, j)
  }

  lemma {:induction false} LeftAloneSame(cfg: Settings, s: State, run: Trace, j: JobId)
    requires Valid(cfg, s, run) && j < |s.db.jobs| && LeftAlone(cfg, s, run, j)
    ensures var t := End(cfg, s, run); j < |t.db.jobs| && t.db.jobs[j] == s.db.jobs[j]
  {
    if run.Then? {
      LeftAloneSame(cfg, s, run.before, j);
      Leases.UntouchedStep(cfg, End(cfg, s, run.before), run.event, j);
    }
  }

  /** Until an outcome is recorded for a claimed job, or its lease has run out, no claim that begins can select it. */
  lemma LeaseRespected(cfg: Settings, run: Trace, w: nat, ids: seq<JobId>, now: Time, more: Trace, j: JobId,
                       v: nat, others: seq<JobId>, later: Time)
    requires IsRun(cfg, run) && Enabled(cfg, Reached(cfg, run), ClaimBatch(w, ids, now)) && j in ids
    requires Valid(cfg, Apply(cfg, Reached(cfg, run), ClaimBatch(w, ids, now)), more)
    requires LeftAlone(cfg, Apply(cfg, Reached(cfg, run), ClaimBatch(w, ids, now)), more, j)
    requires Enabled(cfg, End(cfg, Apply(cfg, Reached(cfg, run), ClaimBatch(w, ids, now)), more), SelectJobs(v, others, later))
    ensures j in others ==> later > now + 1_000_000 * cfg.leaseWindow
  {
    var s := Apply(cfg, Reached(cfg, run), ClaimBatch(w, ids, now));
    LeftAloneSame(cfg, s, more, j);
    if j in others {
      var k :| 0 <= k < |others| && others[k] == j;
      assert Outbox.Claimable(End(cfg, s, more).db.jobs[others[k]], later);
    }
  }

  /** A pending job that nothing rewrites is not selected before it is due. */
  lemma PendingWaits(cfg: Settings, s: State, more: Trace, j: JobId, v: nat, others: seq<JobId>, later: Time)
    requires j < |s.db.jobs| && s.db.jobs[j].status.Pending?
    requires Valid(cfg, s, more) && LeftAlone(cfg, s, more, j)
    requires Enabled(cfg, End(cfg, s, more), SelectJobs(v, others, later))
    ensures j in others ==> later > s.db.jobs[j].availableAt
  {
    LeftAloneSame(cfg, s, more, j);
    if j in others {
      var k :| 0 <= k < |others| && others[k] == j;
      assert Outbox.Claimable(End(cfg, s, more).db.jobs[others[k]], later);
    }
  }

  /** After a recorded failure the job is not selected again before its delay has passed, and never if it was given up. */
  lemma RetryWaits(cfg: Settings, s: State, w: nat, now: Time, delay: nat, more: Trace, v: nat, others: seq<JobId>, later: Time)
    requires Enabled(cfg, s, WriteOutcome(w, now, delay)) && !s.workers[w].phase.ok
    requires s.workers[w].phase.seen == s.db.jobs[s.Next(w).job] && s.workers[w].phase.seen.status.Processing?
    requires Valid(cfg, Apply(cfg, s, WriteOutcome(w, now, delay)), more)
    requires LeftAlone(cfg, Apply(cfg, s, WriteOutcome(w, now, delay)), more, s.Next(w).job)
    requires Enabled(cfg, End(cfg, Apply(cfg, s, WriteOutcome(w, now, delay)), more), SelectJobs(v, others, later))
    ensures s.Next(w).job in others ==> later > now + delay && s.workers[w].phase.seen.attempts < cfg.maxAttempts
  {
    var t, j := Apply(cfg, s, WriteOutcome(w, now, delay)), s.Next(w).job;
    LeftAloneSame(cfg, t, more, j);
    if j in others {
      var k :| 0 <= k < |others| && others[k] == j;
      assert Outbox.Claimable(End(cfg, t, more).db.jobs[others[k]], later);
    }
  }
}
