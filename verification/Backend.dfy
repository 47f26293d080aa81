/** What all processes share: the tables, the bucket and the clock, and what others may do to them in the meantime. */
module Backend {
  import opened Records
  import opened Protocol
  import Safety
  import Orphans
  import Stranding

  /** What one worker does when no other process acts: no put lands, and no write takes a lease off. */
  predicate Calm(cfg: Settings, s: State, e: Event) {
    !e.PutLands? && Stranding.NotStripping(cfg, s, e)
  }

  /** The second run continues the first, by calm events only. */
  predicate Grown(cfg: Settings, a: Trace, b: Trace)
    requires IsRun(cfg, b)
  {
    a == b || (b.Then? && Grown(cfg, a, b.before) && Calm(cfg, Reached(cfg, b.before), b.event))
  }

  /** Calm events strand no job and leave no orphan. */
  lemma {:induction false} GrownKeeps(cfg: Settings, a: Trace, b: Trace)
    requires IsRun(cfg, a) && IsRun(cfg, b) && Grown(cfg, a, b)
    ensures Stranding.AllLeased(Reached(cfg, a).db.jobs) ==> Stranding.AllLeased(Reached(cfg, b).db.jobs)
    ensures Orphans.OrphanFree(Reached(cfg, a)) ==> Orphans.OrphanFree(Reached(cfg, b))
  {
    if a != b {
      GrownKeeps(cfg, a, b.before);
      Safety.InvHolds(cfg, b.before);
      if Stranding.AllLeased(Reached(cfg, a).db.jobs) {
        Stranding.LeasedStep(cfg, Reached(cfg, b.before), b.event);
      }
      if Orphans.OrphanFree(Reached(cfg, a)) {
        Orphans.OrphanFreeStep(cfg, Reached(cfg, b.before), b.event);
      }
    }
  }

  lemma {:induction false} GrownTrans(cfg: Settings, a: Trace, b: Trace, c: Trace)
    requires IsRun(cfg, b) && IsRun(cfg, c) && Grown(cfg, a, b) && Grown(cfg, b, c)
    ensures Grown(cfg, a, c)
  {
    if b != c {
      GrownTrans(cfg, a, b, c.before);
    }
  }

  /** How one run follows from another: by any events, or, when no other process acts, by calm ones. */
  predicate Follows(cfg: Settings, alone: bool, a: Trace, b: Trace)
    requires IsRun(cfg, b)
  {
    Continues(a, b) && (alone ==> Grown(cfg, a, b))
  }

  lemma FollowsTrans(cfg: Settings, alone: bool, a: Trace, b: Trace, c: Trace)
    requires IsRun(cfg, b) && IsRun(cfg, c) && Follows(cfg, alone, a, b) && Follows(cfg, alone, b, c)
    ensures Follows(cfg, alone, a, c)
  {
    ContinuesTrans(a, b, c);
    if alone {
      GrownTrans(cfg, a, b, c);
    }
  }

  /** The run goes on by one event. */
  lemma Grow(cfg: Settings, alone: bool, from: Trace, run: Trace, e: Event) returns (next: Trace)
    requires IsRun(cfg, run) && Follows(cfg, alone, from, run) && Enabled(cfg, Reached(cfg, run), e)
    requires alone ==> Calm(cfg, Reached(cfg, run), e)
    ensures next == Then(run, e) && IsRun(cfg, next) && Follows(cfg, alone, from, next)
    ensures Reached(cfg, next) == Apply(cfg, Reached(cfg, run), e) && Continues(run, next)
  {
    next := Then(run, e);
  }

  /** Requests that were sent and keys that were stored are never forgotten, and the clock does not go back. */
  lemma {:induction false} OnlyGrows(cfg: Settings, a: Trace, b: Trace)
    requires IsRun(cfg, a) && IsRun(cfg, b) && Continues(a, b)
    ensures Reached(cfg, a).landed <= Reached(cfg, b).landed && Reached(cfg, a).deletes <= Reached(cfg, b).deletes
    ensures Reached(cfg, a).clock <= Reached(cfg, b).clock
  {
    if a != b {
      OnlyGrows(cfg, a, b.before);
      OnlyGrowsStep(cfg, Reached(cfg, b.before), b.event);
    }
  }

  lemma OnlyGrowsStep(cfg: Settings, s: State, e: Event)
    requires Enabled(cfg, s, e)
    ensures s.landed <= Apply(cfg, s, e).landed && s.deletes <= Apply(cfg, s, e).deletes && s.clock <= Apply(cfg, s, e).clock
  {
    var t := Apply(cfg, s, e);
  }

  // ---- a delete, step by step ----

  lemma SentRun(cfg: Settings, alone: bool, run: Trace, w: nat) returns (next: Trace)
    requires IsRun(cfg, run) && Reached(cfg, run).At(w) && Reached(cfg, run).workers[w].phase.Ready?
    ensures IsRun(cfg, next) && Follows(cfg, alone, run, next)
    ensures var s := Reached(cfg, run);
      Reached(cfg, next) == s.SetPhase(w, Deleting(false)).(deletes := s.deletes + {s.Next(w).key})
  {
    next := Grow(cfg, alone, run, run, SendDelete(w));
  }

  lemma TakenRun(cfg: Settings, alone: bool, from: Trace, run: Trace, w: nat) returns (next: Trace)
    requires IsRun(cfg, run) && Follows(cfg, alone, from, run)
    requires Reached(cfg, run).At(w) && Reached(cfg, run).workers[w].phase == Deleting(false)
    ensures IsRun(cfg, next) && Follows(cfg, alone, from, next)
    ensures var s := Reached(cfg, run);
      Reached(cfg, next) == s.SetPhase(w, Deleting(true)).(store := s.store - {s.Next(w).key})
  {
    next := Grow(cfg, alone, from, run, DeleteTakes(w));
  }

  lemma AnsweredRun(cfg: Settings, alone: bool, from: Trace, run: Trace, w: nat, gone: bool, ok: bool) returns (next: Trace)
    requires IsRun(cfg, run) && Follows(cfg, alone, from, run) && (ok ==> gone)
    requires Reached(cfg, run).At(w) && Reached(cfg, run).workers[w].phase == Deleting(gone)
    ensures IsRun(cfg, next) && Follows(cfg, alone, from, next) && Continues(run, next)
    ensures Reached(cfg, next) == Reached(cfg, run).SetPhase(w, Deleted(ok))
  {
    next := Grow(cfg, alone, from, run, if ok then DeleteOk(w) else DeleteFails(w));
    assert Continues(run, run);
  }

  /** The process whose code is run: a worker, or an upload request and its photo. */
  datatype Process = Working(w: nat) | Uploading(u: nat, photo: PhotoId)

  /** What other processes cannot change: a process's own memory, and whether it holds a lock. Ids are generated once. */
  predicate Untouched(me: Process, s: State, t: State) {
    match me
    case Working(w) =>
      && (w in t.workers <==> w in s.workers) && (w in s.workers ==> t.workers[w] == s.workers[w])
      && (w in t.locks ==> w in s.locks)
    case Uploading(u, p) =>
      && (u in t.uploads <==> u in s.uploads) && (u in s.uploads ==> t.uploads[u] == s.uploads[u])
      && (p in t.minted <==> p in s.minted)
  }

  class World {
    const cfg: Settings
    // What the surroundings guarantee, for the statements that need it.
    const alone: bool            // no other process acts and no request lands late; time passes
    const uninterrupted: bool    // no further shutdown signal, and no exception that nobody catches
    const writesSucceed: bool    // no database error
    const putsSucceed: bool      // no storage error on a put
    const deletesSucceed: bool   // no storage error on a delete

    var photos: map<PhotoId, Photo>
    var jobs: seq<Job>
    var reports: map<nat, Report>
    var store: set<PhotoId>
    var clock: Time
    var lockedJobs: set<JobId>       // rows that transactions of others hold
    var lockedPhotos: set<PhotoId>
    var shutdown: bool               // the event that the worker's signal handler sets

    /** The run of the protocol that has led here, and how often the worker has slept. Nothing is decided by them. */
    ghost var run: Trace
    ghost var naps: nat

    ghost predicate Valid()
      reads this
    {
      && IsRun(cfg, run)
      && var s := Reached(cfg, run);
         && s.db == Rows() && s.store == store && s.clock == clock
         && (forall w, k :: w in s.locks && 0 <= k < |s.locks[w].ids| ==> s.locks[w].ids[k] in lockedJobs)
         && (alone ==> lockedJobs == {} && lockedPhotos == {})
    }

    /** Nothing disturbs the worker. */
    predicate Steady()
      reads `shutdown
    {
      alone && uninterrupted && !shutdown && writesSucceed
    }

    function Rows(): Db
      reads this
    {
      Db(photos, jobs, reports)
    }

    ghost function Here(): State
      requires IsRun(cfg, run)
      reads this
    {
      Reached(cfg, run)
    }

    /** The run has grown since `from`. */
    ghost predicate Since(from: Trace)
      reads this
    {
      IsRun(cfg, run) && Follows(cfg, alone, from, run)
    }

    /** Worker w has neither claimed jobs nor an open claim. */
    ghost predicate Resting(w: nat)
      requires IsRun(cfg, run)
      reads this
    {
      Here().Idle(w) && w !in Here().locks
    }

    /** The shutdown signal may have come, and stays set. */
    predicate SignalKept(was: bool)
      reads `shutdown
    {
      (was ==> shutdown) && (uninterrupted ==> shutdown == was)
    }

    /** And the worker has not slept. */
    ghost predicate WorkerKept(was: bool, napsBefore: nat)
      reads `shutdown, `naps
    {
      SignalKept(was) && naps == napsBefore
    }

    /** The world after any run, with whatever is then under way. */
    constructor (cfg: Settings, s: State, lockedJobs: set<JobId>, lockedPhotos: set<PhotoId>,
                 alone: bool, uninterrupted: bool, writesSucceed: bool, putsSucceed: bool, deletesSucceed: bool,
                 ghost run: Trace)
      requires IsRun(cfg, run) && s == Reached(cfg, run)
      requires forall w, k :: w in s.locks && 0 <= k < |s.locks[w].ids| ==> s.locks[w].ids[k] in lockedJobs
      requires alone ==> lockedJobs == {} && lockedPhotos == {}
      ensures Valid() && this.run == run && Here() == s && !shutdown
      ensures this.cfg == cfg && this.alone == alone && this.uninterrupted == uninterrupted
      ensures this.writesSucceed == writesSucceed
      ensures this.putsSucceed == putsSucceed && this.deletesSucceed == deletesSucceed
    {
      this.cfg, this.alone, this.uninterrupted := cfg, alone, uninterrupted;
      this.writesSucceed, this.putsSucceed, this.deletesSucceed := writesSucceed, putsSucceed, deletesSucceed;
      photos, jobs, reports, store, clock := s.db.photos, s.db.jobs, s.db.reports, s.store, s.clock;
      this.lockedJobs, this.lockedPhotos := lockedJobs, lockedPhotos;
      shutdown := false;
      this.run, naps := run, 0;
    }

    /** Time passes, at least this many microseconds. */
    method PassTime(least: nat)
      requires Valid()
      modifies `clock, `run
      ensures Valid() && Since(old(run))
      ensures clock >= old(clock) + least && Here() == old(Here()).(clock := clock)
    {
      var now :| now >= clock + least;
      clock := now;
      run := Grow(cfg, alone, run, run, Tick(now));
    }

    /** The signal handler may set the event at any time. */
    method Signal()
      modifies `shutdown
      ensures SignalKept(old(shutdown))
    {
      var signal: bool := *;
      shutdown := shutdown || (signal && !uninterrupted);
    }

    /** Whatever other processes do in the meantime, and as much time as it takes them. Callers know this contract only. */
    method Others(ghost me: Process)
      requires Valid()
      modifies this
      ensures Valid() && Since(old(run)) && clock >= old(clock) && WorkerKept(old(shutdown), old(naps))
      ensures Untouched(me, old(Here()), Here())
      ensures alone ==> Here() == old(Here()).(clock := clock)
    {
      Signal();
      PassTime(0);
    }

    /** Others go on until none of them has locked the job row. */
    method AwaitRow(ghost w: nat, j: JobId)
      requires Valid() && w !in Here().locks
      modifies this
      ensures Valid() && Since(old(run)) && clock >= old(clock) && WorkerKept(old(shutdown), old(naps))
      ensures Untouched(Working(w), old(Here()), Here()) && RowFree(Here(), j)
      ensures alone ==> Here() == old(Here()).(clock := clock)
    {
      Signal();
      if !alone {
        run := Release(cfg, INITIAL, run, Here().locks.Keys);
        lockedJobs := {};
      }
    }

    /** shutdown.wait: as long as that, unless the signal is there or comes before. */
    method WaitForShutdown(most: nat)
      requires Valid()
      modifies `clock, `run, `shutdown, `naps
      ensures Valid() && Since(old(run)) && Here() == old(Here()).(clock := clock)
      ensures SignalKept(old(shutdown)) && naps == old(naps) + 1
      ensures clock >= old(clock) && (shutdown || clock >= old(clock) + most)
    {
      Signal();
      naps := naps + 1;
      PassTime(if shutdown then 0 else most);
    }

    /** A transaction to its commit. An error leaves open whether the database has written it. */
    method Commit() returns (ok: bool, written: bool)
      ensures ok ==> written
      ensures writesSucceed ==> ok
    {
      ok, written := *, *;
      if ok || writesSucceed {
        ok, written := true, true;
      }
    }

    /** The request of worker w is sent, and others go on. A delete is begun only while no shutdown was signalled. */
    method RequestDelete(ghost w: nat, key: PhotoId)
      requires !shutdown
      requires Valid() && Here().At(w) && Here().workers[w].phase.Ready? && Here().Next(w).key == key
      requires w !in Here().locks
      modifies this
      ensures Valid() && Since(old(run)) && clock >= old(clock) && WorkerKept(old(shutdown), old(naps))
      ensures w in Here().workers && Here().workers[w] == old(Here()).workers[w].(phase := Deleting(false))
      ensures w !in Here().locks && key in Here().deletes
      ensures alone ==> Rows() == old(Rows()) && store == old(store)
    {
      ghost var from := run;
      run := SentRun(cfg, alone, run, w);
      ghost var sent := run;
      Others(Working(w));
      FollowsTrans(cfg, alone, from, sent, run);
      OnlyGrows(cfg, sent, run);
    }

    /** The request of worker w is sent, and the bucket carries it out or does not. */
    method SendDelete(ghost w: nat, key: PhotoId) returns (gone: bool)
      requires !shutdown
      requires Valid() && Here().At(w) && Here().workers[w].phase.Ready? && Here().Next(w).key == key
      requires w !in Here().locks
      modifies this
      ensures Valid() && Since(old(run)) && clock >= old(clock) && WorkerKept(old(shutdown), old(naps))
      ensures w in Here().workers && Here().workers[w] == old(Here()).workers[w].(phase := Deleting(gone))
      ensures w !in Here().locks && key in Here().deletes
      ensures gone ==> key !in store
      ensures deletesSucceed ==> gone
      ensures alone ==> Rows() == old(Rows()) && store == if gone then old(store) - {key} else old(store)
    {
      ghost var from := run;
      RequestDelete(w, key);
      gone := *;
      gone := gone || deletesSucceed;
      if gone {
        run := TakenRun(cfg, alone, from, run, w);
        store := store - {key};
      }
    }

    /** delete_photo of the storage service, called by worker w. It may raise whether or not the object was deleted, and
      others act while it is under way: after a success, the bucket was without the object at some time during the call. */
    method DeletePhoto(ghost w: nat, key: PhotoId) returns (ok: bool, ghost at: Trace)
      requires !shutdown
      requires Valid() && Here().At(w) && Here().workers[w].phase.Ready? && Here().Next(w).key == key
      requires w !in Here().locks
      modifies this
      ensures Valid() && Since(old(run)) && clock >= old(clock) && WorkerKept(old(shutdown), old(naps))
      ensures w in Here().workers && Here().workers[w] == old(Here()).workers[w].(phase := Deleted(ok))
      ensures w !in Here().locks && key in Here().deletes
      ensures IsRun(cfg, at) && Continues(old(run), at) && Continues(at, run)
      ensures ok ==> key !in Reached(cfg, at).store
      ensures deletesSucceed ==> ok
      ensures alone ==> Rows() == old(Rows())
      ensures alone ==> store == old(store) - {key} || (!ok && store == old(store))
    {
      ghost var from := run;
      var gone := SendDelete(w, key);
      at := run;
      Others(Working(w));
      FollowsTrans(cfg, alone, from, at, run);
      OnlyGrows(cfg, at, run);
      ghost var waited := run;
      ok := *;
      ok := gone && (ok || deletesSucceed);
      run := AnsweredRun(cfg, alone, from, run, w, gone, ok);
      ContinuesTrans(at, waited, run);
    }
  }
}
