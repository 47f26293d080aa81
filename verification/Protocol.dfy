/** The photo lifecycle as a state machine: upload requests, admins, reporters and workers, each a sequence of
  transactions and storage calls, interleaved in any order and crashing between any two of them.

  An event is one committed transaction, one step of a storage call, or one process step between them. Choices that
  the code leaves open (clock readings, jitter, skipped rows, failures) are the parameters of the events. A `now` is
  the start of a transaction, so it may lie behind the clock when the transaction commits. */
module Protocol {
  import opened Records
  import Backoff
  import opened Outbox

  /** Where an upload request stands (upload_crane_photo in app/routes/crane.py). */
  datatype Upload =
    | Locked(crane: CraneId)       // holds the crane row, photos not yet counted
    | Counted(crane: CraneId)      // the count was below the limit, row not yet committed
    | Reserved(photo: PhotoId)     // row committed, put not yet answered
    | Stored(photo: PhotoId)       // put answered with success
    | Failing(photo: PhotoId)      // an error was caught, about to abandon
    | Abandoning(photo: PhotoId)   // abandon has read the row as pending upload
  {
    predicate HoldsCrane(c: CraneId) {
      (Locked? || Counted?) && crane == c
    }

    predicate For(p: PhotoId) {
      !Locked? && !Counted? && photo == p
    }
  }

  /** A claimed job in a worker's memory. The token, the attempt number of the claim, is not in the program: it names
    the claim in the statements below and nothing is decided by it. */
  datatype Claim = Claim(job: JobId, key: PhotoId, token: nat)

  /** How far a worker is with the first job it still has to do. While a delete is under way, `gone` tells whether the
    bucket has carried it out. */
  datatype Phase = Ready | Deleting(gone: bool) | Deleted(ok: bool) | Recording(ok: bool, seen: Job)

  /** `start` is when the claim began and `since` when the current job did; only timing statements read them. */
  datatype Worker = Worker(todo: seq<Claim>, phase: Phase, start: Time, since: Time)
  {
    /** The object of p was deleted by this worker's call, which has been or will be answered with success. */
    predicate DeletedKey(p: PhotoId) {
      todo != [] && todo[0].key == p
      && ((phase.Deleting? && phase.gone) || ((phase.Deleted? || phase.Recording?) && phase.ok))
    }
  }

  /** The rows that a claim has selected and locked in a transaction that began at `now` and is not yet committed. */
  datatype Selection = Selection(ids: seq<JobId>, now: Time)

  /** `puts`, `deletes` and `commits` hold the requests that were sent and may still take effect, at any time and
    more than once; `landed` holds the keys some put has stored; `minted` holds the photo ids ever generated; `locks`
    holds the open claims of the workers. */
  datatype State = State(db: Db, store: set<PhotoId>, clock: Time,
                         uploads: map<nat, Upload>, workers: map<nat, Worker>, locks: map<nat, Selection>,
                         minted: set<PhotoId>, puts: set<PhotoId>, landed: set<PhotoId>,
                         commits: set<PhotoId>, deletes: set<PhotoId>)
  {
    predicate Idle(w: nat) {
      w in workers ==> workers[w].todo == []
    }

    predicate At(w: nat) {
      w in workers && workers[w].todo != []
    }

    function Next(w: nat): Claim
      requires At(w)
    {
      workers[w].todo[0]
    }

    function SetPhase(w: nat, phase: Phase): State
      requires At(w)
    {
      this.(workers := workers[w := workers[w].(phase := phase)])
    }

    /** The worker moves to its next claimed job. */
    function Advance(w: nat): State
      requires At(w)
    {
      this.(workers := workers[w := workers[w].(todo := workers[w].todo[1..], phase := Ready, since := clock)])
    }
  }

  const INITIAL := State(Db(map[], [], map[]), {}, 0, map[], map[], map[], {}, {}, {}, {}, {})

  datatype Event =
    | Tick(now: Time)
    // an upload request
    | LockCrane(u: nat, crane: CraneId)
    | CountPhotos(u: nat)
    | Reserve(u: nat, photo: PhotoId, addedAt: Time)
    | SendPut(u: nat)
    | PutLands(photo: PhotoId)
    | PutOk(u: nat)
    | PutFails(u: nat)
    | Finalize(u: nat)
    | FinalizeFails(u: nat)             // the commit raised ...
    | FinalizeLands(photo: PhotoId)     // ... although the database completes it
    | AbandonSelect(u: nat)
    | AbandonWrite(u: nat, now: Time)
    | UploadEnds(u: nat)                // a rejection, an error in abandon, or a crash
    // admins, reporters and the reaper
    | AdminDelete(photo: PhotoId, now: Time)
    | ReportPhoto(photo: PhotoId, reporter: Reporter, id: nat)
    | Reap(photo: PhotoId, now: Time)
    // a worker
    | SelectJobs(w: nat, ids: seq<JobId>, now: Time)   // the claim query locks the rows it finds
    | ClaimBatch(w: nat, ids: seq<JobId>, now: Time)   // the claim of these rows commits
    | ClaimFails(w: nat)                               // the claim is rolled back
    | SendDelete(w: nat)
    | DeleteTakes(w: nat)              // the bucket carries it out
    | DeleteOk(w: nat)
    | DeleteFails(w: nat)
    | DeleteLands(photo: PhotoId)
    | ReadJob(w: nat)
    | WriteOutcome(w: nat, now: Time, delay: nat)
    | LoseOutcome(w: nat)               // the outcome write failed
    | WorkerStops(w: nat)               // shutdown between two jobs, or a crash anywhere

  predicate Distinct(ids: seq<JobId>) {
    forall i, k :: 0 <= i < k < |ids| ==> ids[i] != ids[k]
  }

  predicate CraneFree(s: State, crane: CraneId) {
    forall u :: u in s.uploads ==> !s.uploads[u].HoldsCrane(crane)
  }

  /** No open claim has locked the job row. */
  predicate RowFree(s: State, j: JobId) {
    forall w :: w in s.locks ==> j !in s.locks[w].ids
  }

  /** A worker without claimed jobs may claim these rows. */
  predicate MayClaim(cfg: Settings, s: State, w: nat, ids: seq<JobId>, now: Time) {
    && s.Idle(w) && now <= s.clock && |ids| <= cfg.batchSize && Distinct(ids)
    && forall k :: 0 <= k < |ids| ==> ids[k] < |s.db.jobs| && Claimable(s.db.jobs[ids[k]], now)
  }

  predicate Enabled(cfg: Settings, s: State, e: Event) {
    match e
    case Tick(now) => s.clock <= now
    case LockCrane(u, crane) => u !in s.uploads && (cfg.lockCrane ==> CraneFree(s, crane))
    case CountPhotos(u) =>
      u in s.uploads && s.uploads[u].Locked? && |OpenPhotos(s.db.photos, s.uploads[u].crane)| < MAX_PHOTOS_PER_CRANE
    case Reserve(u, p, addedAt) => u in s.uploads && s.uploads[u].Counted? && p !in s.minted && addedAt <= s.clock
    case SendPut(u) => u in s.uploads && s.uploads[u].Reserved?
    case PutLands(p) => p in s.puts
    case PutOk(u) => u in s.uploads && s.uploads[u].Reserved? && s.uploads[u].photo in s.landed
    case PutFails(u) => u in s.uploads && s.uploads[u].Reserved?
    case Finalize(u) => u in s.uploads && s.uploads[u].Stored?
    case FinalizeFails(u) => u in s.uploads && s.uploads[u].Stored?
    case FinalizeLands(p) => p in s.commits && s.db.Has(p, PendingUpload)
    case AbandonSelect(u) => u in s.uploads && s.uploads[u].Failing?
    case AbandonWrite(u, now) => u in s.uploads && s.uploads[u].Abandoning? && now <= s.clock
    case UploadEnds(u) => u in s.uploads
    case AdminDelete(p, now) => s.db.Has(p, Active) && now <= s.clock
    case ReportPhoto(p, reporter, id) => s.db.Has(p, Active) && id !in s.db.reports
    case Reap(p, now) => Reapable(cfg, s.db, p, now) && now <= s.clock
    case SelectJobs(w, ids, now) =>
      w !in s.locks && MayClaim(cfg, s, w, ids, now) && forall k :: 0 <= k < |ids| ==> RowFree(s, ids[k])
    case ClaimBatch(w, ids, now) => w in s.locks && s.locks[w] == Selection(ids, now) && MayClaim(cfg, s, w, ids, now)
    case ClaimFails(w) => w in s.locks
    case SendDelete(w) => s.At(w) && s.workers[w].phase.Ready?
    case DeleteTakes(w) => s.At(w) && s.workers[w].phase == Deleting(false)
    case DeleteOk(w) => s.At(w) && s.workers[w].phase == Deleting(true)
    case DeleteFails(w) => s.At(w) && s.workers[w].phase.Deleting?
    case DeleteLands(p) => p in s.deletes
    case ReadJob(w) => s.At(w) && s.workers[w].phase.Deleted? && s.Next(w).job < |s.db.jobs|
    case WriteOutcome(w, now, delay) =>
      && s.At(w) && s.workers[w].phase.Recording? && s.Next(w).job < |s.db.jobs| && now <= s.clock
      && RowFree(s, s.Next(w).job)
      && delay <= Millis(Backoff.Ceiling(cfg, s.workers[w].phase.seen.attempts))
    case LoseOutcome(w) => s.At(w) && (s.workers[w].phase.Deleted? || s.workers[w].phase.Recording?)
    case WorkerStops(w) => w in s.workers || w in s.locks
  }

  function SetUpload(s: State, u: nat, upload: Upload): State {
    s.(uploads := s.uploads[u := upload])
  }

  function EndUpload(s: State, u: nat): State {
    s.(uploads := s.uploads - {u})
  }

  function Activate(s: State, p: PhotoId): State
    requires p in s.db.photos
  {
    s.(db := s.db.(photos := s.db.photos[p := s.db.photos[p].(status := Active)]))
  }

  function Claims(jobs: seq<Job>, ids: seq<JobId>): seq<Claim>
    requires forall k :: 0 <= k < |ids| ==> ids[k] < |jobs|
  {
    seq(|ids|, k requires 0 <= k < |ids| => Claim(ids[k], jobs[ids[k]].key, jobs[ids[k]].attempts + 1))
  }

  function Apply(cfg: Settings, s: State, e: Event): State
    requires Enabled(cfg, s, e)
  {
    match e
    case Tick(now) => s.(clock := now)
    case LockCrane(u, crane) => SetUpload(s, u, Locked(crane))
    case CountPhotos(u) => SetUpload(s, u, Counted(s.uploads[u].crane))
    case Reserve(u, p, addedAt) =>
      SetUpload(s, u, Reserved(p)).(
        minted := s.minted + {p},
        db := s.db.(photos := s.db.photos[p := Photo(s.uploads[u].crane, PendingUpload, addedAt)]))
    case SendPut(u) => s.(puts := s.puts + {s.uploads[u].photo})
    case PutLands(p) => s.(store := s.store + {p}, landed := s.landed + {p})
    case PutOk(u) => SetUpload(s, u, Stored(s.uploads[u].photo))
    case PutFails(u) => SetUpload(s, u, Failing(s.uploads[u].photo))
    case Finalize(u) =>
      var p := s.uploads[u].photo;
      if s.db.Has(p, PendingUpload) then EndUpload(Activate(s, p), u) else SetUpload(s, u, Failing(p))
    case FinalizeFails(u) =>
      SetUpload(s, u, Failing(s.uploads[u].photo)).(commits := s.commits + {s.uploads[u].photo})
    case FinalizeLands(p) => Activate(s, p)
    case AbandonSelect(u) =>
      var p := s.uploads[u].photo;
      if s.db.Has(p, PendingUpload) then SetUpload(s, u, Abandoning(p)) else EndUpload(s, u)
    case AbandonWrite(u, now) =>
      // the update is by primary key; when the row is gone it matches nothing and the transaction is rolled back
      var p := s.uploads[u].photo;
      EndUpload(if p in s.db.photos then s.(db := QueueDelete(s.db, p, now)) else s, u)
    case UploadEnds(u) => EndUpload(s, u)
    case AdminDelete(p, now) => s.(db := QueueDelete(s.db, p, now))
    case ReportPhoto(p, reporter, id) =>
      if reporter in Reporters(s.db, p) then s
      else s.(db := s.db.(reports := s.db.reports[id := Report(p, reporter)]))
    case Reap(p, now) => s.(db := QueueDelete(s.db, p, now))
    case SelectJobs(w, ids, now) => s.(locks := s.locks[w := Selection(ids, now)])
    case ClaimBatch(w, ids, now) =>
      s.(db := s.db.(jobs := ClaimRows(cfg, s.db.jobs, ids, now)), locks := s.locks - {w},
         workers := s.workers[w := Worker(Claims(s.db.jobs, ids), Ready, now, s.clock)])
    case ClaimFails(w) => s.(locks := s.locks - {w})
    case SendDelete(w) => s.SetPhase(w, Deleting(false)).(deletes := s.deletes + {s.Next(w).key})
    case DeleteTakes(w) => s.SetPhase(w, Deleting(true)).(store := s.store - {s.Next(w).key})
    case DeleteOk(w) => s.SetPhase(w, Deleted(true))
    case DeleteFails(w) => s.SetPhase(w, Deleted(false))
    case DeleteLands(p) => s.(store := s.store - {p})
    case ReadJob(w) => s.SetPhase(w, Recording(s.workers[w].phase.ok, s.db.jobs[s.Next(w).job]))
    case WriteOutcome(w, now, delay) =>
      var phase := s.workers[w].phase;
      s.Advance(w).(db := RecordOutcome(cfg, s.db, s.Next(w).job, phase.seen, phase.ok, now + delay))
    case LoseOutcome(w) => s.Advance(w)
    case WorkerStops(w) => s.(workers := s.workers - {w}, locks := s.locks - {w})
  }

  // ---- runs ----

  /** A run: a finite sequence of events, the last one outermost. */
  datatype Trace = Start | Then(before: Trace, event: Event)

  /** The run is possible from s, and `End` is the state it leads to. */
  predicate Valid(cfg: Settings, s: State, run: Trace)
    decreases run, 0
  {
    run.Then? ==> Valid(cfg, s, run.before) && Enabled(cfg, End(cfg, s, run.before), run.event)
  }

  function End(cfg: Settings, s: State, run: Trace): State
    requires Valid(cfg, s, run)
    decreases run, 1
  {
    if run.Start? then s else Apply(cfg, End(cfg, s, run.before), run.event)
  }

  predicate IsRun(cfg: Settings, run: Trace) {
    Valid(cfg, INITIAL, run)
  }

  function Reached(cfg: Settings, run: Trace): State
    requires IsRun(cfg, run)
  {
    End(cfg, INITIAL, run)
  }

  /** Every event of the run meets the condition in the state it happens in. */
  predicate Throughout(cfg: Settings, s: State, run: Trace, ok: (Settings, State, Event) -> bool)
    requires Valid(cfg, s, run)
  {
    run.Then? ==> Throughout(cfg, s, run.before, ok) && ok(cfg, End(cfg, s, run.before), run.event)
  }

  /** The second run continues the first. */
  predicate Continues(a: Trace, b: Trace) {
    a == b || (b.Then? && Continues(a, b.before))
  }

  lemma {:induction false} ContinuesTrans(a: Trace, b: Trace, c: Trace)
    requires Continues(a, b) && Continues(b, c)
    ensures Continues(a, c)
  {
    if b != c {
      ContinuesTrans(a, b, c.before);
    }
  }

  /** One more event of a run from s. */
  lemma Go(cfg: Settings, s: State, run: Trace, t: State, e: Event) returns (next: Trace, u: State)
    requires Valid(cfg, s, run) && t == End(cfg, s, run) && Enabled(cfg, t, e)
    ensures next == Then(run, e) && Valid(cfg, s, next)
    ensures u == Apply(cfg, t, e) && u == End(cfg, s, next)
  {
    next, u := Then(run, e), Apply(cfg, t, e);
  }

  lemma Do(cfg: Settings, run: Trace, s: State, e: Event) returns (next: Trace, t: State)
    requires IsRun(cfg, run) && s == Reached(cfg, run) && Enabled(cfg, s, e)
    ensures next == Then(run, e) && IsRun(cfg, next)
    ensures t == Apply(cfg, s, e) && t == Reached(cfg, next)
  {
    next, t := Go(cfg, INITIAL, run, s, e);
  }

  /** Open claims of these workers are rolled back, and with them go their locks; nothing else happens. */
  lemma {:induction false} Release(cfg: Settings, s: State, run: Trace, ws: set<nat>) returns (next: Trace)
    requires Valid(cfg, s, run) && ws <= End(cfg, s, run).locks.Keys
    ensures Valid(cfg, s, next) && End(cfg, s, next) == End(cfg, s, run).(locks := End(cfg, s, run).locks - ws)
    ensures Continues(run, next)
    ensures forall ok: (Settings, State, Event) -> bool ::
      Throughout(cfg, s, run, ok) && (forall r, v :: ok(cfg, r, ClaimFails(v))) ==> Throughout(cfg, s, next, ok)
  {
    next := run;
    if w :| w in ws {
      next := Release(cfg, s, run, ws - {w});
      var t;
      next, t := Go(cfg, s, next, End(cfg, s, next), ClaimFails(w));
    }
  }

  // ---- the beginnings of the concrete runs ----

  lemma FirstReserved(cfg: Settings) returns (run: Trace, s: State)
    ensures IsRun(cfg, run) && s == Reached(cfg, run)
    ensures s == State(Db(map[0 := Photo(0, PendingUpload, 0)], [], map[]), {}, 0,
                       map[0 := Reserved(0)], map[], map[], {0}, {}, {}, {}, {})
  {
    run, s := Do(cfg, Start, INITIAL, LockCrane(0, 0));
    assert OpenPhotos(s.db.photos, 0) == {};
    run, s := Do(cfg, run, s, CountPhotos(0));
    run, s := Do(cfg, run, s, Reserve(0, 0, 0));
  }

  /** The uploader has sent its put and stalls; the photo is reaped. */
  lemma FirstReaped(cfg: Settings, now: Time) returns (run: Trace, s: State)
    requires now > Millis(cfg.uploadWindow)
    ensures IsRun(cfg, run) && s == Reached(cfg, run)
    ensures s == State(Db(map[0 := Photo(0, PendingDelete, 0)], [Job(0, Pending, 0, now, None, now)], map[]),
                       {}, now, map[0 := Reserved(0)], map[], map[], {0}, {0}, {}, {}, {})
  {
    run, s := FirstReserved(cfg);
    run, s := Do(cfg, run, s, SendPut(0));
    run, s := Do(cfg, run, s, Tick(now));
    run, s := Do(cfg, run, s, Reap(0, now));
  }

  lemma OnlyClaim(cfg: Settings, job: Job, now: Time)
    ensures Claims([job], [0]) == [Claim(0, job.key, job.attempts + 1)]
    ensures ClaimRows(cfg, [job], [0], now) == [ClaimRow(cfg, job, now)]
  {
  }

  /** Worker w claims the only job of the table. */
  lemma ClaimOnly(cfg: Settings, run: Trace, s: State, job: Job, w: nat) returns (next: Trace, t: State)
    requires IsRun(cfg, run) && s == Reached(cfg, run) && s.db.jobs == [job] && s.locks == map[]
    requires Claimable(job, s.clock) && s.Idle(w) && cfg.batchSize > 0
    ensures IsRun(cfg, next) && t == Reached(cfg, next)
    ensures t == s.(db := s.db.(jobs := [ClaimRow(cfg, job, s.clock)]),
                    workers := s.workers[w := Worker([Claim(0, job.key, job.attempts + 1)], Ready, s.clock, s.clock)])
  {
    OnlyClaim(cfg, job, s.clock);
    next, t := Do(cfg, run, s, SelectJobs(w, [0], s.clock));
    next, t := Do(cfg, next, t, ClaimBatch(w, [0], s.clock));
    assert t.locks == map[];
  }

  /** And worker w claims the job at once. */
  lemma FirstClaimed(cfg: Settings, w: nat, reaped: Time) returns (run: Trace, s: State)
    requires reaped > Millis(cfg.uploadWindow) && cfg.batchSize > 0
    ensures IsRun(cfg, run) && s == Reached(cfg, run)
    ensures var now := reaped + 1;
      s == State(Db(map[0 := Photo(0, PendingDelete, 0)],
                    [Job(0, Processing, 1, reaped, Some(now + Seconds(cfg.leaseWindow)), reaped)], map[]),
                 {}, now, map[0 := Reserved(0)], map[w := Worker([Claim(0, 0, 1)], Ready, now, now)], map[],
                 {0}, {0}, {}, {}, {})
  {
    run, s := FirstReaped(cfg, reaped);
    run, s := Do(cfg, run, s, Tick(reaped + 1));
    run, s := ClaimOnly(cfg, run, s, s.db.jobs[0], w);
  }
}
