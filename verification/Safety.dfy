/** What every run keeps, for any number of uploads and workers and any crashes, lost outcomes, expired leases and
  late storage calls: no live photo loses its object, and rows, jobs and reports correspond. */
module Safety {
  import opened Records
  import opened Outbox
  import opened Protocol

  // ---- the inductive invariant, part by part ----

  /** Everything that names a photo names one that was generated, and effects come after their requests. */
  predicate IdsOk(s: State) {
    && s.db.photos.Keys <= s.minted
    && s.commits <= s.landed
    && s.store <= s.landed <= s.puts <= s.minted
    && UploadsOk(s)
  }

  predicate UploadsOk(s: State) {
    forall u :: u in s.uploads ==> UploadIds(s.minted, s.landed, s.uploads[u])
  }

  predicate UploadIds(minted: set<PhotoId>, landed: set<PhotoId>, upload: Upload) {
    upload.Locked? || upload.Counted? || upload.photo in if upload.Stored? then landed else minted
  }

  /** Exactly the rows pending deletion have a job, and none of those jobs is completed. */
  predicate Correspond(db: Db) {
    && (forall p :: p in db.photos ==> (db.photos[p].status.PendingDelete? <==> p in Queued(db.jobs)))
    && (forall i :: 0 <= i < |db.jobs| && db.jobs[i].status.Completed? ==> db.jobs[i].key !in db.photos)
  }

  /** Every claim names an existing job and its key, and deletion was only ever requested for keys with a job. */
  predicate Known(s: State) {
    && Queued(s.db.jobs) <= s.minted
    && s.deletes <= Queued(s.db.jobs)
    && forall w :: w in s.workers ==> WorkerKnown(s.db.jobs, s.workers[w])
  }

  predicate WorkerKnown(jobs: seq<Job>, worker: Worker) {
    && (forall k :: 0 <= k < |worker.todo| ==> ClaimKnown(jobs, worker.todo[k]))
    && (worker.phase.Recording? && worker.todo != [] ==> worker.phase.seen.key == worker.todo[0].key)
  }

  predicate ClaimKnown(jobs: seq<Job>, claim: Claim) {
    claim.job < |jobs| && jobs[claim.job].key == claim.key && claim.token <= jobs[claim.job].attempts
  }

  /** An active photo has its object, and so has every photo that could still become active. */
  predicate Live(s: State) {
    forall p :: p in s.db.photos ==> LiveAt(s, p)
  }

  predicate LiveAt(s: State, p: PhotoId)
    requires p in s.db.photos
  {
    && (s.db.photos[p].status.Active? ==> p in s.store)
    && (s.db.photos[p].status.PendingUpload? && p in s.landed ==> p in s.store)
  }

  /** Reports belong to rows that have been active, one for each photo and reporter. */
  predicate ReportsOk(db: Db) {
    && (forall r :: r in db.reports ==>
          db.reports[r].photo in db.photos && !db.photos[db.reports[r].photo].status.PendingUpload?)
    && (forall r, q :: r in db.reports && q in db.reports && db.reports[r] == db.reports[q] ==> r == q)
  }

  predicate DbOk(db: Db) {
    Correspond(db) && ReportsOk(db)
  }

  predicate Inv(s: State) {
    IdsOk(s) && DbOk(s.db) && Known(s) && Live(s)
  }

  // ---- how the job table may change in one event ----

  /** Rows are only appended, and an old row keeps its key and never loses attempts. */
  predicate JobsGrow(before: seq<Job>, after: seq<Job>) {
    && |before| <= |after|
    && forall i :: 0 <= i < |before| ==> after[i].key == before[i].key && before[i].attempts <= after[i].attempts
  }

  /** The only things that happen to the job table: a job is queued, a batch is claimed, an outcome is written. */
  lemma JobsStep(cfg: Settings, s: State, e: Event)
    requires Enabled(cfg, s, e)
    ensures var jobs, after := s.db.jobs, Apply(cfg, s, e).db.jobs;
      match e
      case ClaimBatch(w, ids, now) => after == ClaimRows(cfg, jobs, ids, now)
      case WriteOutcome(w, now, delay) =>
        after == jobs[s.Next(w).job := OutcomeRow(cfg, s.workers[w].phase.seen, jobs[s.Next(w).job],
                                                  s.workers[w].phase.ok, now + delay)]
      case _ => after == jobs || (|after| == |jobs| + 1 && after[..|jobs|] == jobs)
  {
  }

  lemma JobsGrowStep(cfg: Settings, s: State, e: Event)
    requires Enabled(cfg, s, e)
    ensures JobsGrow(s.db.jobs, Apply(cfg, s, e).db.jobs)
  {
    JobsStep(cfg, s, e);
    var jobs, after := s.db.jobs, Apply(cfg, s, e).db.jobs;
    forall i | 0 <= i < |jobs| && !e.ClaimBatch? && !e.WriteOutcome? ensures i < |after| && after[i] == jobs[i] {
      assert after == jobs || after[i] == after[..|jobs|][i];
    }
  }

  /** A key gets a job in the same transaction that takes its row out of use. */
  lemma QueuedStep(cfg: Settings, s: State, e: Event)
    requires Enabled(cfg, s, e)
    ensures var t := Apply(cfg, s, e);
      && Queued(s.db.jobs) <= Queued(t.db.jobs)
      && forall p :: p in Queued(t.db.jobs) && p !in Queued(s.db.jobs) ==> t.db.Has(p, PendingDelete)
  {
    var jobs, after := s.db.jobs, Apply(cfg, s, e).db.jobs;
    JobsGrowStep(cfg, s, e);
    if |after| == |jobs| {
      QueuedSameKeys(jobs, after);
    } else {
      assert after == jobs + [after[|jobs|]];
      QueuedAppend(jobs, after[|jobs|]);
    }
  }

  // ---- each transaction keeps the rows, jobs and reports in step ----

  lemma ReserveKeeps(db: Db, p: PhotoId, photo: Photo)
    requires DbOk(db) && photo.status.PendingUpload? && p !in db.photos && p !in Queued(db.jobs)
    ensures DbOk(db.(photos := db.photos[p := photo]))
  {
  }

  lemma ActivateKeeps(db: Db, p: PhotoId)
    requires DbOk(db) && db.Has(p, PendingUpload)
    ensures DbOk(db.(photos := db.photos[p := db.photos[p].(status := Active)]))
  {
  }

  lemma QueueDeleteKeeps(db: Db, p: PhotoId, now: Time)
    requires DbOk(db) && p in db.photos
    ensures DbOk(QueueDelete(db, p, now))
  {
    QueuedAppend(db.jobs, Job(p, Pending, 0, now, None, now));
  }

  lemma ReportKeeps(db: Db, report: Report, id: nat)
    requires DbOk(db) && db.Has(report.photo, Active) && id !in db.reports
    requires report.reporter !in Reporters(db, report.photo)
    ensures DbOk(db.(reports := db.reports[id := report]))
  {
    assert forall r :: r in db.reports ==> db.reports[r] != report;
  }

  lemma ClaimKeeps(cfg: Settings, db: Db, ids: seq<JobId>, now: Time)
    requires DbOk(db)
    ensures DbOk(db.(jobs := ClaimRows(cfg, db.jobs, ids, now)))
  {
    QueuedSameKeys(db.jobs, ClaimRows(cfg, db.jobs, ids, now));
  }

  lemma OutcomeKeeps(cfg: Settings, db: Db, j: JobId, seen: Job, ok: bool, availableAt: Time)
    requires DbOk(db) && j < |db.jobs| && db.jobs[j].key == seen.key
    ensures DbOk(RecordOutcome(cfg, db, j, seen, ok, availableAt))
  {
    QueuedSameKeys(db.jobs, RecordOutcome(cfg, db, j, seen, ok, availableAt).jobs);
  }

  lemma DbOkStep(cfg: Settings, s: State, e: Event)
    requires Enabled(cfg, s, e) && Inv(s)
    ensures DbOk(Apply(cfg, s, e).db)
  {
    match e
    case Reserve(u, p, addedAt) => ReserveKeeps(s.db, p, Photo(s.uploads[u].crane, PendingUpload, addedAt));
    case Finalize(u) => if s.db.Has(s.uploads[u].photo, PendingUpload) { ActivateKeeps(s.db, s.uploads[u].photo); }
    case FinalizeLands(p) => ActivateKeeps(s.db, p);
    case AbandonWrite(u, now) =>
      if s.uploads[u].photo in s.db.photos { QueueDeleteKeeps(s.db, s.uploads[u].photo, now); }
    case AdminDelete(p, now) => QueueDeleteKeeps(s.db, p, now);
    case Reap(p, now) => QueueDeleteKeeps(s.db, p, now);
    case ReportPhoto(p, reporter, id) =>
      if reporter !in Reporters(s.db, p) { ReportKeeps(s.db, Report(p, reporter), id); }
    case ClaimBatch(w, ids, now) => ClaimKeeps(cfg, s.db, ids, now);
    case WriteOutcome(w, now, delay) =>
      OutcomeKeeps(cfg, s.db, s.Next(w).job, s.workers[w].phase.seen, s.workers[w].phase.ok, now + delay);
    case _ =>
  }

  lemma UploadsStep(cfg: Settings, s: State, e: Event)
    requires Enabled(cfg, s, e) && IdsOk(s)
    ensures UploadsOk(Apply(cfg, s, e))
  {
    var t := Apply(cfg, s, e);
    assert s.minted <= t.minted && s.landed <= t.landed;
    forall u | u in t.uploads ensures UploadIds(t.minted, t.landed, t.uploads[u]) {
      if u in s.uploads {
        assert UploadIds(s.minted, s.landed, s.uploads[u]);
      }
    }
  }

  lemma IdsStep(cfg: Settings, s: State, e: Event)
    requires Enabled(cfg, s, e) && IdsOk(s)
    ensures IdsOk(Apply(cfg, s, e))
  {
    UploadsStep(cfg, s, e);
  }

  lemma WorkerKnownGrows(before: seq<Job>, after: seq<Job>, worker: Worker)
    requires JobsGrow(before, after) && WorkerKnown(before, worker)
    ensures WorkerKnown(after, worker)
  {
  }

  lemma KnownStep(cfg: Settings, s: State, e: Event)
    requires Enabled(cfg, s, e) && Inv(s)
    ensures Known(Apply(cfg, s, e))
  {
    var t := Apply(cfg, s, e);
    QueuedStep(cfg, s, e);
    JobsGrowStep(cfg, s, e);
    forall w | w in t.workers ensures WorkerKnown(t.db.jobs, t.workers[w]) {
      if w in s.workers {
        WorkerKnownGrows(s.db.jobs, t.db.jobs, s.workers[w]);
      }
    }
  }

  /** How one photo row can come to its state. */
  lemma PhotoStep(cfg: Settings, s: State, e: Event, p: PhotoId)
    requires Enabled(cfg, s, e) && p in Apply(cfg, s, e).db.photos
    ensures var next := Apply(cfg, s, e).db.photos[p];
      || (e.Reserve? && e.photo == p && p !in s.minted && next == Photo(s.uploads[e.u].crane, PendingUpload, e.addedAt))
      || (p in s.db.photos && next == s.db.photos[p])
      || (p in s.db.photos && next == s.db.photos[p].(status := PendingDelete))
      || (s.db.Has(p, PendingUpload) && next == s.db.photos[p].(status := Active)
          && ((e.Finalize? && s.uploads[e.u].photo == p) || (e.FinalizeLands? && e.photo == p)))
  {
    var t := Apply(cfg, s, e);
  }

  lemma PhotoRemoved(cfg: Settings, s: State, e: Event, p: PhotoId)
    requires Enabled(cfg, s, e) && p in s.db.photos && p !in Apply(cfg, s, e).db.photos
    ensures e.WriteOutcome? && s.workers[e.w].phase.ok && s.workers[e.w].phase.seen.key == p
  {
    var t := Apply(cfg, s, e);
  }

  /** A row goes only when a worker that has deleted its object says so. */
  lemma PhotoGoes(cfg: Settings, s: State, e: Event, p: PhotoId)
    requires Enabled(cfg, s, e) && Known(s) && p in s.db.photos && p !in Apply(cfg, s, e).db.photos
    ensures e.WriteOutcome? && s.workers[e.w].DeletedKey(p)
  {
    PhotoRemoved(cfg, s, e, p);
    assert WorkerKnown(s.db.jobs, s.workers[e.w]);
  }

  /** An object disappears only after a deletion was asked for. */
  lemma StoreStep(cfg: Settings, s: State, e: Event, p: PhotoId)
    requires Enabled(cfg, s, e)
    ensures var t := Apply(cfg, s, e);
      && (p in t.landed ==> p in s.landed || (p in t.store && e.PutLands? && e.photo == p))
      && (p in s.store && p !in t.store ==> p in s.deletes || (e.DeleteTakes? && s.Next(e.w).key == p))
  {
    var t := Apply(cfg, s, e);
  }

  lemma LiveStep(cfg: Settings, s: State, e: Event)
    requires Enabled(cfg, s, e) && Inv(s)
    ensures Live(Apply(cfg, s, e))
  {
    var t := Apply(cfg, s, e);
    forall p | p in t.db.photos ensures LiveAt(t, p) {
      PhotoStep(cfg, s, e, p);
      StoreStep(cfg, s, e, p);
      if e.DeleteTakes? {
        assert ClaimKnown(s.db.jobs, s.Next(e.w));
      }
      if e.Finalize? {
        assert UploadIds(s.minted, s.landed, s.uploads[e.u]);
      }
    }
  }

  lemma {:induction false} InvKept(cfg: Settings, s: State, run: Trace)
    requires Inv(s) && Valid(cfg, s, run)
    ensures Inv(End(cfg, s, run))
  {
    if run.Then? {
      InvKept(cfg, s, run.before);
      var t, e := End(cfg, s, run.before), run.event;
      IdsStep(cfg, t, e);
      DbOkStep(cfg, t, e);
      KnownStep(cfg, t, e);
      LiveStep(cfg, t, e);
    }
  }

  lemma InvHolds(cfg: Settings, run: Trace)
    requires IsRun(cfg, run)
    ensures Inv(Reached(cfg, run))
  {
    InvKept(cfg, INITIAL, run);
  }

  // ---- what follows for every run ----

  /** Live-object safety: an active photo always has its object. */
  lemma ActiveHasObject(cfg: Settings, run: Trace, p: PhotoId)
    requires IsRun(cfg, run) && Reached(cfg, run).db.Has(p, Active)
    ensures p in Reached(cfg, run).store
  {
    InvHolds(cfg, run);
  }

  /** A photo was given up: its row is pending deletion or gone. */
  predicate GivenUp(s: State, p: PhotoId) {
    p in s.minted && (p in s.db.photos ==> s.db.photos[p].status.PendingDelete?)
  }

  lemma GivenUpStep(cfg: Settings, s: State, e: Event, p: PhotoId)
    requires Enabled(cfg, s, e) && GivenUp(s, p)
    ensures GivenUp(Apply(cfg, s, e), p)
  {
    var t := Apply(cfg, s, e);
  }

  lemma {:induction false} GivenUpForever(cfg: Settings, s: State, run: Trace, p: PhotoId)
    requires Valid(cfg, s, run) && GivenUp(s, p)
    ensures GivenUp(End(cfg, s, run), p)
  {
    if run.Then? {
      GivenUpForever(cfg, s, run.before, p);
      GivenUpStep(cfg, End(cfg, s, run.before), run.event, p);
    }
  }

  /** Deletion of an object is only requested for a photo that no continuation can bring back: whatever happens next,
    its row is never active or awaiting its upload again. */
  lemma DeletionNeverHitsLivePhoto(cfg: Settings, run: Trace, more: Trace, p: PhotoId)
    requires IsRun(cfg, run) && p in Reached(cfg, run).deletes && Valid(cfg, Reached(cfg, run), more)
    ensures GivenUp(End(cfg, Reached(cfg, run), more), p)
  {
    InvHolds(cfg, run);
    GivenUpForever(cfg, Reached(cfg, run), more, p);
  }

  /** The outbox and the rows correspond: a live row has no job; a row pending deletion has one, and none of its jobs
    is completed; a completed job has no row. */
  lemma OutboxCorrespondence(cfg: Settings, run: Trace)
    requires IsRun(cfg, run)
    ensures var db := Reached(cfg, run).db;
      && (forall p :: p in db.photos && !db.photos[p].status.PendingDelete? ==>
            forall j :: 0 <= j < |db.jobs| ==> db.jobs[j].key != p)
      && (forall p :: p in db.photos && db.photos[p].status.PendingDelete? ==>
            exists j :: 0 <= j < |db.jobs| && db.jobs[j].key == p)
      && (forall j :: 0 <= j < |db.jobs| && db.jobs[j].key in db.photos ==> !db.jobs[j].status.Completed?)
  {
    InvHolds(cfg, run);
    var db := Reached(cfg, run).db;
    forall p | p in db.photos && db.photos[p].status.PendingDelete?
      ensures exists j :: 0 <= j < |db.jobs| && db.jobs[j].key == p
    {
      assert p in Queued(db.jobs);
    }
    assert forall j :: 0 <= j < |db.jobs| ==> db.jobs[j].key in Queued(db.jobs);
  }

  // ---- nothing else is lost ----

  lemma ReportsSame(cfg: Settings, s: State, e: Event)
    requires Enabled(cfg, s, e) && !e.WriteOutcome? && !e.ReportPhoto?
    ensures Apply(cfg, s, e).db.reports == s.db.reports
  {
    var t := Apply(cfg, s, e);
  }

  lemma ReportStep(cfg: Settings, s: State, e: Event, r: nat)
    requires Enabled(cfg, s, e) && r in s.db.reports && s.db.reports[r].photo in Apply(cfg, s, e).db.photos
    ensures r in Apply(cfg, s, e).db.reports && Apply(cfg, s, e).db.reports[r] == s.db.reports[r]
  {
    if !e.WriteOutcome? && !e.ReportPhoto? {
      ReportsSame(cfg, s, e);
    }
  }

  /** A committed report stays as it is for as long as the row of its photo exists. */
  lemma {:induction false} ReportStays(cfg: Settings, run: Trace, more: Trace, r: nat)
    requires IsRun(cfg, run) && r in Reached(cfg, run).db.reports && Valid(cfg, Reached(cfg, run), more)
    requires Reached(cfg, run).db.reports[r].photo in End(cfg, Reached(cfg, run), more).db.photos
    ensures r in End(cfg, Reached(cfg, run), more).db.reports
    ensures End(cfg, Reached(cfg, run), more).db.reports[r] == Reached(cfg, run).db.reports[r]
  {
    InvHolds(cfg, run);
    if more.Then? {
      var s := Reached(cfg, run);
      var t, p := End(cfg, s, more.before), s.db.reports[r].photo;
      InvKept(cfg, s, more.before);
      MintedStays(cfg, s, more.before, p);
      PhotoStep(cfg, t, more.event, p);
      ReportStays(cfg, run, more.before, r);
      ReportStep(cfg, t, more.event, r);
    }
  }

  lemma MintedStep(cfg: Settings, s: State, e: Event, p: PhotoId)
    requires Enabled(cfg, s, e) && p in s.minted
    ensures p in Apply(cfg, s, e).minted
  {
    var t := Apply(cfg, s, e);
  }

  lemma {:induction false} MintedStays(cfg: Settings, s: State, run: Trace, p: PhotoId)
    requires Valid(cfg, s, run) && p in s.minted
    ensures p in End(cfg, s, run).minted
  {
    if run.Then? {
      MintedStays(cfg, s, run.before, p);
      MintedStep(cfg, End(cfg, s, run.before), run.event, p);
    }
  }

  /** No request is about to abandon the photo, having read it as a pending upload. */
  predicate NotAbandoned(s: State, p: PhotoId) {
    forall u :: u in s.uploads ==> s.uploads[u] != Abandoning(p)
  }

  predicate NoAdminDelete(run: Trace, p: PhotoId) {
    run.Then? ==> NoAdminDelete(run.before, p) && !(run.event.AdminDelete? && run.event.photo == p)
  }

  lemma NotAbandonedStep(cfg: Settings, s: State, e: Event, p: PhotoId)
    requires Enabled(cfg, s, e) && s.db.Has(p, Active) && NotAbandoned(s, p)
    ensures NotAbandoned(Apply(cfg, s, e), p)
  {
    var t := Apply(cfg, s, e);
  }

  lemma ActiveStep(cfg: Settings, s: State, e: Event, p: PhotoId)
    requires Enabled(cfg, s, e) && Inv(s) && s.db.Has(p, Active) && NotAbandoned(s, p)
    requires !(e.AdminDelete? && e.photo == p)
    ensures Apply(cfg, s, e).db.Has(p, Active)
  {
    var t := Apply(cfg, s, e);
    if p !in t.db.photos {
      PhotoGoes(cfg, s, e, p);
      assert false;
    }
  }

  /** Only an admin takes an active photo out of use: not the reaper, not a worker, and not the request that has
    uploaded it and, after a commit that raised, abandons it. */
  lemma {:induction false} ActiveStays(cfg: Settings, run: Trace, more: Trace, p: PhotoId)
    requires IsRun(cfg, run) && Reached(cfg, run).db.Has(p, Active) && NotAbandoned(Reached(cfg, run), p)
    requires Valid(cfg, Reached(cfg, run), more) && NoAdminDelete(more, p)
    ensures End(cfg, Reached(cfg, run), more).db.Has(p, Active) && NotAbandoned(End(cfg, Reached(cfg, run), more), p)
  {
    InvHolds(cfg, run);
    if more.Then? {
      ActiveStays(cfg, run, more.before, p);
      InvKept(cfg, Reached(cfg, run), more.before);
      ActiveStep(cfg, End(cfg, Reached(cfg, run), more.before), more.event, p);
      NotAbandonedStep(cfg, End(cfg, Reached(cfg, run), more.before), more.event, p);
    }
  }

  lemma SentStep(cfg: Settings, s: State, e: Event)
    requires Enabled(cfg, s, e)
    ensures s.puts <= Apply(cfg, s, e).puts && s.deletes <= Apply(cfg, s, e).deletes && s.commits <= Apply(cfg, s, e).commits
  {
    var t := Apply(cfg, s, e);
  }

  lemma {:induction false} SentStays(cfg: Settings, s: State, more: Trace)
    requires Valid(cfg, s, more)
    ensures var t := End(cfg, s, more); s.puts <= t.puts && s.deletes <= t.deletes && s.commits <= t.commits
  {
    if more.Then? {
      SentStays(cfg, s, more.before);
      SentStep(cfg, End(cfg, s, more.before), more.event);
    }
  }

  /** A request that was sent can take effect at any later time, and again. */
  lemma RequestsLandAnyTime(cfg: Settings, s: State, more: Trace, p: PhotoId)
    requires Valid(cfg, s, more)
    ensures var t := End(cfg, s, more);
      && (p in s.puts ==> Enabled(cfg, t, PutLands(p)) && Apply(cfg, t, PutLands(p)).store == t.store + {p})
      && (p in s.deletes ==> Enabled(cfg, t, DeleteLands(p)) && Apply(cfg, t, DeleteLands(p)).store == t.store - {p})
      && (p in s.commits && t.db.Has(p, PendingUpload) ==>
            Enabled(cfg, t, FinalizeLands(p)) && Apply(cfg, t, FinalizeLands(p)).db.Has(p, Active))
  {
    SentStays(cfg, s, more);
  }
}
