/** How much can still be recorded: a bound on the outcomes of all workers together, in every run. */
module Work {
  import opened Records
  import Outbox
  import opened Protocol
  import Safety
  import Leases
  import Accounting
  import opened Weights

  /** The weight of the jobs and uploads that an event adds. An upload brings its weight along; a job that is queued for a
    pending upload takes its weight over, and any other job brings its own. */
  function AddedBy(cfg: Settings, s: State, e: Event): nat {
    match e
    case Reserve(u, p, addedAt) => UploadWeight(cfg)
    case AdminDelete(p, now) => Max(cfg.maxAttempts, 1)
    case AbandonWrite(u, now) =>
      if u in s.uploads && s.uploads[u].Abandoning? && s.uploads[u].photo in s.db.photos
         && !s.db.Has(s.uploads[u].photo, PendingUpload)
      then Max(cfg.maxAttempts, 1) else 0
    case _ => 0
  }

  function Added(cfg: Settings, s: State, run: Trace): nat
    requires Valid(cfg, s, run)
  {
    if run.Start? then 0 else Added(cfg, s, run.before) + AddedBy(cfg, End(cfg, s, run.before), run.event)
  }

  /** The outcomes that workers record in the run, of whatever job. */
  function Recordings(run: Trace): nat {
    if run.Start? then 0 else Recordings(run.before) + if run.event.WriteOutcome? then 1 else 0
  }

  // ---- one event ----

  lemma UploadsWeigh(cfg: Settings, before: map<PhotoId, Photo>, after: map<PhotoId, Photo>)
    requires Uploads(after) <= Uploads(before)
    ensures UploadWeight(cfg) * |Uploads(after)| <= UploadWeight(cfg) * |Uploads(before)|
  {
    var k, m, n := UploadWeight(cfg), |Uploads(after)|, |Uploads(before)|;
    SubsetSmaller(Uploads(after), Uploads(before));
    Product(k, n - m);
    assert k * n == k * m + k * (n - m);
  }

  lemma ReserveWeighs(cfg: Settings, db: Db, p: PhotoId, photo: Photo)
    requires photo.status.PendingUpload?
    ensures TotalWeight(cfg, db.(photos := db.photos[p := photo])) <= TotalWeight(cfg, db) + UploadWeight(cfg)
  {
    var before, after := Uploads(db.photos), Uploads(db.photos[p := photo]);
    var k, m, n := UploadWeight(cfg), |after|, |before|;
    SubsetSmaller(after, before + {p});
    Product(k, n + 1 - m);
    assert k * n + k == k * m + k * (n + 1 - m);
  }

  lemma SameUploads(cfg: Settings, before: Db, after: Db, more: int)
    requires Uploads(after.photos) == Uploads(before.photos)
    requires Weight(cfg, after.jobs, None) == Weight(cfg, before.jobs, None) + more
    ensures TotalWeight(cfg, after) == TotalWeight(cfg, before) + more
  {
  }

  /** A job for a row that is not a pending upload brings its own weight. */
  lemma QueueAdds(cfg: Settings, db: Db, p: PhotoId, now: Time)
    requires p in db.photos && !db.photos[p].status.PendingUpload?
    ensures TotalWeight(cfg, Outbox.QueueDelete(db, p, now)) == TotalWeight(cfg, db) + Max(cfg.maxAttempts, 1)
  {
    var after := Outbox.QueueDelete(db, p, now);
    WeightAppend(cfg, db.jobs, Job(p, Pending, 0, now, None, now), None);
    SameUploads(cfg, db, after, Max(cfg.maxAttempts, 1));
  }

  lemma OutcomeWeighs(cfg: Settings, s: State, e: Event)
    requires Enabled(cfg, s, e) && e.WriteOutcome? && Leases.NoSteal(cfg, s, e) && Leases.Holders(s)
    ensures TotalWeight(cfg, Apply(cfg, s, e).db) + 1 <= TotalWeight(cfg, s.db)
  {
    var t, j := Apply(cfg, s, e), s.Next(e.w).job;
    Accounting.RowStep(cfg, s, e, j);
    Safety.JobsStep(cfg, s, e);
    WeightUpdate(cfg, s.db.jobs, j, t.db.jobs[j], None);
    UploadsWeigh(cfg, s.db.photos, t.db.photos);
  }

  /** No other event queues a job or adds an upload. */
  lemma QuietStep(cfg: Settings, s: State, e: Event)
    requires Enabled(cfg, s, e) && !e.WriteOutcome? && !e.ClaimBatch? && !e.Reserve?
    requires !e.AdminDelete? && !e.Reap? && !e.AbandonWrite?
    ensures var t := Apply(cfg, s, e); t.db.jobs == s.db.jobs && Uploads(t.db.photos) <= Uploads(s.db.photos)
  {
    var t := Apply(cfg, s, e);
    forall p | p in Uploads(t.db.photos) ensures p in Uploads(s.db.photos) {
      Safety.PhotoStep(cfg, s, e, p);
    }
  }

  lemma AbandonWeighs(cfg: Settings, s: State, e: Event)
    requires Enabled(cfg, s, e) && e.AbandonWrite?
    ensures TotalWeight(cfg, Apply(cfg, s, e).db) <= TotalWeight(cfg, s.db) + AddedBy(cfg, s, e)
  {
    var p := s.uploads[e.u].photo;
    if s.db.Has(p, PendingUpload) {
      QueueWeight(cfg, s.db, p, e.now);
    } else if p in s.db.photos {
      QueueAdds(cfg, s.db, p, e.now);
    }
  }

  lemma QueueStep(cfg: Settings, s: State, e: Event)
    requires Enabled(cfg, s, e) && (e.AdminDelete? || e.Reap? || e.AbandonWrite?)
    ensures TotalWeight(cfg, Apply(cfg, s, e).db) <= TotalWeight(cfg, s.db) + AddedBy(cfg, s, e)
  {
    if e.AdminDelete? {
      QueueAdds(cfg, s.db, e.photo, e.now);
    } else if e.Reap? {
      QueueWeight(cfg, s.db, e.photo, e.now);
    } else {
      AbandonWeighs(cfg, s, e);
    }
  }

  lemma ReserveStep(cfg: Settings, s: State, e: Event)
    requires Enabled(cfg, s, e) && e.Reserve?
    ensures TotalWeight(cfg, Apply(cfg, s, e).db) <= TotalWeight(cfg, s.db) + AddedBy(cfg, s, e)
  {
    ReserveWeighs(cfg, s.db, e.photo, Photo(s.uploads[e.u].crane, PendingUpload, e.addedAt));
  }

  lemma OtherStep(cfg: Settings, s: State, e: Event)
    requires Enabled(cfg, s, e) && !e.WriteOutcome? && !e.Reserve? && !e.AdminDelete? && !e.Reap? && !e.AbandonWrite?
    ensures TotalWeight(cfg, Apply(cfg, s, e).db) <= TotalWeight(cfg, s.db)
  {
    if e.ClaimBatch? {
      ClaimWeight(cfg, s.db.jobs, e.ids, e.now, None);
    } else {
      QuietStep(cfg, s, e);
      UploadsWeigh(cfg, s.db.photos, Apply(cfg, s, e).db.photos);
    }
  }

  lemma WorkStep(cfg: Settings, s: State, e: Event)
    requires Enabled(cfg, s, e) && Leases.NoSteal(cfg, s, e) && Leases.Holders(s)
    ensures TotalWeight(cfg, Apply(cfg, s, e).db) + (if e.WriteOutcome? then 1 else 0)
      <= TotalWeight(cfg, s.db) + AddedBy(cfg, s, e)
  {
    if e.WriteOutcome? {
      OutcomeWeighs(cfg, s, e);
    } else if e.Reserve? {
      ReserveStep(cfg, s, e);
    } else if e.AdminDelete? || e.Reap? || e.AbandonWrite? {
      QueueStep(cfg, s, e);
    } else {
      OtherStep(cfg, s, e);
    }
  }

  // ---- all runs ----

  /** If no job is claimed from a live worker, all outcomes that any number of workers record in a continuation, and the
    work that is left after it, come to no more than the work that was there and the work that was added. */
  lemma {:induction false} WorkBounded(cfg: Settings, run: Trace, more: Trace)
    requires IsRun(cfg, run) && Throughout(cfg, INITIAL, run, Leases.NoSteal)
    requires Valid(cfg, Reached(cfg, run), more) && Throughout(cfg, Reached(cfg, run), more, Leases.NoSteal)
    ensures Leases.Holders(End(cfg, Reached(cfg, run), more))
    ensures var s := Reached(cfg, run);
      Recordings(more) + TotalWeight(cfg, End(cfg, s, more).db) <= TotalWeight(cfg, s.db) + Added(cfg, s, more)
  {
    if more.Then? {
      WorkBounded(cfg, run, more.before);
      var t := End(cfg, Reached(cfg, run), more.before);
      WorkStep(cfg, t, more.event);
      Leases.HoldersStep(cfg, t, more.event);
    } else {
      Leases.HoldersKept(cfg, run);
    }
  }
}
