/** The reaper leaves an upload alone for its whole window: a request that finalizes in time finds its row as it left it. */
module UploadWindow {
  import opened Records
  import Outbox
  import opened Protocol
  import Safety
  import opened Jobs

  /** Where a request has committed its row and has not yet given the upload up. */
  predicate UnderWay(upload: Upload, p: PhotoId) {
    (upload.Reserved? || upload.Stored?) && upload.photo == p
  }

  /** When the row of the photo was added, by the run's own account. */
  function ReservedAt(run: Trace, p: PhotoId): Option<Time> {
    if run.Start? then None
    else if run.event.Reserve? && run.event.photo == p then Some(run.event.addedAt)
    else ReservedAt(run.before, p)
  }

  /** Until its window has passed the row of the request is the pending upload it has committed. */
  predicate InWindow(cfg: Settings, s: State, p: PhotoId, addedAt: Option<Time>) {
    && addedAt.Some? && p !in s.commits
    && (s.clock <= addedAt.value + 1000 * cfg.uploadWindow ==>
          p in s.db.photos && s.db.photos[p].status.PendingUpload? && s.db.photos[p].addedAt == addedAt.value)
  }

  lemma UnderWayStep(cfg: Settings, s: State, e: Event, u: nat, p: PhotoId)
    requires Enabled(cfg, s, e) && u in Apply(cfg, s, e).uploads && UnderWay(Apply(cfg, s, e).uploads[u], p)
    ensures (u in s.uploads && UnderWay(s.uploads[u], p)) || (e.Reserve? && e.u == u && e.photo == p)
  {
    var t := Apply(cfg, s, e);
  }

  lemma CommitsStep(cfg: Settings, s: State, e: Event, p: PhotoId)
    requires Enabled(cfg, s, e) && p in Apply(cfg, s, e).commits
    ensures p in s.commits || (e.FinalizeFails? && s.uploads[e.u].photo == p)
  {
    var t := Apply(cfg, s, e);
  }

  lemma TakenBy(cfg: Settings, s: State, e: Event, p: PhotoId)
    requires Enabled(cfg, s, e) && s.db.Has(p, PendingUpload) && Apply(cfg, s, e).db.Has(p, PendingDelete)
    ensures (e.Reap? && e.photo == p) || (e.AbandonWrite? && s.uploads[e.u].photo == p)
  {
    var t := Apply(cfg, s, e);
  }

  /** The row of a young upload is touched by no event of others. */
  lemma RowKept(cfg: Settings, s: State, e: Event, u: nat, p: PhotoId)
    requires Enabled(cfg, s, e) && Safety.Inv(s) && OneUpload(s)
    requires u in s.uploads && UnderWay(s.uploads[u], p) && s.db.Has(p, PendingUpload) && p !in s.commits
    requires u in Apply(cfg, s, e).uploads && UnderWay(Apply(cfg, s, e).uploads[u], p)
    requires s.clock <= s.db.photos[p].addedAt + 1000 * cfg.uploadWindow
    ensures p in Apply(cfg, s, e).db.photos && Apply(cfg, s, e).db.photos[p] == s.db.photos[p]
  {
    var t := Apply(cfg, s, e);
    assert s.uploads[u].For(p);
    if p in t.db.photos {
      Safety.PhotoStep(cfg, s, e, p);
      if t.db.photos[p].status.PendingDelete? {
        TakenBy(cfg, s, e, p);
      }
    } else {
      Safety.PhotoGoes(cfg, s, e, p);
      assert false;
    }
  }

  lemma InWindowStep(cfg: Settings, s: State, e: Event, u: nat, p: PhotoId, addedAt: Option<Time>)
    requires Enabled(cfg, s, e) && Safety.Inv(s) && OneUpload(s)
    requires u in s.uploads && UnderWay(s.uploads[u], p) && InWindow(cfg, s, p, addedAt)
    requires u in Apply(cfg, s, e).uploads && UnderWay(Apply(cfg, s, e).uploads[u], p)
    ensures InWindow(cfg, Apply(cfg, s, e), p, addedAt)
  {
    var t := Apply(cfg, s, e);
    assert s.uploads[u].For(p) && t.uploads[u].For(p);
    if p in t.commits {
      CommitsStep(cfg, s, e, p);
      assert s.uploads[e.u].For(p);
    }
    ClockStep(cfg, s, e);
    if s.clock <= addedAt.value + 1000 * cfg.uploadWindow {
      RowKept(cfg, s, e, u, p);
    }
  }

  lemma ClockStep(cfg: Settings, s: State, e: Event)
    requires Enabled(cfg, s, e)
    ensures s.clock <= Apply(cfg, s, e).clock
  {
    var t := Apply(cfg, s, e);
  }

  lemma ReserveStarts(cfg: Settings, s: State, e: Event)
    requires Enabled(cfg, s, e) && e.Reserve? && Safety.Inv(s)
    ensures InWindow(cfg, Apply(cfg, s, e), e.photo, Some(e.addedAt))
  {
  }

  /** In every run the row of a request under way is a pending upload for as long as the window since its reservation. */
  lemma {:induction false} NotReapedEarly(cfg: Settings, run: Trace, u: nat, p: PhotoId)
    requires IsRun(cfg, run) && u in Reached(cfg, run).uploads && UnderWay(Reached(cfg, run).uploads[u], p)
    ensures InWindow(cfg, Reached(cfg, run), p, ReservedAt(run, p))
  {
    var s, e := Reached(cfg, run.before), run.event;
    UnderWayStep(cfg, s, e, u, p);
    Safety.InvHolds(cfg, run.before);
    FewJobsKept(cfg, run.before, p);
    if u in s.uploads && UnderWay(s.uploads[u], p) {
      NotReapedEarly(cfg, run.before, u, p);
      assert s.uploads[u].For(p);
      InWindowStep(cfg, s, e, u, p, ReservedAt(run.before, p));
    } else {
      ReserveStarts(cfg, s, e);
    }
  }

  /** A request that finalizes within its window activates its photo: it never loses a race. */
  lemma FinalizeInTime(cfg: Settings, run: Trace, u: nat)
    requires IsRun(cfg, run) && Enabled(cfg, Reached(cfg, run), Finalize(u))
    requires var p := Reached(cfg, run).uploads[u].photo;
      ReservedAt(run, p).Some? ==> Reached(cfg, run).clock <= ReservedAt(run, p).value + 1000 * cfg.uploadWindow
    ensures Apply(cfg, Reached(cfg, run), Finalize(u)).db.Has(Reached(cfg, run).uploads[u].photo, Active)
  {
    NotReapedEarly(cfg, run, u, Reached(cfg, run).uploads[u].photo);
  }

  /** The time of a reservation is fixed once it was made. */
  lemma {:induction false} ReservedOnce(cfg: Settings, a: Trace, b: Trace, p: PhotoId)
    requires IsRun(cfg, a) && IsRun(cfg, b) && Continues(a, b) && p in Reached(cfg, a).minted
    ensures ReservedAt(b, p) == ReservedAt(a, p) && p in Reached(cfg, b).minted
  {
    if a != b {
      ReservedOnce(cfg, a, b.before, p);
      Safety.MintedStep(cfg, Reached(cfg, b.before), b.event, p);
    }
  }
}
