/** When the bucket can hold an object without a row. */
module Orphans {
  import opened Records
  import opened Protocol
  import opened Safety

  /** A put is late when its row is gone, or when the bucket has carried out a worker's delete that only has to be
    answered and recorded. */
  predicate Late(s: State, p: PhotoId) {
    p !in s.db.photos || exists w :: w in s.workers && s.workers[w].DeletedKey(p)
  }

  predicate Punctual(cfg: Settings, s: State, e: Event) {
    e.PutLands? ==> !Late(s, e.photo)
  }

  predicate OrphanFree(s: State) {
    && s.store <= s.db.photos.Keys
    && forall w, p :: w in s.workers && p in s.store ==> !s.workers[w].DeletedKey(p)
  }

  lemma DeletedKeyStep(cfg: Settings, s: State, e: Event, w: nat, p: PhotoId)
    requires Enabled(cfg, s, e) && w in Apply(cfg, s, e).workers && Apply(cfg, s, e).workers[w].DeletedKey(p)
    ensures w in s.workers && (s.workers[w].DeletedKey(p) || p !in Apply(cfg, s, e).store)
  {
    var t := Apply(cfg, s, e);
  }

  lemma StoredStep(cfg: Settings, s: State, e: Event, p: PhotoId)
    requires Enabled(cfg, s, e) && p in Apply(cfg, s, e).store
    ensures p in s.store || e == PutLands(p)
  {
    var t := Apply(cfg, s, e);
  }

  lemma OrphanFreeStep(cfg: Settings, s: State, e: Event)
    requires Enabled(cfg, s, e) && Inv(s) && OrphanFree(s)
    requires Punctual(cfg, s, e)
    ensures OrphanFree(Apply(cfg, s, e))
  {
    var t := Apply(cfg, s, e);
    forall p | p in t.store ensures p in t.db.photos {
      StoredStep(cfg, s, e, p);
      if p !in t.db.photos {
        PhotoGoes(cfg, s, e, p);
      }
    }
    forall w, p | w in t.workers && p in t.store ensures !t.workers[w].DeletedKey(p) {
      StoredStep(cfg, s, e, p);
      if t.workers[w].DeletedKey(p) {
        DeletedKeyStep(cfg, s, e, w, p);
      }
    }
  }

  lemma {:induction false} OrphanFreeKept(cfg: Settings, s: State, run: Trace)
    requires Inv(s) && OrphanFree(s) && Valid(cfg, s, run) && Throughout(cfg, s, run, Punctual)
    ensures OrphanFree(End(cfg, s, run))
  {
    if run.Then? {
      InvKept(cfg, s, run.before);
      OrphanFreeKept(cfg, s, run.before);
      OrphanFreeStep(cfg, End(cfg, s, run.before), run.event);
    }
  }

  /** Unless a put lands late, every stored object belongs to a row, wherever requests and workers crash. */
  lemma NoOrphans(cfg: Settings, run: Trace)
    requires IsRun(cfg, run) && Throughout(cfg, INITIAL, run, Punctual)
    ensures Reached(cfg, run).store <= Reached(cfg, run).db.photos.Keys
  {
    OrphanFreeKept(cfg, INITIAL, run);
  }

  /** The call is answered and the job row read. */
  lemma Answered(cfg: Settings, s: State, run: Trace, t: State, w: nat, p: PhotoId) returns (next: Trace, u: State)
    requires Valid(cfg, s, run) && t == End(cfg, s, run) && Throughout(cfg, s, run, Punctual)
    requires Known(t) && w in t.workers && t.workers[w].DeletedKey(p)
    ensures Valid(cfg, s, next) && u == End(cfg, s, next) && Throughout(cfg, s, next, Punctual)
    ensures w in u.workers && u.workers[w].phase.Recording? && u.workers[w].DeletedKey(p)
    ensures u.store == t.store && u.locks == t.locks
  {
    next, u := run, t;
    assert ClaimKnown(t.db.jobs, t.Next(w));
    if u.workers[w].phase.Deleting? {
      next, u := Go(cfg, s, next, u, DeleteOk(w));
    }
    if u.workers[w].phase.Deleted? {
      next, u := Go(cfg, s, next, u, ReadJob(w));
    }
  }

  /** A worker whose delete was carried out goes on to remove the row, and leaves the bucket as it is. */
  lemma WorkerRemovesRow(cfg: Settings, s: State, w: nat, p: PhotoId) returns (more: Trace)
    requires Inv(s) && w in s.workers && s.workers[w].DeletedKey(p)
    ensures Valid(cfg, s, more) && Throughout(cfg, s, more, Punctual)
    ensures var t := End(cfg, s, more); t.store == s.store && p !in t.db.photos
  {
    more := Release(cfg, s, Start, s.locks.Keys);
    var t := End(cfg, s, more);
    InvKept(cfg, s, more);
    more, t := Answered(cfg, s, more, t, w, p);
    InvKept(cfg, s, more);
    assert WorkerKnown(t.db.jobs, t.workers[w]) && ClaimKnown(t.db.jobs, t.Next(w));
    more, t := Go(cfg, s, more, t, WriteOutcome(w, t.clock, 0));
  }

  /** Without another late put, some continuation leaves an object without a row. */
  predicate LeadsToOrphan(cfg: Settings, s: State, more: Trace) {
    Valid(cfg, s, more) && Throughout(cfg, s, more, Punctual)
    && !(End(cfg, s, more).store <= End(cfg, s, more).db.photos.Keys)
  }

  /** Every late put can leave an orphan, however orderly everything else is. */
  lemma LatePutOrphans(cfg: Settings, run: Trace, p: PhotoId) returns (more: Trace)
    requires IsRun(cfg, run) && p in Reached(cfg, run).puts && Late(Reached(cfg, run), p)
    ensures LeadsToOrphan(cfg, Apply(cfg, Reached(cfg, run), PutLands(p)), more)
  {
    var s, t := Do(cfg, run, Reached(cfg, run), PutLands(p));
    InvHolds(cfg, s);
    if p in t.db.photos {
      var w :| w in t.workers && t.workers[w].DeletedKey(p);
      more := WorkerRemovesRow(cfg, t, w, p);
    } else {
      more := Start;
    }
    assert p in End(cfg, t, more).store && p !in End(cfg, t, more).db.photos;
  }

  /** The condition is exact: a put can be what leaves an orphan if and only if it is late. */
  lemma OrphanExactlyIfLate(cfg: Settings, run: Trace, p: PhotoId)
    requires IsRun(cfg, run) && Throughout(cfg, INITIAL, run, Punctual) && p in Reached(cfg, run).puts
    ensures Late(Reached(cfg, run), p) <==>
      exists more :: LeadsToOrphan(cfg, Apply(cfg, Reached(cfg, run), PutLands(p)), more)
  {
    if Late(Reached(cfg, run), p) {
      var more := LatePutOrphans(cfg, run, p);
    } else {
      var next, t := Do(cfg, run, Reached(cfg, run), PutLands(p));
      InvHolds(cfg, next);
      OrphanFreeKept(cfg, INITIAL, next);
      forall more | Valid(cfg, t, more) && Throughout(cfg, t, more, Punctual)
        ensures End(cfg, t, more).store <= End(cfg, t, more).db.photos.Keys
      {
        OrphanFreeKept(cfg, t, more);
      }
    }
  }

  /** And a put does come late in some run: the uploader stalls, and the bucket deletes the reaped photo's object. */
  lemma LatePutHappens(cfg: Settings) returns (run: Trace)
    requires cfg.batchSize > 0
    ensures IsRun(cfg, run)
    ensures 0 in Reached(cfg, run).puts && Late(Reached(cfg, run), 0)
  {
    var s;
    run, s := FirstClaimed(cfg, 7, Millis(cfg.uploadWindow) + 1);
    run, s := Do(cfg, run, s, SendDelete(7));
    run, s := Do(cfg, run, s, DeleteTakes(7));
    assert s.workers[7].DeletedKey(0);
  }
}
