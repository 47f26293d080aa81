/** When a pending upload is left to the reaper: its request has ended without finalizing or abandoning it. */
module Attendance {
  import opened Records
  import opened Protocol
  import Safety
  import opened Jobs

  /** Every pending upload still has its request, which can finalize or abandon it. */
  predicate Attended(s: State) {
    forall p :: p in s.db.photos && s.db.photos[p].status.PendingUpload? ==> Open(s, p)
  }

  predicate AlwaysAttended(cfg: Settings, run: Trace)
    requires IsRun(cfg, run)
  {
    Attended(Reached(cfg, run)) && (run.Then? ==> AlwaysAttended(cfg, run.before))
  }

  /** A request ends while its photo is a pending upload: the reservation's commit has raised and yet been written, the
    abandoning has failed, the route does not catch the exception, or the process has crashed. */
  predicate Deserts(s: State, e: Event) {
    && e.UploadEnds? && e.u in s.uploads && !s.uploads[e.u].Locked? && !s.uploads[e.u].Counted?
    && s.db.Has(s.uploads[e.u].photo, PendingUpload)
  }

  predicate NotDeserting(cfg: Settings, s: State, e: Event) {
    !Deserts(s, e)
  }

  lemma AttendedKept(cfg: Settings, s: State, e: Event)
    requires Enabled(cfg, s, e) && Safety.Inv(s) && Attended(s) && NotDeserting(cfg, s, e)
    ensures Attended(Apply(cfg, s, e))
  {
    var t := Apply(cfg, s, e);
    forall p | p in t.db.photos && t.db.photos[p].status.PendingUpload? ensures Open(t, p) {
      Safety.PhotoStep(cfg, s, e, p);
      if e.Reserve? && e.photo == p {
        assert t.uploads[e.u].For(p);
      } else {
        var u :| u in s.uploads && s.uploads[u].For(p);
        RequestStays(cfg, s, e, u, p);
      }
    }
  }

  lemma RequestStays(cfg: Settings, s: State, e: Event, u: nat, p: PhotoId)
    requires Enabled(cfg, s, e) && u in s.uploads && s.uploads[u].For(p) && s.db.Has(p, PendingUpload)
    requires Apply(cfg, s, e).db.Has(p, PendingUpload) && NotDeserting(cfg, s, e)
    ensures u in Apply(cfg, s, e).uploads && Apply(cfg, s, e).uploads[u].For(p)
  {
    var t := Apply(cfg, s, e);
  }

  lemma DesertedStep(cfg: Settings, s: State, e: Event)
    requires Enabled(cfg, s, e) && OneUpload(s) && Deserts(s, e)
    ensures !Attended(Apply(cfg, s, e))
  {
    var p := s.uploads[e.u].photo;
    assert s.uploads[e.u].For(p);
    assert !Open(Apply(cfg, s, e), p);
  }

  /** In all states of a run every pending upload has its request, if and only if no request of the run ends while its
    photo is pending. */
  lemma {:induction false} AttendedIffNotDeserted(cfg: Settings, run: Trace)
    requires IsRun(cfg, run)
    ensures AlwaysAttended(cfg, run) <==> Throughout(cfg, INITIAL, run, NotDeserting)
  {
    if run.Then? {
      var s, e := Reached(cfg, run.before), run.event;
      AttendedIffNotDeserted(cfg, run.before);
      Safety.InvHolds(cfg, run.before);
      FewJobsKept(cfg, run.before, 0);
      if AlwaysAttended(cfg, run.before) {
        if Deserts(s, e) {
          DesertedStep(cfg, s, e);
        } else {
          AttendedKept(cfg, s, e);
        }
      }
    }
  }

  /** An unattended upload is beyond its request for ever: it stays as it is until the reaper takes it, unless a commit
    that has raised still lands. */
  lemma UnattendedStep(cfg: Settings, s: State, e: Event, p: PhotoId)
    requires Enabled(cfg, s, e) && Safety.Inv(s) && s.db.Has(p, PendingUpload) && !Open(s, p)
    ensures var t := Apply(cfg, s, e);
      || (t.db.Has(p, PendingUpload) && !Open(t, p) && t.db.photos[p] == s.db.photos[p])
      || (e.Reap? && e.photo == p && t.db.Has(p, PendingDelete))
      || (e == FinalizeLands(p) && t.db.Has(p, Active))
  {
    var t := Apply(cfg, s, e);
    if p !in t.db.photos {
      Safety.PhotoGoes(cfg, s, e, p);
      assert false;
    } else {
      Safety.PhotoStep(cfg, s, e, p);
      StaysUnattended(cfg, s, e, p);
    }
  }

  lemma StaysUnattended(cfg: Settings, s: State, e: Event, p: PhotoId)
    requires Enabled(cfg, s, e) && p in s.minted && !Open(s, p)
    ensures !Open(Apply(cfg, s, e), p)
  {
    var t := Apply(cfg, s, e);
    forall u | u in t.uploads ensures !t.uploads[u].For(p) {
      if t.uploads[u].For(p) {
        ForStep(cfg, s, e, u, p);
      }
    }
  }

  /** A request crashes right after its reservation. */
  lemma UploadCanBeDeserted(cfg: Settings) returns (run: Trace)
    ensures IsRun(cfg, run)
    ensures Reached(cfg, run).db.Has(0, PendingUpload) && !Open(Reached(cfg, run), 0)
  {
    var s;
    run, s := FirstReserved(cfg);
    run, s := Do(cfg, run, s, UploadEnds(0));
  }
}
