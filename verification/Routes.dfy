/** The requests of app/routes/crane.py with the services of app/services/photo.py. Between two transactions of an
  upload, and while its put is under way, other processes do as they like. */
module Routes {
  import opened Records
  import opened Outbox
  import opened Protocol
  import Safety
  import Capacity
  import UploadWindow
  import opened Backend

  lemma Extend(cfg: Settings, from: Trace, run: Trace, e: Event) returns (next: Trace)
    requires IsRun(cfg, run) && Continues(from, run) && Enabled(cfg, Reached(cfg, run), e)
    ensures next == Then(run, e) && IsRun(cfg, next) && Continues(from, next)
    ensures Reached(cfg, next) == Apply(cfg, Reached(cfg, run), e)
  {
    next := Then(run, e);
  }

  /** Request u stands here. */
  ghost predicate Stands(b: World, u: nat, upload: Upload)
    requires IsRun(b.cfg, b.run)
    reads b
  {
    u in b.Here().uploads && b.Here().uploads[u] == upload
  }

  /** Others go on; request u stays where it is. */
  method Meanwhile(b: World, ghost from: Trace, ghost u: nat, ghost p: PhotoId)
    requires b.Valid() && Continues(from, b.run)
    modifies b
    ensures b.Valid() && Continues(from, b.run) && Continues(old(b.run), b.run)
    ensures Untouched(Uploading(u, p), old(b.Here()), b.Here())
    ensures b.clock >= old(b.clock) && (b.alone ==> b.Rows() == old(b.Rows()))
  {
    b.Others(Uploading(u, p));
    ContinuesTrans(from, old(b.run), b.run);
  }

  datatype Response =
    | Created          // 201
    | CraneNotFound    // 404
    | LimitExceeded    // the crane has all its photos
    | StorageFailed    // 503
    | UploadRace       // 503
    | SaveFailed       // 500, a database error
    | Unhandled        // 500, an exception that the route does not catch

  lemma CountRun(cfg: Settings, from: Trace, run: Trace, u: nat, crane: CraneId) returns (next: Trace)
    requires IsRun(cfg, run) && Continues(from, run) && u !in Reached(cfg, run).uploads
    requires CraneFree(Reached(cfg, run), crane)
    requires |OpenPhotos(Reached(cfg, run).db.photos, crane)| < MAX_PHOTOS_PER_CRANE
    ensures IsRun(cfg, next) && Continues(from, next)
    ensures Reached(cfg, next) == SetUpload(Reached(cfg, run), u, Counted(crane))
  {
    var s := Reached(cfg, run);
    next := Extend(cfg, from, run, LockCrane(u, crane));
    next := Extend(cfg, from, next, CountPhotos(u));
    assert s.uploads[u := Locked(crane)][u := Counted(crane)] == s.uploads[u := Counted(crane)];
  }

  datatype Room = HasRoom | NoCrane | Full

  /** ensure_crane_photo_capacity: the lock on the crane row has been granted. */
  method EnsureCranePhotoCapacity(b: World, ghost from: Trace, ghost u: nat, crane: CraneId, craneExists: bool)
      returns (r: Room)
    requires b.Valid() && Continues(from, b.run) && u !in b.Here().uploads && CraneFree(b.Here(), crane)
    modifies b`run
    ensures b.Valid() && Continues(from, b.run)
    ensures r.NoCrane? <==> !craneExists
    ensures r.Full? <==> craneExists && |Capacity.Taken(b.photos, crane)| >= 3
    ensures b.Here() == if r.HasRoom? then SetUpload(old(b.Here()), u, Counted(crane)) else old(b.Here())
  {
    if !craneExists {
      return NoCrane;
    }
    Capacity.TakenAreOpen(b.photos, crane);
    if |OpenPhotos(b.photos, crane)| >= MAX_PHOTOS_PER_CRANE {
      return Full;
    }
    b.run := CountRun(b.cfg, from, b.run, u, crane);
    return HasRoom;
  }

  /** The database part of preupload_crane_photo, to the commit. If the commit raises, the request ends, though the row may
    be there, and nobody abandons it. */
  method Preupload(b: World, ghost from: Trace, ghost u: nat, crane: CraneId, p: PhotoId, craneExists: bool)
      returns (r: Response)
    requires b.Valid() && Continues(from, b.run)
    requires u !in b.Here().uploads && p !in b.Here().minted && CraneFree(b.Here(), crane)
    modifies b
    ensures b.Valid() && Continues(from, b.run)
    ensures r.Created? || r.CraneNotFound? || r.LimitExceeded? || r.SaveFailed?
    ensures r.CraneNotFound? <==> !craneExists
    ensures r.LimitExceeded? <==> craneExists && |Capacity.Taken(old(b.photos), crane)| >= 3
    ensures r.SaveFailed? ==> !b.writesSucceed
    ensures r.CraneNotFound? || r.LimitExceeded? ==> b.Here() == old(b.Here())
    ensures r.Created? ==> Stands(b, u, Reserved(p)) && p in b.photos && p in b.Here().minted
    ensures r.Created? ==> old(b.clock) <= b.clock && UploadWindow.ReservedAt(b.run, p) == Some(b.clock)
    ensures b.alone && r.Created? ==>
      b.Rows() == old(b.Rows()).(photos := old(b.photos)[p := Photo(crane, PendingUpload, b.clock)])
    ensures p in b.photos ==> b.photos[p] == Photo(crane, PendingUpload, b.clock) && (r.Created? || r.SaveFailed?)
    ensures !r.Created? ==> u !in b.Here().uploads
  {
    Minted(b.cfg, b.run, p);
    var room := EnsureCranePhotoCapacity(b, from, u, crane, craneExists);
    if !room.HasRoom? {
      return if room.NoCrane? then CraneNotFound else LimitExceeded;
    }
    Meanwhile(b, from, u, p);
    var ok := InsertPhoto(b, from, u, crane, p);
    r := if ok then Created else SaveFailed;
  }

  lemma Minted(cfg: Settings, run: Trace, p: PhotoId)
    requires IsRun(cfg, run) && p !in Reached(cfg, run).minted
    ensures p !in Reached(cfg, run).db.photos
  {
    Safety.InvHolds(cfg, run);
  }

  /** The insert and its commit. */
  method InsertPhoto(b: World, ghost from: Trace, ghost u: nat, crane: CraneId, p: PhotoId) returns (ok: bool)
    requires b.Valid() && Continues(from, b.run) && Stands(b, u, Counted(crane)) && p !in b.Here().minted
    modifies b`photos, b`run
    ensures b.Valid() && Continues(from, b.run)
    ensures b.photos == old(b.photos)[p := Photo(crane, PendingUpload, b.clock)] || (!ok && b.photos == old(b.photos))
    ensures p !in old(b.photos)
    ensures b.writesSucceed ==> ok
    ensures if ok then Stands(b, u, Reserved(p)) else u !in b.Here().uploads
    ensures ok ==> p in b.Here().minted && UploadWindow.ReservedAt(b.run, p) == Some(b.clock)
  {
    Minted(b.cfg, b.run, p);
    var written;
    ok, written := b.Commit();
    if written {
      b.run := Extend(b.cfg, from, b.run, Reserve(u, p, b.clock));
      b.photos := b.photos[p := Photo(crane, PendingUpload, b.clock)];
    }
    if !ok {
      b.run := Extend(b.cfg, from, b.run, UploadEnds(u));
    }
  }

  datatype PutResult = PutStored | PutError | PutOther

  /** upload_photo of the storage service, outside any transaction: it may raise whether or not the object was stored.
    Errors other than those of the storage client are not translated and end the request. */
  method PutPhoto(b: World, ghost from: Trace, ghost u: nat, p: PhotoId) returns (r: PutResult)
    requires b.Valid() && Continues(from, b.run) && Stands(b, u, Reserved(p))
    modifies b
    ensures b.Valid() && Continues(from, b.run)
    ensures match r
      case PutStored => Stands(b, u, Stored(p)) && p in b.Here().landed
      case PutError => Stands(b, u, Failing(p))
      case PutOther => u !in b.Here().uploads
    ensures (r.PutError? ==> !b.putsSucceed) && (r.PutOther? ==> !b.uninterrupted)
  {
    b.run := Extend(b.cfg, from, b.run, SendPut(u));
    var stored := SendPhoto(b, from, u, p);
    var raised: bool := *;
    r := if raised && !b.uninterrupted then PutOther else PutStored;
    if r.PutStored? && !b.putsSucceed {
      var answered: bool := *;
      r := if stored && answered then PutStored else PutError;
    }
    b.run := Extend(b.cfg, from, b.run,
                    if r.PutStored? then PutOk(u) else if r.PutError? then PutFails(u) else UploadEnds(u));
  }

  /** The put takes effect or does not, and others go on. */
  method SendPhoto(b: World, ghost from: Trace, ghost u: nat, p: PhotoId) returns (stored: bool)
    requires b.Valid() && Continues(from, b.run) && Stands(b, u, Reserved(p)) && p in b.Here().puts
    modifies b
    ensures b.Valid() && Continues(from, b.run) && Stands(b, u, Reserved(p))
    ensures stored ==> p in b.Here().landed
    ensures b.putsSucceed ==> stored
  {
    stored := *;
    stored := stored || b.putsSucceed;
    if stored {
      b.run := Extend(b.cfg, from, b.run, PutLands(p));
      b.store := b.store + {p};
    }
    ghost var sent := b.run;
    Meanwhile(b, from, u, p);
    OnlyGrows(b.cfg, sent, b.run);
  }

  /** finalize_crane_photo and its commit, whose failure leaves open whether the row was written. */
  method FinalizeCranePhoto(b: World, ghost from: Trace, ghost u: nat, p: PhotoId) returns (r: Response)
    requires b.Valid() && Continues(from, b.run) && Stands(b, u, Stored(p))
    modifies b`photos, b`run
    ensures b.Valid() && Continues(from, b.run)
    ensures r.Created? || r.UploadRace? || r.SaveFailed?
    ensures r.SaveFailed? ==> !b.writesSucceed
    ensures r.Created? ==> old(b.Rows()).Has(p, PendingUpload)
    ensures r.UploadRace? ==> !old(b.Rows()).Has(p, PendingUpload)
    ensures r.UploadRace? ==>
      && UploadWindow.ReservedAt(old(b.run), p).Some?
      && b.clock > UploadWindow.ReservedAt(old(b.run), p).value + 1000 * b.cfg.uploadWindow
    ensures b.photos == old(b.photos)
      || (old(b.Rows()).Has(p, PendingUpload) && b.photos == old(b.photos)[p := old(b.photos)[p].(status := Active)])
    ensures r.Created? ==> b.Rows().Has(p, Active)
    ensures if r.Created? then u !in b.Here().uploads else Stands(b, u, Failing(p))
  {
    UploadWindow.NotReapedEarly(b.cfg, b.run, u, p);
    var ok, written := b.Commit();
    var pending := b.Rows().Has(p, PendingUpload);
    if !ok {
      b.run := Extend(b.cfg, from, b.run, FinalizeFails(u));
      if written && pending {
        b.run := Extend(b.cfg, from, b.run, FinalizeLands(p));
      }
    } else {
      b.run := Extend(b.cfg, from, b.run, Finalize(u));
    }
    if written && pending {
      b.photos := b.photos[p := b.photos[p].(status := Active)];
    }
    r := if !ok then SaveFailed else if pending then Created else UploadRace;
  }

  /** _abandon_helper with abandon_crane_photo_upload: its read takes no lock, so others may act before its write. An
    error is only logged. Unless it fails, the photo is no longer a pending upload. */
  method AbandonCranePhotoUpload(b: World, ghost from: Trace, ghost u: nat, p: PhotoId)
    requires b.Valid() && Continues(from, b.run) && Stands(b, u, Failing(p))
    modifies b
    ensures b.Valid() && Continues(from, b.run)
    ensures u !in b.Here().uploads
    ensures b.writesSucceed ==> !b.Rows().Has(p, PendingUpload)
    ensures !(p in old(b.photos) && old(b.photos)[p].status.PendingUpload?) ==> b.Rows() == old(b.Rows())
  {
    var pending := b.Rows().Has(p, PendingUpload);
    b.run := Extend(b.cfg, from, b.run, AbandonSelect(u));
    if pending {
      Meanwhile(b, from, u, p);
      WriteAbandon(b, from, u, p);
    }
  }

  /** The update is by the primary key, whatever the row has become since it was read. */
  method WriteAbandon(b: World, ghost from: Trace, ghost u: nat, p: PhotoId)
    requires b.Valid() && Continues(from, b.run) && Stands(b, u, Abandoning(p))
    modifies b`photos, b`jobs, b`run
    ensures b.Valid() && Continues(from, b.run)
    ensures u !in b.Here().uploads
    ensures b.Rows() == old(b.Rows()) || (p in old(b.photos) && b.Rows() == QueueDelete(old(b.Rows()), p, b.clock))
    ensures b.writesSucceed && p in old(b.photos) ==> b.Rows().Has(p, PendingDelete)
  {
    var ok, written := b.Commit();
    if !written {
      b.run := Extend(b.cfg, from, b.run, UploadEnds(u));
    } else {
      b.run := Extend(b.cfg, from, b.run, AbandonWrite(u, b.clock));
      if p in b.photos {
        var rows := QueueDelete(b.Rows(), p, b.clock);
        b.photos, b.jobs := rows.photos, rows.jobs;
      }
    }
  }

  /** An exception that the route does not catch: it may come at any point, and the request ends with it. */
  method Interrupted(b: World, ghost from: Trace, ghost u: nat, p: PhotoId, ghost at: Upload) returns (raised: bool)
    requires b.Valid() && Continues(from, b.run) && Stands(b, u, at)
    modifies b
    ensures b.Valid() && Continues(from, b.run)
    ensures if raised then u !in b.Here().uploads else Stands(b, u, at)
    ensures raised ==> !b.uninterrupted
  {
    Meanwhile(b, from, u, p);
    raised := *;
    raised := raised && !b.uninterrupted;
    if raised {
      b.run := Extend(b.cfg, from, b.run, UploadEnds(u));
    }
  }

  /** upload_crane_photo: reserve and commit, put, finalize and commit; on an error that the route catches after the
    reservation, abandon. If nothing fails and the upload stays within its window it is created. Only a request that ends
    in another exception, or whose writes fail, leaves a pending upload. */
  method UploadCranePhoto(b: World, ghost u: nat, crane: CraneId, p: PhotoId, craneExists: bool) returns (r: Response)
    requires b.Valid() && u !in b.Here().uploads && p !in b.Here().minted && CraneFree(b.Here(), crane)
    modifies b
    ensures b.Valid() && Continues(old(b.run), b.run)
    ensures u !in b.Here().uploads
    ensures r.Created? ==> b.Rows().Has(p, Active) && p in b.store
    ensures r.CraneNotFound? <==> !craneExists
    ensures r.LimitExceeded? <==> craneExists && |Capacity.Taken(old(b.photos), crane)| >= 3
    ensures r.SaveFailed? ==> !b.writesSucceed
    ensures r.StorageFailed? ==> !b.putsSucceed
    ensures r.Unhandled? ==> !b.uninterrupted
    ensures r.UploadRace? ==> b.clock > old(b.clock) + 1000 * b.cfg.uploadWindow
    ensures b.Rows().Has(p, PendingUpload) ==> r.Unhandled? || !b.writesSucceed
  {
    ghost var from := b.run;
    r := Preupload(b, from, u, crane, p, craneExists);
    if r.Created? {
      r := StoreAndFinalize(b, from, u, p);
    }
  }

  method StoreAndFinalize(b: World, ghost from: Trace, ghost u: nat, p: PhotoId) returns (r: Response)
    requires b.Valid() && Continues(from, b.run) && Stands(b, u, Reserved(p)) && p in b.Here().minted
    requires UploadWindow.ReservedAt(b.run, p) == Some(b.clock)
    modifies b
    ensures b.Valid() && Continues(from, b.run) && u !in b.Here().uploads
    ensures r.Created? || r.StorageFailed? || r.UploadRace? || r.SaveFailed? || r.Unhandled?
    ensures r.Created? ==> b.Rows().Has(p, Active) && p in b.store
    ensures r.SaveFailed? ==> !b.writesSucceed
    ensures r.StorageFailed? ==> !b.putsSucceed
    ensures r.Unhandled? ==> !b.uninterrupted
    ensures r.UploadRace? ==> b.clock > old(b.clock) + 1000 * b.cfg.uploadWindow
    ensures b.Rows().Has(p, PendingUpload) ==> r.Unhandled? || !b.writesSucceed
  {
    ghost var begin := b.run;
    var put := TryPut(b, begin, u, p);
    ContinuesTrans(from, begin, b.run);
    if put.PutOther? {
      return Unhandled;
    }
    if put.PutStored? {
      UploadWindow.ReservedOnce(b.cfg, begin, b.run, p);
      OnlyGrows(b.cfg, begin, b.run);
      r := FinalizeCranePhoto(b, from, u, p);
      if r.Created? {
        Safety.ActiveHasObject(b.cfg, b.run, p);
        return;
      }
    } else {
      r := StorageFailed;
    }
    var interrupted := GiveUp(b, from, u, p);
    if interrupted {
      r := Unhandled;
    }
  }

  /** The put, and what others do before and after it. */
  method TryPut(b: World, ghost from: Trace, ghost u: nat, p: PhotoId) returns (r: PutResult)
    requires b.Valid() && Continues(from, b.run) && Stands(b, u, Reserved(p))
    modifies b
    ensures b.Valid() && Continues(from, b.run)
    ensures match r
      case PutStored => Stands(b, u, Stored(p))
      case PutError => Stands(b, u, Failing(p))
      case PutOther => u !in b.Here().uploads
    ensures (r.PutError? ==> !b.putsSucceed) && (r.PutOther? ==> !b.uninterrupted)
  {
    var interrupted := Interrupted(b, from, u, p, Reserved(p));
    if interrupted {
      return PutOther;
    }
    r := PutPhoto(b, from, u, p);
    if r.PutStored? {
      interrupted := Interrupted(b, from, u, p, Stored(p));
      if interrupted {
        return PutOther;
      }
    }
  }

  /** The except branches: abandon, unless something else intervenes. */
  method GiveUp(b: World, ghost from: Trace, ghost u: nat, p: PhotoId) returns (interrupted: bool)
    requires b.Valid() && Continues(from, b.run) && Stands(b, u, Failing(p))
    modifies b
    ensures b.Valid() && Continues(from, b.run) && u !in b.Here().uploads && b.clock >= old(b.clock)
    ensures interrupted ==> !b.uninterrupted
    ensures b.Rows().Has(p, PendingUpload) ==> interrupted || !b.writesSucceed
  {
    ghost var begin := b.run;
    interrupted := Interrupted(b, begin, u, p, Failing(p));
    if !interrupted {
      AbandonCranePhotoUpload(b, begin, u, p);
    }
    OnlyGrows(b.cfg, begin, b.run);
    ContinuesTrans(from, begin, b.run);
  }

  // ---- single transactions ----

  datatype DeleteResponse = Removed | NoSuchPhoto | DeleteFailed

  /** delete_crane_photo: only an active photo of this crane, whose row and job change together or not at all. */
  method DeleteCranePhoto(b: World, crane: CraneId, p: PhotoId) returns (r: DeleteResponse)
    requires b.Valid()
    modifies b`photos, b`jobs, b`run
    ensures b.Valid() && Continues(old(b.run), b.run)
    ensures r.NoSuchPhoto? <==> !(old(b.Rows()).Has(p, Active) && old(b.photos)[p].crane == crane)
    ensures b.writesSucceed ==> !r.DeleteFailed?
    ensures b.Rows() == old(b.Rows())
      || (p in old(b.photos) && b.photos == old(b.photos)[p := Photo(crane, PendingDelete, old(b.photos)[p].addedAt)]
          && b.jobs == old(b.jobs) + [Job(p, Pending, 0, b.clock, None, b.clock)])
    ensures r.Removed? ==> b.Rows().Has(p, PendingDelete)
    ensures r.NoSuchPhoto? ==> b.Rows() == old(b.Rows())
  {
    if !(b.Rows().Has(p, Active) && b.photos[p].crane == crane) {
      return NoSuchPhoto;
    }
    var ok, written := b.Commit();
    if written {
      b.run := Extend(b.cfg, b.run, b.run, AdminDelete(p, b.clock));
      var rows := QueueDelete(b.Rows(), p, b.clock);
      b.photos, b.jobs := rows.photos, rows.jobs;
    }
    r := if ok then Removed else DeleteFailed;
  }

  datatype ReportResponse = Reported | AlreadyReported | PhotoNotFound | ReportFailed

  /** report_crane_photo: one report for each photo and reporter. */
  method ReportCranePhoto(b: World, crane: CraneId, p: PhotoId, reporter: Reporter, id: nat) returns (r: ReportResponse)
    requires b.Valid() && id !in b.reports
    modifies b`reports, b`run
    ensures b.Valid() && Continues(old(b.run), b.run)
    ensures r.PhotoNotFound? <==> !(b.Rows().Has(p, Active) && b.photos[p].crane == crane)
    ensures b.writesSucceed ==> !r.ReportFailed?
    ensures r.AlreadyReported? ==> reporter in Reporters(old(b.Rows()), p)
    ensures r.Reported? ==> reporter !in Reporters(old(b.Rows()), p) && reporter in Reporters(b.Rows(), p)
    ensures b.reports == old(b.reports)
      || (reporter !in Reporters(old(b.Rows()), p) && b.reports == old(b.reports)[id := Report(p, reporter)]
          && (r.Reported? || r.ReportFailed?))
  {
    if !(b.Rows().Has(p, Active) && b.photos[p].crane == crane) {
      return PhotoNotFound;
    }
    var first := reporter !in Reporters(b.Rows(), p);
    var ok, written := b.Commit();
    if written {
      b.run := Extend(b.cfg, b.run, b.run, ReportPhoto(p, reporter, id));
      if first {
        b.reports := b.reports[id := Report(p, reporter)];
        assert b.reports[id] == Report(p, reporter);
      }
    }
    r := if !ok then ReportFailed else if first then Reported else AlreadyReported;
  }
}
