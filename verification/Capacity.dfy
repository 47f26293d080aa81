/** The limit on the photos of a crane, with the check, the insert and the commit of preupload_crane_photo apart. */
module Capacity {
  import opened Records
  import Outbox
  import opened Protocol
  import Safety

  function OpenCount(s: State, crane: CraneId): nat {
    |Outbox.OpenPhotos(s.db.photos, crane)|
  }

  /** The crane row is locked by one request at a time. */
  predicate Exclusive(s: State, crane: CraneId) {
    forall u, v :: u in s.uploads && v in s.uploads && u != v ==>
      !(s.uploads[u].HoldsCrane(crane) && s.uploads[v].HoldsCrane(crane))
  }

  /** The limit holds, and a request that has counted can still insert its row. */
  predicate Within(s: State, crane: CraneId) {
    && OpenCount(s, crane) <= MAX_PHOTOS_PER_CRANE
    && forall u :: u in s.uploads && s.uploads[u] == Counted(crane) ==> OpenCount(s, crane) < MAX_PHOTOS_PER_CRANE
  }

  /** A request that holds the crane row held it before or has just been granted the lock. */
  lemma HoldsStep(cfg: Settings, s: State, e: Event, u: nat, crane: CraneId)
    requires Enabled(cfg, s, e) && u in Apply(cfg, s, e).uploads && Apply(cfg, s, e).uploads[u].HoldsCrane(crane)
    ensures (u in s.uploads && s.uploads[u].HoldsCrane(crane)) || e == LockCrane(u, crane)
    ensures e.Reserve? ==> e.u != u
  {
    var t := Apply(cfg, s, e);
  }

  lemma ExclusiveStep(cfg: Settings, s: State, e: Event, crane: CraneId)
    requires cfg.lockCrane && Enabled(cfg, s, e) && Exclusive(s, crane)
    ensures Exclusive(Apply(cfg, s, e), crane)
  {
    var t := Apply(cfg, s, e);
    forall u, v | u in t.uploads && v in t.uploads && t.uploads[u].HoldsCrane(crane) && t.uploads[v].HoldsCrane(crane)
      ensures u == v
    {
      HoldsStep(cfg, s, e, u, crane);
      HoldsStep(cfg, s, e, v, crane);
    }
  }

  /** Apart from the insert, no transaction adds an open photo. */
  lemma OpenCountStep(cfg: Settings, s: State, e: Event, crane: CraneId)
    requires Enabled(cfg, s, e)
    ensures var n, m := OpenCount(s, crane), OpenCount(Apply(cfg, s, e), crane);
      m <= n || (e.Reserve? && s.uploads[e.u].crane == crane && m <= n + 1)
  {
    var before, after := Outbox.OpenPhotos(s.db.photos, crane), Outbox.OpenPhotos(Apply(cfg, s, e).db.photos, crane);
    forall p | p in after
      ensures p in before || (e.Reserve? && e.photo == p && s.uploads[e.u].crane == crane)
    {
      Safety.PhotoStep(cfg, s, e, p);
    }
    if e.Reserve? && s.uploads[e.u].crane == crane {
      SubsetSmaller(after, before + {e.photo});
    } else {
      SubsetSmaller(after, before);
    }
  }

  /** A request that has counted did so before, or just now below the limit. */
  lemma CountedStep(cfg: Settings, s: State, e: Event, u: nat, crane: CraneId)
    requires Enabled(cfg, s, e) && u in Apply(cfg, s, e).uploads && Apply(cfg, s, e).uploads[u] == Counted(crane)
    ensures u in s.uploads && s.uploads[u].HoldsCrane(crane) && !(e.Reserve? && e.u == u)
    ensures s.uploads[u] == Counted(crane) || OpenCount(Apply(cfg, s, e), crane) < MAX_PHOTOS_PER_CRANE
  {
    var t := Apply(cfg, s, e);
  }

  lemma WithinStep(cfg: Settings, s: State, e: Event, crane: CraneId)
    requires Enabled(cfg, s, e) && Exclusive(s, crane) && Within(s, crane)
    ensures Within(Apply(cfg, s, e), crane)
  {
    var t := Apply(cfg, s, e);
    OpenCountStep(cfg, s, e, crane);
    forall u | u in t.uploads && t.uploads[u] == Counted(crane) ensures OpenCount(t, crane) < MAX_PHOTOS_PER_CRANE {
      CountedStep(cfg, s, e, u, crane);
    }
  }

  lemma {:induction false} CapacityHeld(cfg: Settings, run: Trace, crane: CraneId)
    requires cfg.lockCrane && IsRun(cfg, run)
    ensures Exclusive(Reached(cfg, run), crane) && Within(Reached(cfg, run), crane)
  {
    if run.Then? {
      var s, e := Reached(cfg, run.before), run.event;
      CapacityHeld(cfg, run.before, crane);
      ExclusiveStep(cfg, s, e, crane);
      WithinStep(cfg, s, e, crane);
    } else {
      assert Outbox.OpenPhotos(INITIAL.db.photos, crane) == {};
    }
  }

  /** The photos of a crane that are active or awaiting their upload. */
  function Taken(photos: map<PhotoId, Photo>, crane: CraneId): set<PhotoId> {
    set p | p in photos && photos[p].crane == crane && (photos[p].status.Active? || photos[p].status.PendingUpload?)
  }

  lemma TakenAreOpen(photos: map<PhotoId, Photo>, crane: CraneId)
    ensures Taken(photos, crane) == Outbox.OpenPhotos(photos, crane)
  {
  }

  /** No run ever leaves a crane more than three of them. */
  lemma AtMostThreePhotos(cfg: Settings, run: Trace, crane: CraneId)
    requires cfg.lockCrane && IsRun(cfg, run)
    ensures |Taken(Reached(cfg, run).db.photos, crane)| <= 3
  {
    CapacityHeld(cfg, run, crane);
    TakenAreOpen(Reached(cfg, run).db.photos, crane);
  }

  lemma UnlockedSelects(cfg: Settings) returns (run: Trace, s: State)
    requires !cfg.lockCrane
    ensures IsRun(cfg, run) && s == Reached(cfg, run)
    ensures s == INITIAL.(uploads := map[0 := Locked(0), 1 := Locked(0), 2 := Locked(0), 3 := Locked(0)])
  {
    run, s := Do(cfg, Start, INITIAL, LockCrane(0, 0));
    run, s := Do(cfg, run, s, LockCrane(1, 0));
    run, s := Do(cfg, run, s, LockCrane(2, 0));
    run, s := Do(cfg, run, s, LockCrane(3, 0));
  }

  lemma UnlockedCounts(cfg: Settings) returns (run: Trace, s: State)
    requires !cfg.lockCrane
    ensures IsRun(cfg, run) && s == Reached(cfg, run)
    ensures s == INITIAL.(uploads := map[0 := Counted(0), 1 := Counted(0), 2 := Counted(0), 3 := Counted(0)])
  {
    run, s := UnlockedSelects(cfg);
    assert Outbox.OpenPhotos(s.db.photos, 0) == {};
    run, s := Do(cfg, run, s, CountPhotos(0));
    run, s := Do(cfg, run, s, CountPhotos(1));
    run, s := Do(cfg, run, s, CountPhotos(2));
    run, s := Do(cfg, run, s, CountPhotos(3));
  }

  lemma UnlockedReserves(cfg: Settings) returns (run: Trace, s: State)
    requires !cfg.lockCrane
    ensures IsRun(cfg, run) && s == Reached(cfg, run) && s.clock == 0
    ensures s.db.photos == map[0 := Photo(0, PendingUpload, 0), 1 := Photo(0, PendingUpload, 0)]
    ensures s.minted == {0, 1} && s.uploads.Keys == {0, 1, 2, 3}
    ensures s.uploads[2] == Counted(0) && s.uploads[3] == Counted(0)
  {
    run, s := UnlockedCounts(cfg);
    run, s := Do(cfg, run, s, Reserve(0, 0, 0));
    run, s := Do(cfg, run, s, Reserve(1, 1, 0));
  }

  /** Without the lock on the crane row four requests count an empty crane and all insert. */
  lemma UnlockedExceeds(cfg: Settings) returns (run: Trace)
    requires !cfg.lockCrane
    ensures IsRun(cfg, run)
    ensures OpenCount(Reached(cfg, run), 0) == MAX_PHOTOS_PER_CRANE + 1
  {
    var s;
    run, s := UnlockedReserves(cfg);
    run, s := Do(cfg, run, s, Reserve(2, 2, 0));
    run, s := Do(cfg, run, s, Reserve(3, 3, 0));
    assert Outbox.OpenPhotos(s.db.photos, 0) == {0, 1, 2, 3};
  }
}
