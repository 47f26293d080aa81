/** Reporting a crane as gone (app/services/crane.py), with the lock, the insert, the count, the flip and the commit
  apart, for any number of concurrent reporters. */
module GoneReports {
  import opened Records

  /** `locking` is how the code selects the crane row; without it only the counterexample runs. */
  datatype Config = Config(threshold: int, locking: bool)

  /** A transaction in progress; what it has written is not yet visible to others. */
  datatype Session =
    | Selected(crane: CraneId, reporter: Reporter)
    | Inserted(crane: CraneId, reporter: Reporter)
    | Counted(crane: CraneId, reporter: Reporter, count: nat)

  /** The committed rows. A unique constraint makes the reports of a crane a set of reporters. */
  datatype State = State(gone: set<CraneId>, reports: map<CraneId, set<Reporter>>, sessions: map<nat, Session>)
  {
    predicate Free(crane: CraneId) {
      forall s :: s in sessions ==> sessions[s].crane != crane
    }
  }

  const EMPTY := State({}, map[], map[])

  datatype Event =
    | CreateCrane(crane: CraneId)
    | Select(s: nat, crane: CraneId, reporter: Reporter)
    | Insert(s: nat)
    | Count(s: nat)
    | Commit(s: nat)
    | Abort(s: nat)  // an error or a crash

  predicate Enabled(cfg: Config, st: State, e: Event) {
    match e
    case CreateCrane(c) => c !in st.reports
    case Select(s, c, _) => s !in st.sessions && c in st.reports && (cfg.locking ==> st.Free(c))
    case Insert(s) => s in st.sessions && st.sessions[s].Selected? && st.sessions[s].crane in st.reports
    case Count(s) => s in st.sessions && st.sessions[s].Inserted? && st.sessions[s].crane in st.reports
    case Commit(s) => s in st.sessions && st.sessions[s].Counted? && st.sessions[s].crane in st.reports
    case Abort(s) => s in st.sessions
  }

  predicate Flips(cfg: Config, count: nat) {
    count != 0 && count >= cfg.threshold
  }

  function Apply(cfg: Config, st: State, e: Event): State
    requires Enabled(cfg, st, e)
  {
    match e
    case CreateCrane(c) => st.(reports := st.reports[c := {}])
    case Select(s, c, reporter) => st.(sessions := st.sessions[s := Selected(c, reporter)])
    case Insert(s) =>
      var Selected(c, reporter) := st.sessions[s];
      // a duplicate violates the constraint; the error ends the request without a commit
      if reporter in st.reports[c] then st.(sessions := st.sessions - {s})
      else st.(sessions := st.sessions[s := Inserted(c, reporter)])
    case Count(s) =>
      var Inserted(c, reporter) := st.sessions[s];
      st.(sessions := st.sessions[s := Counted(c, reporter, |st.reports[c] + {reporter}|)])
    case Commit(s) =>
      var Counted(c, reporter, count) := st.sessions[s];
      State(if Flips(cfg, count) then st.gone + {c} else st.gone,
            st.reports[c := st.reports[c] + {reporter}], st.sessions - {s})
    case Abort(s) => st.(sessions := st.sessions - {s})
  }

  /** The events of the reporters in order, the last one outermost. */
  datatype History = Quiet | After(before: History, event: Event)

  predicate ValidRun(cfg: Config, st: State, run: History)
    decreases run, 0
  {
    run.After? ==> ValidRun(cfg, st, run.before) && Enabled(cfg, Outcome(cfg, st, run.before), run.event)
  }

  function Outcome(cfg: Config, st: State, run: History): State
    requires ValidRun(cfg, st, run)
    decreases run, 1
  {
    if run.Quiet? then st else Apply(cfg, Outcome(cfg, st, run.before), run.event)
  }

  // ---- the status follows the number of reporters ----

  function Needed(cfg: Config): nat {
    if cfg.threshold < 1 then 1 else cfg.threshold
  }

  predicate SessionOk(st: State, session: Session) {
    && session.crane in st.reports
    && (!session.Selected? ==> session.reporter !in st.reports[session.crane])
    && (session.Counted? ==> session.count == |st.reports[session.crane]| + 1)
  }

  predicate Exact(cfg: Config, st: State) {
    && (forall c :: c in st.gone ==> c in st.reports)
    && (forall c :: c in st.reports ==> (c in st.gone <==> |st.reports[c]| >= Needed(cfg)))
  }

  predicate Inv(cfg: Config, st: State) {
    && Exact(cfg, st)
    && (forall s :: s in st.sessions ==> SessionOk(st, st.sessions[s]))
    && (forall s, t :: s in st.sessions && t in st.sessions && s != t ==> st.sessions[s].crane != st.sessions[t].crane)
  }

  lemma InvStep(cfg: Config, st: State, e: Event)
    requires cfg.locking && Enabled(cfg, st, e) && Inv(cfg, st)
    ensures Inv(cfg, Apply(cfg, st, e))
  {
    if e.Commit? {
      var session := st.sessions[e.s];
      assert SessionOk(st, session);
      assert |st.reports[session.crane] + {session.reporter}| == |st.reports[session.crane]| + 1;
    }
  }

  lemma {:induction false} InvKept(cfg: Config, run: History)
    requires cfg.locking && ValidRun(cfg, EMPTY, run)
    ensures Inv(cfg, Outcome(cfg, EMPTY, run))
  {
    if run.After? {
      InvKept(cfg, run.before);
      InvStep(cfg, Outcome(cfg, EMPTY, run.before), run.event);
    }
  }

  /** A crane is gone exactly when it has as many distinct reporters as the threshold asks for, and at least one. */
  lemma GoneExactly(cfg: Config, run: History, c: CraneId)
    requires cfg.locking && ValidRun(cfg, EMPTY, run) && c in Outcome(cfg, EMPTY, run).reports
    ensures var st := Outcome(cfg, EMPTY, run);
      && (c in st.gone <==> |st.reports[c]| >= Needed(cfg))
      && ((c in st.gone <==> |st.reports[c]| >= cfg.threshold) <==> cfg.threshold >= 1 || st.reports[c] != {})
  {
    InvKept(cfg, run);
  }

  /** With a threshold below one a crane without reports is not gone, though it has reached the threshold. */
  lemma ThresholdBelowOne(cfg: Config) returns (run: History)
    requires cfg.threshold < 1
    ensures ValidRun(cfg, EMPTY, run)
    ensures var st := Outcome(cfg, EMPTY, run); 0 in st.reports && |st.reports[0]| >= cfg.threshold && 0 !in st.gone
  {
    var st;
    run, st := Proceed(cfg, Quiet, EMPTY, CreateCrane(0));
  }

  /** The status never reverts and no report is lost, with or without the lock. */
  lemma {:induction false} NeverReverts(cfg: Config, st: State, run: History, c: CraneId)
    requires ValidRun(cfg, st, run) && c in st.reports
    ensures var t := Outcome(cfg, st, run);
      c in t.reports && st.reports[c] <= t.reports[c] && (c in st.gone ==> c in t.gone)
  {
    if run.After? {
      NeverReverts(cfg, st, run.before, c);
    }
  }

  // ---- duplicates ----

  predicate OfSession(e: Event, d: nat) {
    !e.CreateCrane? && e.s == d
  }

  /** The run with the events of session d left out. */
  function Without(run: History, d: nat): History {
    if run.Quiet? then run
    else if OfSession(run.event, d) then Without(run.before, d)
    else After(Without(run.before, d), run.event)
  }

  /** Session d is only ever used by reporters who have already reported the crane, any number of times. */
  predicate OnlyDuplicates(cfg: Config, run: History, d: nat)
    requires ValidRun(cfg, EMPTY, run)
  {
    run.After? ==>
      && OnlyDuplicates(cfg, run.before, d)
      && (run.event.Select? && run.event.s == d ==>
            var st := Outcome(cfg, EMPTY, run.before);
            run.event.crane in st.reports && run.event.reporter in st.reports[run.event.crane])
  }

  /** The session stands at the duplicate it is about to insert. */
  predicate AtDuplicate(st: State, d: nat) {
    d in st.sessions ==>
      && st.sessions[d].Selected? && st.sessions[d].crane in st.reports
      && st.sessions[d].reporter in st.reports[st.sessions[d].crane]
  }

  lemma DuplicateStep(cfg: Config, st: State, e: Event, d: nat)
    requires Enabled(cfg, st, e) && AtDuplicate(st, d)
    requires e.Select? && e.s == d ==> e.crane in st.reports && e.reporter in st.reports[e.crane]
    ensures AtDuplicate(Apply(cfg, st, e), d)
    ensures OfSession(e, d) ==>
      var t := Apply(cfg, st, e); t.gone == st.gone && t.reports == st.reports && t.sessions - {d} == st.sessions - {d}
    ensures !OfSession(e, d) ==>
      && Enabled(cfg, st.(sessions := st.sessions - {d}), e)
      && Apply(cfg, st.(sessions := st.sessions - {d}), e) == Apply(cfg, st, e).(sessions := Apply(cfg, st, e).sessions - {d})
  {
    if !OfSession(e, d) {
      var rest := st.(sessions := st.sessions - {d});
      assert Enabled(cfg, rest, e);
      assert Apply(cfg, rest, e).sessions == Apply(cfg, st, e).sessions - {d};
    }
  }

  /** Repeated reports change nothing, whatever other reporters do meanwhile: without them the run is just as possible, and
    leads to the same committed rows and the same state of all other requests. */
  lemma {:induction false} DuplicatesChangeNothing(cfg: Config, run: History, d: nat)
    requires ValidRun(cfg, EMPTY, run) && OnlyDuplicates(cfg, run, d)
    ensures ValidRun(cfg, EMPTY, Without(run, d)) && AtDuplicate(Outcome(cfg, EMPTY, run), d)
    ensures var st := Outcome(cfg, EMPTY, run);
      Outcome(cfg, EMPTY, Without(run, d)) == st.(sessions := st.sessions - {d})
  {
    if run.After? {
      DuplicatesChangeNothing(cfg, run.before, d);
      DuplicateStep(cfg, Outcome(cfg, EMPTY, run.before), run.event, d);
    }
  }

  lemma UnlockedInserts() returns (run: History, st: State)
    ensures ValidRun(Config(2, false), EMPTY, run) && st == Outcome(Config(2, false), EMPTY, run)
    ensures st == State({}, map[0 := {}], map[1 := Inserted(0, 7), 2 := Inserted(0, 8)])
  {
    var cfg := Config(2, false);
    run, st := Proceed(cfg, Quiet, EMPTY, CreateCrane(0));
    run, st := Proceed(cfg, run, st, Select(1, 0, 7));
    run, st := Proceed(cfg, run, st, Select(2, 0, 8));
    run, st := Proceed(cfg, run, st, Insert(1));
    run, st := Proceed(cfg, run, st, Insert(2));
  }

  /** Without the lock two reporters each count only their own report, and a crane that has reached its threshold stays
    active. */
  lemma UnlockedMisses() returns (run: History)
    ensures var cfg := Config(2, false);
      && ValidRun(cfg, EMPTY, run)
      && var st := Outcome(cfg, EMPTY, run); 0 in st.reports && |st.reports[0]| == 2 && 0 !in st.gone
  {
    var cfg, st := Config(2, false), EMPTY;
    run, st := UnlockedInserts();
    run, st := Proceed(cfg, run, st, Count(1));
    run, st := Proceed(cfg, run, st, Count(2));
    assert {} + {7} == {7} && {} + {8} == {8};
    assert st == State({}, map[0 := {}], map[1 := Counted(0, 7, 1), 2 := Counted(0, 8, 1)]);
    run, st := Proceed(cfg, run, st, Commit(1));
    run, st := Proceed(cfg, run, st, Commit(2));
    assert st.reports[0] == {7, 8};
  }

  lemma Proceed(cfg: Config, run: History, st: State, e: Event) returns (next: History, t: State)
    requires ValidRun(cfg, EMPTY, run) && st == Outcome(cfg, EMPTY, run) && Enabled(cfg, st, e)
    ensures next == After(run, e) && ValidRun(cfg, EMPTY, next)
    ensures t == Apply(cfg, st, e) && t == Outcome(cfg, EMPTY, next)
  {
    next, t := After(run, e), Apply(cfg, st, e);
  }

  // ---- one request ----

  datatype Response = Recorded | CraneNotFound | AlreadyReported | ReportFailed

  class Cranes {
    const cfg: Config
    const writesSucceed: bool  // no database error
    var gone: set<CraneId>
    var reports: map<CraneId, set<Reporter>>

    /** The run of the protocol that has led here. Nothing is decided by it. */
    ghost var run: History

    ghost predicate Valid()
      reads this
    {
      && ValidRun(cfg, EMPTY, run)
      && gone == Here().gone && reports == Here().reports
    }

    ghost function Here(): State
      requires ValidRun(cfg, EMPTY, run)
      reads this
    {
      Outcome(cfg, EMPTY, run)
    }

    constructor (cfg: Config, writesSucceed: bool)
      ensures Valid() && this.cfg == cfg && this.writesSucceed == writesSucceed && reports == map[] && run == Quiet
    {
      this.cfg, this.writesSucceed, gone, reports, run := cfg, writesSucceed, {}, map[], Quiet;
    }

    /** The report of session s is written and decides the status. */
    method WriteReport(ghost s: nat, crane: CraneId, reporter: Reporter)
      requires Valid() && cfg.locking && s !in Here().sessions && Here().Free(crane)
      requires crane in reports && reporter !in reports[crane]
      modifies this
      ensures Valid()
      ensures reports == old(reports)[crane := old(reports)[crane] + {reporter}]
      ensures gone == if |reports[crane]| >= Needed(cfg) then old(gone) + {crane} else old(gone)
    {
      ghost var st := Here();
      run, st := Proceed(cfg, run, st, Select(s, crane, reporter));
      run, st := Proceed(cfg, run, st, Insert(s));
      run, st := Proceed(cfg, run, st, Count(s));
      run, st := Proceed(cfg, run, st, Commit(s));
      reports := reports[crane := reports[crane] + {reporter}];
      var count := |reports[crane]|;
      if count != 0 && count >= cfg.threshold {
        gone := gone + {crane};
      }
    }

    /** report_crane_as_gone, once the lock on the crane row is granted, and the commit of the route: the report is added,
      and with it the crane is gone or not as its number of reporters demands. If a write or the commit raises, both have
      happened or neither. */
    method ReportCraneAsGone(ghost s: nat, crane: CraneId, reporter: Reporter) returns (r: Response)
      requires Valid() && cfg.locking && s !in Here().sessions && Here().Free(crane)
      modifies this
      ensures Valid()
      ensures r.CraneNotFound? <==> crane !in old(reports)
      ensures r.AlreadyReported? <==> crane in old(reports) && reporter in old(reports)[crane]
      ensures writesSucceed ==> !r.ReportFailed?
      ensures r.CraneNotFound? || r.AlreadyReported? ==> reports == old(reports)
      ensures reports == old(reports) ==> gone == old(gone) && !r.Recorded?
      ensures reports != old(reports) ==>
        && crane in old(reports) && reports == old(reports)[crane := old(reports)[crane] + {reporter}]
        && gone == if |reports[crane]| >= Needed(cfg) then old(gone) + {crane} else old(gone)
    {
      if crane !in reports {
        return CraneNotFound;
      }
      if reporter in reports[crane] {
        return AlreadyReported;
      }
      var ok, written := *, *;
      ok, written := ok || writesSucceed, written || ok || writesSucceed;
      if written {
        WriteReport(s, crane, reporter);
      } else {
        ghost var st := Here();
        run, st := Proceed(cfg, run, st, Select(s, crane, reporter));
        run, st := Proceed(cfg, run, st, Abort(s));
      }
      r := if ok then Recorded else ReportFailed;
    }
  }
}
