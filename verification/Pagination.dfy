/** The admin review list: the query of app/services/photo.py, the page of app/routes/crane.py, and a client that
  follows the cursors while other requests change the rows. */
module Pagination {
  import opened Records
  import Outbox
  import Protocol
  import Safety

  // ---- the ids of a set in descending order ----

  predicate Decreasing(ids: seq<PhotoId>) {
    forall i, k :: 0 <= i < k < |ids| ==> ids[k] < ids[i]
  }

  ghost predicate Largest(ids: set<PhotoId>, m: PhotoId) {
    m in ids && forall p :: p in ids ==> p <= m
  }

  lemma {:induction false} LargestExists(ids: set<PhotoId>)
    requires ids != {}
    ensures exists m :: Largest(ids, m)
  {
    var m :| m in ids;
    if ids == {m} {
      assert Largest(ids, m);
    } else {
      LargestExists(ids - {m});
      var n :| Largest(ids - {m}, n);
      var top: PhotoId := if m < n then n else m;
      forall p | p in ids ensures p <= top {
        assert p == m || p in ids - {m};
      }
      assert Largest(ids, top);
    }
  }

  ghost function Descending(ids: set<PhotoId>): (s: seq<PhotoId>)
    ensures Decreasing(s) && |s| == |ids|
    ensures forall p :: p in s <==> p in ids
  {
    if ids == {} then []
    else
      LargestExists(ids);
      var m :| Largest(ids, m);
      [m] + Descending(ids - {m})
  }

  lemma {:induction false} DescendingUnique(a: seq<PhotoId>, b: seq<PhotoId>)
    requires Decreasing(a) && Decreasing(b) && forall p :: p in a <==> p in b
    ensures a == b
  {
    assert forall i :: 0 <= i < |a| ==> a[i] in b;
    assert forall i :: 0 <= i < |b| ==> b[i] in a;
    if a != [] && b != [] {
      forall p ensures p in a[1..] <==> p in b[1..] {
        assert p in a <==> p == a[0] || p in a[1..];
        assert p in b <==> p == b[0] || p in b[1..];
      }
      DescendingUnique(a[1..], b[1..]);
    }
  }

  // ---- one page ----

  predicate Matches(db: Db, p: PhotoId, reportedOnly: bool) {
    db.Has(p, Active) && (reportedOnly ==> exists r :: r in db.reports && db.reports[r].photo == p)
  }

  predicate Before(p: PhotoId, cursor: Option<PhotoId>) {
    cursor.Some? ==> p < cursor.value
  }

  function Listed(db: Db, cursor: Option<PhotoId>, reportedOnly: bool): set<PhotoId> {
    set p | p in db.photos && Matches(db, p, reportedOnly) && Before(p, cursor)
  }

  /** get_crane_photos of the service: one row more than the page holds. */
  ghost function Fetch(db: Db, cursor: Option<PhotoId>, limit: nat, reportedOnly: bool): seq<PhotoId> {
    var all := Descending(Listed(db, cursor, reportedOnly));
    all[..Min(limit + 1, |all|)]
  }

  datatype Page = Page(photos: seq<PhotoId>, end: bool)

  /** get_crane_photos of the route: cut at the limit, and the end is reached when nothing was cut off. */
  ghost function PageOf(db: Db, cursor: Option<PhotoId>, limit: nat, reportedOnly: bool): Page {
    var rows := Fetch(db, cursor, limit, reportedOnly);
    Page(rows[..Min(limit, |rows|)], |rows| <= limit)
  }

  /** The page holds the first of these photos; it is full unless it is the last, and the last exactly if none follows. */
  ghost predicate Exact(page: Page, ids: set<PhotoId>, limit: nat) {
    && Decreasing(page.photos)
    && (forall p :: p in page.photos ==> p in ids)
    && (page.end <==> |ids| <= limit)
    && (if page.end then forall p :: p in ids ==> p in page.photos
        else |page.photos| == limit
             && (limit > 0 ==> forall p :: p in ids && p !in page.photos ==> p < page.photos[limit - 1]))
  }

  lemma PageExact(db: Db, cursor: Option<PhotoId>, limit: nat, reportedOnly: bool)
    ensures Exact(PageOf(db, cursor, limit, reportedOnly), Listed(db, cursor, reportedOnly), limit)
  {
    var ids := Listed(db, cursor, reportedOnly);
    var all, page := Descending(ids), PageOf(db, cursor, limit, reportedOnly);
    assert page.photos == all[..Min(limit, |all|)];
    CutExact(ids, all, limit);
  }

  /** What it takes to match: an active row, and a report row if that is asked for. */
  lemma MatchesRows(db: Db, p: PhotoId, reportedOnly: bool)
    ensures Matches(db, p, reportedOnly) <==>
      && p in db.photos && db.photos[p].status.Active?
      && (reportedOnly ==> exists r :: r in db.reports && db.reports[r].photo == p)
  {
  }

  /** A page shows only active photos before the cursor, with a report if that is asked for. */
  lemma PageShows(db: Db, cursor: Option<PhotoId>, limit: nat, reportedOnly: bool, p: PhotoId)
    requires p in PageOf(db, cursor, limit, reportedOnly).photos
    ensures p in db.photos && db.photos[p].status.Active? && (cursor.Some? ==> p < cursor.value)
    ensures reportedOnly ==> exists r :: r in db.reports && db.reports[r].photo == p
  {
    PageExact(db, cursor, limit, reportedOnly);
    assert p in Listed(db, cursor, reportedOnly);
    MatchesRows(db, p, reportedOnly);
  }

  /** Such a photo that a page leaves out comes after all that it shows, and the page is full and not the last. */
  lemma PageLeavesOut(db: Db, cursor: Option<PhotoId>, limit: nat, reportedOnly: bool, p: PhotoId)
    requires p in db.photos && db.photos[p].status.Active? && (cursor.Some? ==> p < cursor.value)
    requires reportedOnly ==> exists r :: r in db.reports && db.reports[r].photo == p
    requires p !in PageOf(db, cursor, limit, reportedOnly).photos
    ensures var page := PageOf(db, cursor, limit, reportedOnly);
      !page.end && |page.photos| == limit && forall q :: q in page.photos ==> p < q
  {
    PageExact(db, cursor, limit, reportedOnly);
    MatchesRows(db, p, reportedOnly);
    assert p in Listed(db, cursor, reportedOnly);
    var page := PageOf(db, cursor, limit, reportedOnly);
    forall q | q in page.photos ensures p < q {
      assert page.photos[limit - 1] <= q;
    }
  }

  /** In every reachable state each photo on a page has its object. */
  lemma ShownHasObject(cfg: Settings, run: Protocol.Trace, cursor: Option<PhotoId>, limit: nat, reportedOnly: bool, p: PhotoId)
    requires Protocol.IsRun(cfg, run) && p in PageOf(Protocol.Reached(cfg, run).db, cursor, limit, reportedOnly).photos
    ensures p in Protocol.Reached(cfg, run).store
  {
    PageShows(Protocol.Reached(cfg, run).db, cursor, limit, reportedOnly, p);
    Safety.ActiveHasObject(cfg, run, p);
  }

  lemma CutExact(ids: set<PhotoId>, all: seq<PhotoId>, limit: nat)
    requires Decreasing(all) && |all| == |ids| && forall p :: p in all <==> p in ids
    ensures Exact(Page(all[..Min(limit, |all|)], |ids| <= limit), ids, limit)
  {
    if limit < |all| {
      var cut := all[..limit];
      assert forall i :: 0 <= i < limit ==> all[i] in cut;
      forall p | p in ids && p !in cut && limit > 0 ensures p < cut[limit - 1] {
        assert p in all;
        var i :| 0 <= i < |all| && all[i] == p;
      }
    } else {
      assert all[..|all|] == all;
    }
  }

  // ---- following the cursors ----

  // db(k) is whatever the tables hold when the k-th request is served.

  ghost function Follow(page: Page, cursor: Option<PhotoId>, limit: nat, ids: set<PhotoId>): (next: PhotoId)
    requires limit > 0 && !page.end && Exact(page, ids, limit)
    requires forall p :: p in ids ==> Before(p, cursor)
    ensures Before(next, cursor) && next in page.photos
    ensures forall p :: p in page.photos ==> next <= p
    ensures forall p :: p in ids && p !in page.photos ==> p < next
  {
    page.photos[limit - 1]
  }

  ghost function Scan(db: nat -> Db, k: nat, cursor: Option<PhotoId>, limit: nat, reportedOnly: bool): seq<PhotoId>
    requires limit > 0
    decreases cursor.None?, if cursor.Some? then cursor.value else 0
  {
    PageExact(db(k), cursor, limit, reportedOnly);
    var page := PageOf(db(k), cursor, limit, reportedOnly);
    if page.end then page.photos
    else
      var next := Follow(page, cursor, limit, Listed(db(k), cursor, reportedOnly));
      page.photos + Scan(db, k + 1, Some(next), limit, reportedOnly)
  }

  /** How many requests the scan makes. */
  ghost function Requests(db: nat -> Db, k: nat, cursor: Option<PhotoId>, limit: nat, reportedOnly: bool): (n: nat)
    requires limit > 0
    ensures n > 0
    decreases cursor.None?, if cursor.Some? then cursor.value else 0
  {
    PageExact(db(k), cursor, limit, reportedOnly);
    var page := PageOf(db(k), cursor, limit, reportedOnly);
    if page.end then 1
    else
      var next := Follow(page, cursor, limit, Listed(db(k), cursor, reportedOnly));
      1 + Requests(db, k + 1, Some(next), limit, reportedOnly)
  }

  lemma JoinDecreasing(a: seq<PhotoId>, b: seq<PhotoId>, next: PhotoId)
    requires Decreasing(a) && Decreasing(b)
    requires (forall p :: p in a ==> next <= p) && (forall p :: p in b ==> p < next)
    ensures Decreasing(a + b)
  {
    assert forall i :: 0 <= i < |a| ==> a[i] in a;
    assert forall i :: 0 <= i < |b| ==> b[i] in b;
  }

  /** Whatever changes between the pages, the ids strictly decrease, so no photo is shown twice. */
  lemma {:induction false} ScanDecreases(db: nat -> Db, k: nat, cursor: Option<PhotoId>, limit: nat, reportedOnly: bool)
    requires limit > 0
    ensures Decreasing(Scan(db, k, cursor, limit, reportedOnly))
    ensures forall p :: p in Scan(db, k, cursor, limit, reportedOnly) ==> Before(p, cursor)
    decreases cursor.None?, if cursor.Some? then cursor.value else 0
  {
    PageExact(db(k), cursor, limit, reportedOnly);
    var page := PageOf(db(k), cursor, limit, reportedOnly);
    if !page.end {
      var next := Follow(page, cursor, limit, Listed(db(k), cursor, reportedOnly));
      ScanDecreases(db, k + 1, Some(next), limit, reportedOnly);
      JoinDecreasing(page.photos, Scan(db, k + 1, Some(next), limit, reportedOnly), next);
    }
  }

  ghost predicate MatchesDuring(db: nat -> Db, k: nat, n: nat, p: PhotoId, reportedOnly: bool) {
    forall i :: k <= i < k + n ==> Matches(db(i), p, reportedOnly)
  }

  lemma {:induction false} MatchingIsShown(db: nat -> Db, k: nat, cursor: Option<PhotoId>, limit: nat, reportedOnly: bool,
                                           p: PhotoId)
    requires limit > 0 && Before(p, cursor)
    requires MatchesDuring(db, k, Requests(db, k, cursor, limit, reportedOnly), p, reportedOnly)
    ensures p in Scan(db, k, cursor, limit, reportedOnly)
    decreases cursor.None?, if cursor.Some? then cursor.value else 0
  {
    PageExact(db(k), cursor, limit, reportedOnly);
    var page := PageOf(db(k), cursor, limit, reportedOnly);
    assert Matches(db(k), p, reportedOnly);
    assert p in Listed(db(k), cursor, reportedOnly);
    if p !in page.photos {
      var next := Follow(page, cursor, limit, Listed(db(k), cursor, reportedOnly));
      var n := Requests(db, k + 1, Some(next), limit, reportedOnly);
      assert Requests(db, k, cursor, limit, reportedOnly) == 1 + n;
      assert MatchesDuring(db, k + 1, n, p, reportedOnly);
      MatchingIsShown(db, k + 1, Some(next), limit, reportedOnly, p);
      assert Scan(db, k, cursor, limit, reportedOnly) == page.photos + Scan(db, k + 1, Some(next), limit, reportedOnly);
    }
  }

  /** A photo before the cursor that is active, and reported if that is asked for, whenever a request of the scan is
    served, is shown. */
  lemma ScanComplete(db: nat -> Db, k: nat, cursor: Option<PhotoId>, limit: nat, reportedOnly: bool, p: PhotoId)
    requires limit > 0 && (cursor.Some? ==> p < cursor.value)
    requires forall i :: k <= i < k + Requests(db, k, cursor, limit, reportedOnly) ==>
      p in db(i).photos && db(i).photos[p].status.Active?
    requires reportedOnly ==> forall i :: k <= i < k + Requests(db, k, cursor, limit, reportedOnly) ==>
      exists r :: r in db(i).reports && db(i).reports[r].photo == p
    ensures p in Scan(db, k, cursor, limit, reportedOnly)
  {
    var n := Requests(db, k, cursor, limit, reportedOnly);
    forall i | k <= i < k + n ensures Matches(db(i), p, reportedOnly) {
      MatchesRows(db(i), p, reportedOnly);
    }
    MatchingIsShown(db, k, cursor, limit, reportedOnly, p);
  }

  /** The page that answers request r of a scan that begins with request k; after the last, that one. */
  ghost function PageAt(db: nat -> Db, k: nat, cursor: Option<PhotoId>, limit: nat, reportedOnly: bool, r: nat): Page
    requires limit > 0 && k <= r
    decreases cursor.None?, if cursor.Some? then cursor.value else 0
  {
    PageExact(db(k), cursor, limit, reportedOnly);
    var page := PageOf(db(k), cursor, limit, reportedOnly);
    if r == k || page.end then page
    else
      var next := Follow(page, cursor, limit, Listed(db(k), cursor, reportedOnly));
      PageAt(db, k + 1, Some(next), limit, reportedOnly, r)
  }

  /** A photo that is shown is on the page of some request, and matched when that page was served. */
  lemma {:induction false} ScanSound(db: nat -> Db, k: nat, cursor: Option<PhotoId>, limit: nat, reportedOnly: bool,
                                     p: PhotoId) returns (r: nat)
    requires limit > 0 && p in Scan(db, k, cursor, limit, reportedOnly)
    ensures k <= r < k + Requests(db, k, cursor, limit, reportedOnly)
    ensures p in PageAt(db, k, cursor, limit, reportedOnly, r).photos
    ensures p in db(r).photos && db(r).photos[p].status.Active?
    ensures reportedOnly ==> exists q :: q in db(r).reports && db(r).reports[q].photo == p
    decreases cursor.None?, if cursor.Some? then cursor.value else 0
  {
    PageExact(db(k), cursor, limit, reportedOnly);
    var page := PageOf(db(k), cursor, limit, reportedOnly);
    if p in page.photos {
      r := k;
      assert p in Listed(db(k), cursor, reportedOnly);
    } else {
      var next := Follow(page, cursor, limit, Listed(db(k), cursor, reportedOnly));
      assert Scan(db, k, cursor, limit, reportedOnly) == page.photos + Scan(db, k + 1, Some(next), limit, reportedOnly);
      assert Requests(db, k, cursor, limit, reportedOnly) == 1 + Requests(db, k + 1, Some(next), limit, reportedOnly);
      r := ScanSound(db, k + 1, Some(next), limit, reportedOnly, p);
    }
  }

  /** On unchanging tables the pages, put together, are the whole list in descending order. */
  lemma FixedScan(db: nat -> Db, limit: nat, reportedOnly: bool)
    requires limit > 0 && forall k :: db(k) == db(0)
    ensures Scan(db, 0, None, limit, reportedOnly) == Descending(Listed(db(0), None, reportedOnly))
  {
    var scan, all := Scan(db, 0, None, limit, reportedOnly), Listed(db(0), None, reportedOnly);
    ScanDecreases(db, 0, None, limit, reportedOnly);
    forall p ensures p in scan <==> p in all {
      if p in scan {
        var r := ScanSound(db, 0, None, limit, reportedOnly, p);
      } else if p in all {
        MatchingIsShown(db, 0, None, limit, reportedOnly, p);
      }
    }
    DescendingUnique(scan, Descending(all));
  }

  // ---- report counts ----

  function ReportsOf(db: Db, p: PhotoId): set<nat> {
    set r | r in db.reports && db.reports[r].photo == p
  }

  /** get_photo_report_counts: the grouped query has no row for a photo without reports. */
  function ReportCounts(db: Db, ids: seq<PhotoId>): map<PhotoId, nat> {
    map p | p in ids && ReportsOf(db, p) != {} :: |ReportsOf(db, p)|
  }

  lemma {:induction false} SameSize(db: Db, rows: set<nat>, reporters: set<Reporter>)
    requires forall r :: r in rows ==> r in db.reports && db.reports[r].reporter in reporters
    requires forall r, q :: r in rows && q in rows && db.reports[r].reporter == db.reports[q].reporter ==> r == q
    requires forall h :: h in reporters ==> exists r :: r in rows && db.reports[r].reporter == h
    ensures |rows| == |reporters|
  {
    if r :| r in rows {
      SameSize(db, rows - {r}, reporters - {db.reports[r].reporter});
    } else {
      assert reporters == {};
    }
  }

  /** The count shown for a photo is the number of its distinct reporters, and a page restricted to reported photos
    never shows zero. */
  lemma CountsAreReporters(cfg: Settings, run: Protocol.Trace, ids: seq<PhotoId>, p: PhotoId)
    requires Protocol.IsRun(cfg, run) && p in ids
    ensures var db := Protocol.Reached(cfg, run).db; var counts := ReportCounts(db, ids);
      && (p in counts <==> Outbox.Reporters(db, p) != {})
      && (p in counts ==> counts[p] == |Outbox.Reporters(db, p)|)
      && ((exists r :: r in db.reports && db.reports[r].photo == p) ==> p in counts && counts[p] > 0)
  {
    Safety.InvHolds(cfg, run);
    var db := Protocol.Reached(cfg, run).db;
    SameSize(db, ReportsOf(db, p), Outbox.Reporters(db, p));
    if r :| r in db.reports && db.reports[r].photo == p {
      assert r in ReportsOf(db, p);
    }
  }
}
