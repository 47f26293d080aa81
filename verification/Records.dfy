/** The tables the tracker stores (app/models/base.py) and the settings it reads (app/core/config.py).

  Time is counted in microseconds, the resolution of both PostgreSQL timestamps and Python timedeltas.
  Job rows are never deleted, so the job table is a sequence and a job's id is its position.
  A photo row is addressed by its id: its storage key is an injective function of that id. */
module Records {

  datatype Option<+T> = None | Some(value: T)

  type PhotoId = nat
  type CraneId = nat
  type JobId = nat
  type Reporter = nat  // the salted hash of a client address, opaque here
  type Time = int

  datatype PhotoStatus = PendingUpload | Active | PendingDelete

  datatype Photo = Photo(crane: CraneId, status: PhotoStatus, addedAt: Time)

  datatype JobStatus = Pending | Processing | Completed | Failed

  datatype Job = Job(key: PhotoId, status: JobStatus, attempts: nat, availableAt: Time,
                     lease: Option<Time>, createdAt: Time)
  {
    predicate Terminal() {
      status.Completed? || status.Failed?
    }
  }

  datatype Report = Report(photo: PhotoId, reporter: Reporter)

  datatype Db = Db(photos: map<PhotoId, Photo>, jobs: seq<Job>, reports: map<nat, Report>)
  {
    predicate Has(p: PhotoId, status: PhotoStatus) {
      p in photos && photos[p].status == status
    }
  }

  // Delays and the upload window are in milliseconds, the lease and the sleep in seconds.
  // lockCrane is the argument of that name of ensure_crane_photo_capacity; the route passes true.
  datatype Settings = Settings(batchSize: nat, maxAttempts: nat, minDelay: nat, maxDelay: nat,
                               uploadWindow: nat, leaseWindow: nat, sleep: nat, lockCrane: bool)

  const MAX_PHOTOS_PER_CRANE: nat := 3

  function Millis(n: nat): nat { 1000 * n }

  function Seconds(n: nat): nat { 1_000_000 * n }

  lemma Product(a: nat, b: nat)
    ensures a * b >= 0
  {
  }

  function Max(a: int, b: int): int { if a < b then b else a }

  function Min(a: int, b: int): int { if a < b then a else b }

  lemma {:induction false} SubsetSmaller<T>(a: set<T>, b: set<T>)
    requires a <= b
    ensures |a| <= |b|
  {
    if x :| x in a {
      SubsetSmaller(a - {x}, b - {x});
    }
  }

  // ---- storage keys ----

  const UUID_LENGTH := 36

  function StorageKey(crane: string, photo: string, extension: string): string {
    "cranes/" + crane + "/photos/" + photo + extension
  }

  /** Two photos never share a storage key, so a row, its jobs and its object can all be named by the photo's id. */
  lemma StorageKeyInjective(c1: string, p1: string, x1: string, c2: string, p2: string, x2: string)
    requires |c1| == |p1| == |c2| == |p2| == UUID_LENGTH
    requires StorageKey(c1, p1, x1) == StorageKey(c2, p2, x2)
    ensures c1 == c2 && p1 == p2 && x1 == x2
  {
    var k1, k2 := StorageKey(c1, p1, x1), StorageKey(c2, p2, x2);
    assert k1[7..43] == c1 && k2[7..43] == c2;
    assert k1[51..87] == p1 && k2[51..87] == p2;
    assert k1[87..] == x1 && k2[87..] == x2;
  }
}
