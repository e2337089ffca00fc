/**
 * The background sync: every unsynced history row is uploaded, in the order the table returns
 * them, as a whole document `rides/<rideId>`; each upload that succeeds marks its row synced,
 * and the first one that fails ends the run with "retry".
 */
module SyncWorker {
  import opened Wrappers
  import D = Documents
  import opened RemoteStore
  import opened RideEntities
  import opened RideDao

  datatype WorkResult = Success | Retry

  /** Kotlin's `Long` division, which truncates toward zero. */
  function Quot(a: int, b: int): int
    requires b > 0
  {
    if a >= 0 then a / b else -((-a) / b)
  }

  /** Kotlin's `Long` remainder, which takes the sign of the dividend. */
  function Rem(a: int, b: int): (r: int)
    requires b > 0
    ensures a >= 0 ==> 0 <= r < b
    ensures a < 0 ==> -b < r <= 0
  {
    a - b * Quot(a, b)
  }

  /** The range a document timestamp accepts: years 1 to 9999, and nanoseconds within one second. */
  const MinSeconds: int := -62135596800
  const MaxSeconds: int := 253402300800

  /** The timestamp constructor, which refuses values out of range (the upload then fails). */
  function MakeTimestamp(seconds: int, nanoseconds: int): (r: Option<D.Timestamp>)
    ensures r.Some? <==> MinSeconds <= seconds < MaxSeconds && 0 <= nanoseconds < 1000000000
    ensures r.Some? ==> r.value.seconds == seconds && r.value.nanoseconds == nanoseconds
  {
    if MinSeconds <= seconds < MaxSeconds && 0 <= nanoseconds < 1000000000
    then Some(D.Timestamp(seconds, nanoseconds)) else None
  }

  /** Milliseconds split into whole seconds and the nanoseconds of the remaining milliseconds. */
  function SplitMillis(millis: int): (int, int) {
    (Quot(millis, 1000), Rem(millis, 1000) * 1000000)
  }

  function TimestampOf(millis: int): Option<D.Timestamp> {
    var (seconds, nanoseconds) := SplitMillis(millis);
    MakeTimestamp(seconds, nanoseconds)
  }

  /** For a non-negative time the split loses nothing and the nanoseconds are in range. */
  lemma SplitRoundTrip(millis: int)
    requires millis >= 0
    ensures var (seconds, nanoseconds) := SplitMillis(millis);
      && seconds * 1000 + nanoseconds / 1000000 == millis
      && 0 <= nanoseconds < 1000000000
      && nanoseconds % 1000000 == 0
  {
  }

  /** Every time from the epoch up to the end of year 9999 gives a valid timestamp. */
  lemma TimestampDefined(millis: int)
    requires 0 <= millis < MaxSeconds * 1000
    ensures TimestampOf(millis).Some?
    ensures TimestampOf(millis).value.seconds * 1000 + TimestampOf(millis).value.nanoseconds / 1000000 == millis
  {
    SplitRoundTrip(millis);
  }

  /** A time before the epoch that is not a whole second gives negative nanoseconds, so its upload fails. */
  lemma NegativeMillisRefused(millis: int)
    requires millis < 0 && Rem(millis, 1000) != 0
    ensures TimestampOf(millis).None?
  {
  }

  function OptStr(s: Option<string>): D.Value {
    match s
    case Some(v) => D.Str(v)
    case None => D.Null
  }

  /** The seven fields uploaded for a row; missing names are stored as null. */
  function UploadDoc(e: RideEntity, t: D.Timestamp): (d: D.Doc)
    ensures d.Keys == {D.rideId, D.passengerId, D.driverId, D.status, D.origin, D.destination, D.timestamp}
  {
    map[D.rideId := D.Str(e.rideId), D.passengerId := D.Str(e.passengerId), D.driverId := OptStr(e.driverId),
        D.status := D.Str(e.status), D.origin := OptStr(e.origin), D.destination := OptStr(e.destination),
        D.timestamp := D.Time(t)]
  }

  /** Upload `i` of a run succeeds when its timestamp is valid and the network call succeeds. */
  predicate UploadOk(e: RideEntity, netOk: bool) {
    TimestampOf(e.timestamp).Some? && netOk
  }

  /** The number of uploads, from `from` on, that succeed before the first failure. */
  function FirstFailure(batch: seq<RideEntity>, net: nat -> bool, from: nat): (n: nat)
    requires from <= |batch|
    ensures from <= n <= |batch|
    ensures forall i :: from <= i < n ==> UploadOk(batch[i], net(i))
    ensures n < |batch| ==> !UploadOk(batch[n], net(n))
    decreases |batch| - from
  {
    if from == |batch| || !UploadOk(batch[from], net(from)) then from
    else FirstFailure(batch, net, from + 1)
  }

  /** The table after `update(copy(synced = true))` for each row of `done`, in order. */
  function SyncedRows(rows: map<string, RideEntity>, done: seq<RideEntity>): map<string, RideEntity> {
    if done == [] then rows
    else
      var before := SyncedRows(rows, done[..|done| - 1]);
      var last := done[|done| - 1];
      if last.rideId in before then before[last.rideId := MarkSynced(last)] else before
  }

  /** The remote store after each row of `done` has been uploaded, in order. */
  function UploadedDb(db: Db, done: seq<RideEntity>): Db {
    if done == [] then db
    else
      var before := UploadedDb(db, done[..|done| - 1]);
      var last := done[|done| - 1];
      match TimestampOf(last.timestamp)
      case Some(t) => SetDoc(before, Path(Rides, last.rideId), UploadDoc(last, t), true).0
      case None => before
  }

  /**
   * `doWork`. `localOk` is false when opening the local database or reading it throws, which
   * ends the run with "retry" before anything happens. `net(i)` is the outcome of the i-th upload.
   */
  method DoWork(table: RideTable, store: Store, net: nat -> bool, localOk: bool)
    returns (result: WorkResult, batch: seq<RideEntity>)
    requires table.Valid()
    modifies table, store
    ensures table.Valid()
    ensures !localOk ==> result == Retry && batch == [] && table.rows == old(table.rows) && store.db == old(store.db)
    ensures localOk ==> forall e :: e in batch <==> old(table.Holds(e)) && !e.synced
    ensures localOk ==> DistinctIds(batch)
    ensures var n := FirstFailure(batch, net, 0);
      && table.rows == SyncedRows(old(table.rows), batch[..n])
      && store.db == UploadedDb(old(store.db), batch[..n])
      && (result == Success <==> localOk && n == |batch|)
  {
    if !localOk {
      return Retry, [];
    }
    batch := table.GetUnsyncedRides();
    if |batch| == 0 {
      return Success, batch;
    }
    ghost var rows0, db0 := table.rows, store.db;
    var i := 0;
    while i < |batch|
      invariant 0 <= i <= |batch|
      invariant forall j :: 0 <= j < i ==> UploadOk(batch[j], net(j))
      invariant table.Valid()
      invariant table.rows == SyncedRows(rows0, batch[..i])
      invariant store.db == UploadedDb(db0, batch[..i])
    {
      var ride := batch[i];
      assert batch[..i + 1][..i] == batch[..i];
      var t := TimestampOf(ride.timestamp);
      if t.None? {
        FirstFailureIs(batch, net, i);
        return Retry, batch;
      }
      var ok := store.Set(Path(Rides, ride.rideId), UploadDoc(ride, t.value), net(i));
      if !ok {
        FirstFailureIs(batch, net, i);
        return Retry, batch;
      }
      table.Update(MarkSynced(ride));
      i := i + 1;
    }
    FirstFailureIs(batch, net, |batch|);
    assert batch[..|batch|] == batch;
    result := Success;
  }

  /** When the first `n` uploads succeed and the next one does not (or there is none), that `n` is the first failure. */
  lemma FirstFailureIs(batch: seq<RideEntity>, net: nat -> bool, n: nat)
    requires n <= |batch|
    requires forall j :: 0 <= j < n ==> UploadOk(batch[j], net(j))
    requires n < |batch| ==> !UploadOk(batch[n], net(n))
    ensures FirstFailure(batch, net, 0) == n
  {
  }

  /**
   * For one key: a run over rows with distinct keys marks exactly the rows it went through as
   * synced, and leaves every other row and the set of keys as they were.
   */
  lemma {:induction false} SyncedRowsAt(rows: map<string, RideEntity>, done: seq<RideEntity>, k: string)
    requires DistinctIds(done)
    ensures k in SyncedRows(rows, done) <==> k in rows
    ensures forall i :: 0 <= i < |done| && done[i].rideId == k && k in rows ==>
      SyncedRows(rows, done)[k] == MarkSynced(done[i])
    ensures k in rows && (forall i :: 0 <= i < |done| ==> done[i].rideId != k) ==>
      SyncedRows(rows, done)[k] == rows[k]
  {
    if done != [] {
      var prefix := done[..|done| - 1];
      assert forall i :: 0 <= i < |prefix| ==> prefix[i] == done[i];
      SyncedRowsAt(rows, prefix, k);
    }
  }

  /**
   * After a run that stopped after `n` successful uploads of the unsynced rows: those `n` rows
   * are synced and otherwise unchanged, and the rows after them are untouched and still unsynced.
   */
  lemma StoppedRun(table: RideTable, batch: seq<RideEntity>, n: nat, j: nat)
    requires table.Valid() && DistinctIds(batch)
    requires forall e :: e in batch <==> table.Holds(e) && !e.synced
    requires n <= |batch| && j < |batch|
    ensures var rows := SyncedRows(table.rows, batch[..n]); var e := batch[j];
      && e.rideId in rows
      && (j < n ==> rows[e.rideId] == MarkSynced(e) && rows[e.rideId].synced)
      && (j >= n ==> rows[e.rideId] == e && !rows[e.rideId].synced)
  {
    var e := batch[j];
    assert e in batch;
    var done := batch[..n];
    assert DistinctIds(done);
    SyncedRowsAt(table.rows, done, e.rideId);
    if j < n {
      assert done[j] == e;
    }
  }

  /** After a run in which every upload succeeded, no row of the table is unsynced. */
  lemma CompleteRunLeavesNothingUnsynced(table: RideTable, batch: seq<RideEntity>, k: string)
    requires table.Valid() && DistinctIds(batch)
    requires forall e :: e in batch <==> table.Holds(e) && !e.synced
    requires k in SyncedRows(table.rows, batch)
    ensures SyncedRows(table.rows, batch)[k].synced
  {
    SyncedRowsAt(table.rows, batch, k);
    var e := table.rows[k];
    assert table.Holds(e);
    if !e.synced {
      var j :| 0 <= j < |batch| && batch[j] == e;
    }
  }

  /** Uploading the same row twice leaves the remote store as uploading it once. */
  lemma ResendIdempotent(db: Db, e: RideEntity)
    ensures UploadedDb(db, [e, e]) == UploadedDb(db, [e])
  {
    assert [e, e][..1] == [e];
    assert [e][..0] == [];
  }

  /** An upload replaces the whole remote document: none of its earlier fields survive. */
  lemma UploadReplacesDocument(db: Db, e: RideEntity, t: D.Timestamp)
    requires TimestampOf(e.timestamp) == Some(t)
    ensures UploadedDb(db, [e])[Path(Rides, e.rideId)] == UploadDoc(e, t)
    ensures forall p :: p in db && p != Path(Rides, e.rideId) ==> p in UploadedDb(db, [e]) && UploadedDb(db, [e])[p] == db[p]
  {
    assert [e][..0] == [];
  }

  /**
   * Uploading the history row of a ride booked remotely under the same id drops the booking's
   * own fields from `rides/<rideId>`: it no longer has a creation time (so queries ordered by
   * `createdAt` leave it out), a fare, place names or a driver snapshot.
   */
  lemma UploadDropsBookingFields(db: Db, e: RideEntity, t: D.Timestamp)
    requires TimestampOf(e.timestamp) == Some(t)
    ensures var d := UploadedDb(db, [e])[Path(Rides, e.rideId)];
      && D.GetTimestamp(d, D.createdAt).None?
      && D.GetDouble(d, D.estimatedFare).None?
      && D.GetString(d, D.pickupLocation).None? && D.GetString(d, D.dropoffLocation).None?
      && D.GetString(d, D.driverName).None?
      && D.GetString(d, D.status) == Some(e.status)
  {
    UploadReplacesDocument(db, e, t);
  }
}
