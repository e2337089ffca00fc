/**
 * The driver's request list: open only to a driver who is online, it shows the rides still
 * searching for a driver, newest first, and offers accept and reject on each.
 */
module RideRequests {
  import opened Wrappers
  import opened Documents
  import opened RemoteStore
  import opened RideStatus
  import R = RideRecord
  import opened Auth
  import opened RideDao
  import opened LocalSync

  /** One entry of the list, read from a ride document with a default for each missing field. */
  datatype RideRequest = RideRequest(
    rideId: string,
    passengerName: string,
    pickupLocation: string,
    dropoffLocation: string,
    estimatedFare: real,
    estimatedTime: int,
    distance: real,
    vehicleType: string,
    createdAt: Option<Timestamp>,
    passengerId: string)

  function RequestOf(id: string, d: Doc): (r: RideRequest)
    ensures r.rideId == id
    ensures GetString(d, passengerName).None? ==> r.passengerName == "Passenger"
    ensures GetString(d, vehicleType).None? ==> r.vehicleType == "Standard"
    ensures GetDouble(d, estimatedFare).None? ==> r.estimatedFare == 0.0
    ensures GetDouble(d, distance).None? ==> r.distance == 0.0
    ensures GetLong(d, estimatedTime).None? ==> r.estimatedTime == 0
    ensures GetString(d, passengerId).None? ==> r.passengerId == ""
  {
    RideRequest(
      id,
      GetString(d, passengerName).GetOr("Passenger"),
      GetString(d, pickupLocation).GetOr(""),
      GetString(d, dropoffLocation).GetOr(""),
      GetDouble(d, estimatedFare).GetOr(0.0),
      GetLong(d, estimatedTime).GetOr(0),
      GetDouble(d, distance).GetOr(0.0),
      GetString(d, vehicleType).GetOr("Standard"),
      GetTimestamp(d, createdAt),
      GetString(d, passengerId).GetOr(""))
  }

  /** A ride stored by a booking is listed with exactly the values it was booked with. */
  lemma RequestOfBookedRide(r: R.Ride)
    ensures var q := RequestOf(r.rideId, R.ToDoc(r));
      && q.passengerName == r.passengerName && q.passengerId == r.passengerId
      && q.pickupLocation == r.pickup.name && q.dropoffLocation == r.dropoff.name
      && q.estimatedFare == r.estimatedFare && q.estimatedTime == r.estimatedTime
      && q.distance == r.distance && q.vehicleType == r.vehicleType
      && q.createdAt == Some(r.createdAt)
  {
    R.ReadIds(r);
    R.ReadPassenger(r);
    R.ReadPlaceNames(r);
    R.ReadFare(r);
    R.ReadTrip(r);
    R.ReadTimes(r);
  }

  /**
   * What the listened query returns: ride documents, each once, whose status is "searching" and
   * which have a creation time, all of them, newest first.
   */
  ghost predicate SearchingQueryResult(db: Db, docs: seq<(string, Doc)>) {
    && (forall i :: 0 <= i < |docs| ==>
          && Path(Rides, docs[i].0) in db && db[Path(Rides, docs[i].0)] == docs[i].1
          && GetString(docs[i].1, status) == Some(Code(Searching))
          && GetTimestamp(docs[i].1, createdAt).Some?)
    && (forall i, j :: 0 <= i < j < |docs| ==> docs[i].0 != docs[j].0)
    && (forall i, j :: 0 <= i < j < |docs| ==>
          NotAfter(GetTimestamp(docs[j].1, createdAt).value, GetTimestamp(docs[i].1, createdAt).value))
    && (forall id ::
          (Path(Rides, id) in db && GetString(db[Path(Rides, id)], status) == Some(Code(Searching))
           && GetTimestamp(db[Path(Rides, id)], createdAt).Some?)
          ==> exists i :: 0 <= i < |docs| && docs[i].0 == id)
  }

  /** The entries a query result turns into, one per document, in the same order. */
  function RequestsOf(docs: seq<(string, Doc)>): (r: seq<RideRequest>)
    ensures |r| == |docs|
    ensures forall i :: 0 <= i < |docs| ==> r[i] == RequestOf(docs[i].0, docs[i].1)
  {
    if docs == [] then [] else [RequestOf(docs[0].0, docs[0].1)] + RequestsOf(docs[1..])
  }

  /** Listed from a query result, the entries are distinct rides, newest first. */
  lemma ListedNewestFirst(db: Db, docs: seq<(string, Doc)>, i: nat, j: nat)
    requires SearchingQueryResult(db, docs)
    requires i < j < |docs|
    ensures var list := RequestsOf(docs);
      && list[i].rideId != list[j].rideId
      && list[i].createdAt.Some? && list[j].createdAt.Some?
      && NotAfter(list[j].createdAt.value, list[i].createdAt.value)
  {
  }

  /** What opening the list leads to. */
  datatype Gate = NotSignedIn | ProfileReadFailed | Offline | Listening

  /** The online check: only a driver profile with `onlineStatus` true opens the list; a missing flag means offline. */
  function OpenGate(session: Session, profile: Read): (g: Gate)
    ensures g == Listening <==> session.Some? && profile.Found? && GetBoolean(profile.doc, onlineStatus) == Some(true)
    ensures g == Offline <==> session.Some? && (profile.Missing? || (profile.Found? && GetBoolean(profile.doc, onlineStatus) != Some(true)))
  {
    match session
    case None => NotSignedIn
    case Some(_) =>
      match profile
      case ReadFailed => ProfileReadFailed
      case Missing => Offline
      case Found(d) => if GetBoolean(d, onlineStatus).GetOr(false) then Listening else Offline
  }

  /** The driver snapshot an accept copies from the driver's profile, with its defaults. */
  function SnapshotOf(profile: Doc): (s: R.DriverSnapshot)
    ensures GetString(profile, fullName).Some? ==> s.driverName == GetString(profile, fullName).value
    ensures GetString(profile, fullName).None? ==> s.driverName == "Driver"
    ensures GetString(profile, phoneNumber).None? ==> s.driverPhone == ""
    ensures GetString(profile, carModel).None? ==> s.vehicleModel == ""
    ensures GetString(profile, vehicleColor).None? ==> s.vehicleColor == ""
    ensures GetString(profile, carRegistration).None? ==> s.vehicleRegistration == ""
  {
    R.DriverSnapshot(
      GetString(profile, fullName).GetOr("Driver"),
      GetString(profile, phoneNumber).GetOr(""),
      GetString(profile, carModel).GetOr(""),
      GetString(profile, vehicleColor).GetOr(""),
      GetString(profile, carRegistration).GetOr(""))
  }

  datatype ActionOutcome = NoUser | ProfileMissing | ProfileUnreadable | WriteFailed | Done

  /**
   * The remote effect of accepting `req`: read the caller's driver profile, then one update of
   * the ride with the caller and the profile's snapshot. The ride's current status and driver
   * are not consulted.
   */
  function AcceptEffect(db: Db, session: Session, req: RideRequest, now: Timestamp, readNet: bool, writeNet: bool)
    : (r: (Db, ActionOutcome))
    ensures r.1 != Done ==> r.0 == db
    ensures r.1 == Done <==> session.Some? && readNet && Path(Drivers, session.value.uid) in db
                               && writeNet && Path(Rides, req.rideId) in db
  {
    match session
    case None => (db, NoUser)
    case Some(u) =>
      match ReadDoc(db, Path(Drivers, u.uid), readNet)
      case ReadFailed => (db, ProfileUnreadable)
      case Missing => (db, ProfileMissing)
      case Found(profile) =>
        var (db', ok) := UpdateDoc(db, Path(Rides, req.rideId), R.AcceptUpdate(u.uid, SnapshotOf(profile), now), writeNet);
        (db', if ok then Done else WriteFailed)
  }

  /** The remote effect of rejecting `req`: one update with the status, the caller and the time. */
  function RejectEffect(db: Db, session: Session, req: RideRequest, now: Timestamp, writeNet: bool)
    : (r: (Db, ActionOutcome))
    ensures r.1 == Done <==> session.Some? && writeNet && Path(Rides, req.rideId) in db
    ensures r.1 != Done ==> r.0 == db
  {
    match session
    case None => (db, NoUser)
    case Some(u) =>
      var (db', ok) := UpdateDoc(db, Path(Rides, req.rideId), R.RejectUpdate(u.uid, now), writeNet);
      (db', if ok then Done else WriteFailed)
  }

  /** A local history row is saved exactly after a successful write for a ride with a passenger. */
  predicate SavesHistory(outcome: ActionOutcome, req: RideRequest) {
    outcome == Done && req.passengerId != ""
  }

  class RideRequestsScreen {
    /** The entries shown. */
    var rideRequests: seq<RideRequest>

    constructor ()
      ensures rideRequests == []
    {
      rideRequests := [];
    }

    /**
     * A delivery of the listened query: on an error the list stays as it was; otherwise it is
     * cleared and refilled with one entry per document, in the order delivered.
     */
    method OnSnapshot(delivery: Option<seq<(string, Doc)>>)
      modifies this
      ensures delivery.None? ==> rideRequests == old(rideRequests)
      ensures delivery.Some? ==> rideRequests == RequestsOf(delivery.value)
    {
      if delivery.None? {
        return;
      }
      var docs := delivery.value;
      rideRequests := [];
      var i := 0;
      while i < |docs|
        invariant 0 <= i <= |docs|
        invariant rideRequests == RequestsOf(docs[..i])
      {
        assert docs[..i + 1] == docs[..i] + [docs[i]];
        RequestsOfAppend(docs[..i], docs[i]);
        rideRequests := rideRequests + [RequestOf(docs[i].0, docs[i].1)];
        i := i + 1;
      }
      assert docs[..|docs|] == docs;
    }

    /**
     * The accept button. After a successful update the ride is saved to the local history as
     * "driver_assigned" when it has a passenger.
     */
    method AcceptRide(store: Store, table: RideTable, queue: WorkQueue, session: Session, req: RideRequest,
                      now: Timestamp, readNet: bool, writeNet: bool, freshId: string, nowMillis: int, insertOk: bool)
      returns (outcome: ActionOutcome)
      requires table.Valid()
      modifies store, table, queue
      ensures table.Valid()
      ensures (store.db, outcome) == AcceptEffect(old(store.db), session, req, now, readNet, writeNet)
      ensures !SavesHistory(outcome, req) ==> table.rows == old(table.rows) && queue.jobs == old(queue.jobs)
      ensures SavesHistory(outcome, req) ==>
        var row := HistoryRow(req.passengerId, Some(session.value.uid), Code(DriverAssigned), Some(req.pickupLocation),
                              Some(req.dropoffLocation), Some(req.rideId), freshId, nowMillis);
        && table.rows == (if insertOk then old(table.rows)[req.rideId := row] else old(table.rows))
        && queue.jobs == old(queue.jobs) + [SyncJob(true)]
    {
      if session.None? {
        return NoUser;
      }
      var uid := session.value.uid;
      var profile := ReadDoc(store.db, Path(Drivers, uid), readNet);
      if profile.ReadFailed? {
        return ProfileUnreadable;
      }
      if profile.Missing? {
        return ProfileMissing;
      }
      var updates := R.AcceptUpdate(uid, SnapshotOf(profile.doc), now);
      var ok := store.Update(Path(Rides, req.rideId), updates, writeNet);
      if !ok {
        return WriteFailed;
      }
      outcome := Done;
      if req.passengerId != "" {
        SaveRideToHistory(table, queue, req.passengerId, Some(uid), Code(DriverAssigned), Some(req.pickupLocation),
                          Some(req.dropoffLocation), Some(req.estimatedFare), Some(req.distance), Some(req.rideId),
                          freshId, nowMillis, insertOk);
      }
    }

    /**
     * The reject button. After a successful update the ride is saved to the local history as
     * "rejected" when it has a passenger.
     */
    method RejectRide(store: Store, table: RideTable, queue: WorkQueue, session: Session, req: RideRequest,
                      now: Timestamp, writeNet: bool, freshId: string, nowMillis: int, insertOk: bool)
      returns (outcome: ActionOutcome)
      requires table.Valid()
      modifies store, table, queue
      ensures table.Valid()
      ensures (store.db, outcome) == RejectEffect(old(store.db), session, req, now, writeNet)
      ensures !SavesHistory(outcome, req) ==> table.rows == old(table.rows) && queue.jobs == old(queue.jobs)
      ensures SavesHistory(outcome, req) ==>
        var row := HistoryRow(req.passengerId, Some(session.value.uid), Code(Rejected), Some(req.pickupLocation),
                              Some(req.dropoffLocation), Some(req.rideId), freshId, nowMillis);
        && table.rows == (if insertOk then old(table.rows)[req.rideId := row] else old(table.rows))
        && queue.jobs == old(queue.jobs) + [SyncJob(true)]
    {
      if session.None? {
        return NoUser;
      }
      var uid := session.value.uid;
      var ok := store.Update(Path(Rides, req.rideId), R.RejectUpdate(uid, now), writeNet);
      if !ok {
        return WriteFailed;
      }
      outcome := Done;
      if req.passengerId != "" {
        SaveRideToHistory(table, queue, req.passengerId, Some(uid), Code(Rejected), Some(req.pickupLocation),
                          Some(req.dropoffLocation), Some(req.estimatedFare), Some(req.distance), Some(req.rideId),
                          freshId, nowMillis, insertOk);
      }
    }
  }

  lemma RequestsOfAppend(docs: seq<(string, Doc)>, d: (string, Doc))
    ensures RequestsOf(docs + [d]) == RequestsOf(docs) + [RequestOf(d.0, d.1)]
  {
  }

  /** An accept turns the stored ride into the same ride assigned to the caller, whatever its status was. */
  lemma AcceptAssigns(db: Db, u: User, req: RideRequest, ride: R.Ride, profile: Doc, now: Timestamp)
    requires Path(Drivers, u.uid) in db && db[Path(Drivers, u.uid)] == profile
    requires Path(Rides, req.rideId) in db && db[Path(Rides, req.rideId)] == R.ToDoc(ride)
    ensures var (db', outcome) := AcceptEffect(db, Some(u), req, now, true, true);
      && outcome == Done
      && db'[Path(Rides, req.rideId)]
         == R.ToDoc(ride.(status := DriverAssigned, driverId := u.uid, driver := SnapshotOf(profile), updatedAt := now))
  {
    R.AcceptIsAssign(ride, u.uid, SnapshotOf(profile), now);
  }

  /**
   * Two drivers accepting the same ride one after the other: the second accept wins outright,
   * so the ride ends up assigned to the second driver with the second driver's snapshot.
   */
  lemma LastAcceptWins(db: Db, u1: User, u2: User, req: RideRequest, ride: R.Ride, now1: Timestamp, now2: Timestamp)
    requires Path(Drivers, u1.uid) in db && Path(Drivers, u2.uid) in db && u1.uid != u2.uid
    requires Path(Rides, req.rideId) in db && db[Path(Rides, req.rideId)] == R.ToDoc(ride)
    ensures var (db1, o1) := AcceptEffect(db, Some(u1), req, now1, true, true);
      var (db2, o2) := AcceptEffect(db1, Some(u2), req, now2, true, true);
      && o1 == Done && o2 == Done
      && db2[Path(Rides, req.rideId)]
         == R.ToDoc(ride.(status := DriverAssigned, driverId := u2.uid,
                          driver := SnapshotOf(db[Path(Drivers, u2.uid)]), updatedAt := now2))
  {
    var ride1 := ride.(status := DriverAssigned, driverId := u1.uid, driver := SnapshotOf(db[Path(Drivers, u1.uid)]), updatedAt := now1);
    AcceptAssigns(db, u1, req, ride, db[Path(Drivers, u1.uid)], now1);
    var db1 := AcceptEffect(db, Some(u1), req, now1, true, true).0;
    assert db1 == db[Path(Rides, req.rideId) := R.ToDoc(ride1)];
    AcceptAssigns(db1, u2, req, ride1, db[Path(Drivers, u2.uid)], now2);
  }

  /** An accept by a caller without a driver profile changes nothing remotely. */
  lemma AcceptNeedsProfile(db: Db, u: User, req: RideRequest, now: Timestamp, writeNet: bool)
    requires Path(Drivers, u.uid) !in db
    ensures AcceptEffect(db, Some(u), req, now, true, writeNet) == (db, ProfileMissing)
  {
  }

  /** A reject records the rejecting driver and keeps the ride's driver snapshot. */
  lemma RejectKeepsSnapshot(db: Db, u: User, req: RideRequest, ride: R.Ride, now: Timestamp)
    requires Path(Rides, req.rideId) in db && db[Path(Rides, req.rideId)] == R.ToDoc(ride)
    ensures var (db', outcome) := RejectEffect(db, Some(u), req, now, true);
      && outcome == Done
      && db'[Path(Rides, req.rideId)] == R.ToDoc(ride.(status := Rejected, rejectedBy := Some(u.uid), updatedAt := now))
  {
    R.RejectIsReject(ride, u.uid, now);
  }
}
