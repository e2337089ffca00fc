/**
 * The passenger's rating of a finished ride: a rating record stored under the ride's id, then
 * the ride's status set to "rated".
 */
module RideRating {
  import opened Wrappers
  import opened Text
  import opened Documents
  import opened RemoteStore
  import opened RideStatus
  import R = RideRecord
  import opened Auth

  /** The screen opens only with both a ride id and a driver id; otherwise it closes without a write. */
  function OpensFor(rideIdExtra: Option<string>, driverIdExtra: Option<string>): (r: Option<(string, string)>)
    ensures r.Some? <==> rideIdExtra.GetOr("") != "" && driverIdExtra.GetOr("") != ""
    ensures r.Some? ==> r.value == (rideIdExtra.value, driverIdExtra.value)
  {
    var ride := rideIdExtra.GetOr("");
    var driver := driverIdExtra.GetOr("");
    if ride == "" || driver == "" then None else Some((ride, driver))
  }

  /** The rating record: the ride, both parties, the stars, the trimmed feedback and the time. */
  function RatingRecord(rideId': string, driverId': string, passengerId': string, stars: real, feedbackText: string,
                        now: Timestamp): (d: Doc)
    ensures GetString(d, feedback) == Some(Trim(feedbackText))
    ensures GetDouble(d, rating) == Some(stars)
  {
    map[rideId := Str(rideId'), driverId := Str(driverId'), passengerId := Str(passengerId'),
        rating := Num(stars), feedback := Str(Trim(feedbackText)), createdAt := Time(now)]
  }

  /** The record holds exactly its six fields. */
  lemma RatingRecordFields(rideId': string, driverId': string, passengerId': string, stars: real, feedbackText: string,
                           now: Timestamp)
    ensures RatingRecord(rideId', driverId', passengerId', stars, feedbackText, now).Keys
         == {rideId, driverId, passengerId, rating, feedback, createdAt}
  {
  }

  datatype RatingOutcome = NoUser | NoRating | RecordFailed | StatusFailed | Submitted

  /**
   * The remote effect of submitting: nothing without a user or with zero stars; otherwise the
   * record is set under the ride's id and, only if that succeeds, the ride's status is updated.
   */
  function SubmitEffect(db: Db, rideId': string, driverId': string, session: Session, stars: real,
                        feedbackText: string, now: Timestamp, setNet: bool, updateNet: bool): (r: (Db, RatingOutcome))
    ensures r.1.NoUser? || r.1.NoRating? || r.1.RecordFailed? ==> r.0 == db
    ensures r.1 == NoUser <==> session.None?
    ensures r.1 == NoRating <==> session.Some? && stars == 0.0
  {
    match session
    case None => (db, NoUser)
    case Some(u) =>
      if stars == 0.0 then (db, NoRating)
      else
        var (db1, stored) := SetDoc(db, Path(RideRatings, rideId'), RatingRecord(rideId', driverId', u.uid, stars, feedbackText, now), setNet);
        if !stored then (db1, RecordFailed)
        else
          var (db2, rated) := UpdateDoc(db1, Path(Rides, rideId'), R.RatedUpdate(), updateNet);
          (db2, if rated then Submitted else StatusFailed)
  }

  class RideRatingScreen {
    const rideId: string
    const driverId: string

    constructor (rideId: string, driverId: string)
      requires rideId != "" && driverId != ""
      ensures this.rideId == rideId && this.driverId == driverId
    {
      this.rideId := rideId;
      this.driverId := driverId;
    }

    method SubmitRating(store: Store, session: Session, stars: real, feedbackText: string, now: Timestamp,
                        setNet: bool, updateNet: bool)
      returns (outcome: RatingOutcome)
      modifies store
      ensures (store.db, outcome) == SubmitEffect(old(store.db), rideId, driverId, session, stars, feedbackText, now, setNet, updateNet)
    {
      var trimmed := Trim(feedbackText);
      if session.None? {
        return NoUser;
      }
      var passenger := session.value.uid;
      if stars == 0.0 {
        return NoRating;
      }
      var stored := store.Set(Path(RideRatings, rideId), RatingRecord(rideId, driverId, passenger, stars, feedbackText, now), setNet);
      if !stored {
        return RecordFailed;
      }
      var rated := store.Update(Path(Rides, rideId), R.RatedUpdate(), updateNet);
      outcome := if rated then Submitted else StatusFailed;
    }
  }

  /** With both writes succeeding, the record is stored and the status field is merged into the existing ride. */
  lemma SubmitWrites(db: Db, rideId': string, driver: string, u: User, stars: real, feedbackText: string, now: Timestamp)
    requires Path(Rides, rideId') in db && stars != 0.0
    ensures SubmitEffect(db, rideId', driver, Some(u), stars, feedbackText, now, true, true)
         == (db[Path(RideRatings, rideId') := RatingRecord(rideId', driver, u.uid, stars, feedbackText, now)]
               [Path(Rides, rideId') := Merge(db[Path(Rides, rideId')], R.RatedUpdate())],
             Submitted)
  {
    var q, p := Path(RideRatings, rideId'), Path(Rides, rideId');
    var rec := RatingRecord(rideId', driver, u.uid, stars, feedbackText, now);
    var db1 := db[q := rec];
    assert SetDoc(db, q, rec, true) == (db1, true);
    assert p in db1 && db1[p] == db[p];
    assert UpdateDoc(db1, p, R.RatedUpdate(), true) == (db1[p := Merge(db[p], R.RatedUpdate())], true);
  }

  /** A successful submission leaves the record in place and the stored ride rated, its update time kept. */
  lemma SubmittedRatesRide(db: Db, u: User, ride: R.Ride, driver: string, stars: real, feedbackText: string, now: Timestamp)
    requires Path(Rides, ride.rideId) in db && db[Path(Rides, ride.rideId)] == R.ToDoc(ride)
    requires stars != 0.0
    ensures var (db', outcome) := SubmitEffect(db, ride.rideId, driver, Some(u), stars, feedbackText, now, true, true);
      && outcome == Submitted
      && Path(RideRatings, ride.rideId) in db' && Path(Rides, ride.rideId) in db'
      && db'[Path(RideRatings, ride.rideId)] == RatingRecord(ride.rideId, driver, u.uid, stars, feedbackText, now)
      && db'[Path(Rides, ride.rideId)] == R.ToDoc(ride.(status := Rated))
  {
    SubmitWrites(db, ride.rideId, driver, u, stars, feedbackText, now);
    R.RatedIsStatusOnly(ride);
  }

  /** Submitting twice keeps only the second rating: the record is stored under the ride's id. */
  lemma ResubmissionOverwrites(db: Db, rideId': string, driver: string, u: User, s1: real, f1: string, t1: Timestamp,
                               s2: real, f2: string, t2: Timestamp, updateNet1: bool, updateNet2: bool)
    requires s1 != 0.0 && s2 != 0.0
    ensures var db1 := SubmitEffect(db, rideId', driver, Some(u), s1, f1, t1, true, updateNet1).0;
      var db2 := SubmitEffect(db1, rideId', driver, Some(u), s2, f2, t2, true, updateNet2).0;
      db2[Path(RideRatings, rideId')] == RatingRecord(rideId', driver, u.uid, s2, f2, t2)
  {
  }

  /** The ride is never marked rated when the record could not be stored. */
  lemma NoStatusWithoutRecord(db: Db, rideId': string, driver: string, session: Session, stars: real, feedbackText: string,
                              now: Timestamp, updateNet: bool)
    ensures SubmitEffect(db, rideId', driver, session, stars, feedbackText, now, false, updateNet).0 == db
  {
  }
}
