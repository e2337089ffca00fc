/**
 * A ride document in typed form, the document the booking screen writes for it, and the four
 * partial writes the other screens make to it (accept, reject, a status step, rated). Each
 * partial write is proved to be the corresponding change of the typed ride.
 */
module RideRecord {
  import opened Wrappers
  import opened Documents
  import opened RideStatus

  /** The driver fields copied into a ride when a driver accepts it. */
  datatype DriverSnapshot = DriverSnapshot(
    driverName: string,
    driverPhone: string,
    vehicleModel: string,
    vehicleColor: string,
    vehicleRegistration: string)

  /** The snapshot of a ride no driver has accepted: every field empty. */
  const Unassigned := DriverSnapshot("", "", "", "", "")

  datatype Place = Place(name: string, latitude: real, longitude: real)

  datatype Ride = Ride(
    rideId: string,
    passengerId: string,
    passengerName: string,
    passengerEmail: string,
    pickup: Place,
    dropoff: Place,
    vehicleType: string,
    estimatedFare: real,
    estimatedTime: int,
    distance: real,
    status: Status,
    driverId: string,
    driver: DriverSnapshot,
    rejectedBy: Option<string>,
    createdAt: Timestamp,
    updatedAt: Timestamp)

  /** The fields every ride document carries; `rejectedBy` is added only by a rejection. */
  const RideFields: set<Field> :=
    {rideId, passengerId, passengerName, passengerEmail,
     pickupLocation, pickupLatitude, pickupLongitude,
     dropoffLocation, dropoffLatitude, dropoffLongitude,
     vehicleType, estimatedFare, estimatedTime, distance, status,
     driverId, driverName, driverPhone, vehicleModel, vehicleColor, vehicleRegistration,
     createdAt, updatedAt}

  /** The fields the passenger fixes when booking; no later write touches them. */
  function BookingDoc(r: Ride): (d: Doc) {
    map[
      rideId := Str(r.rideId),
      passengerId := Str(r.passengerId),
      passengerName := Str(r.passengerName),
      passengerEmail := Str(r.passengerEmail),
      pickupLocation := Str(r.pickup.name),
      pickupLatitude := Num(r.pickup.latitude),
      pickupLongitude := Num(r.pickup.longitude),
      dropoffLocation := Str(r.dropoff.name),
      dropoffLatitude := Num(r.dropoff.latitude),
      dropoffLongitude := Num(r.dropoff.longitude),
      vehicleType := Str(r.vehicleType),
      estimatedFare := Num(r.estimatedFare),
      estimatedTime := Long(r.estimatedTime),
      distance := Num(r.distance),
      createdAt := Time(r.createdAt)
    ]
  }

  /** The fields the lifecycle writes: the status, the assigned driver, the rejection and the update time. */
  function StateDoc(r: Ride): (d: Doc) {
    var d := map[
      status := Str(Code(r.status)),
      driverId := Str(r.driverId),
      driverName := Str(r.driver.driverName),
      driverPhone := Str(r.driver.driverPhone),
      vehicleModel := Str(r.driver.vehicleModel),
      vehicleColor := Str(r.driver.vehicleColor),
      vehicleRegistration := Str(r.driver.vehicleRegistration),
      updatedAt := Time(r.updatedAt)
    ];
    if r.rejectedBy.Some? then d[rejectedBy := Str(r.rejectedBy.value)] else d
  }

  /** The ride as a stored document. */
  function ToDoc(r: Ride): Doc {
    BookingDoc(r) + StateDoc(r)
  }

  /** A stored ride carries exactly `RideFields`, plus `rejectedBy` once a driver has rejected it. */
  lemma ToDocFields(r: Ride)
    ensures ToDoc(r).Keys == if r.rejectedBy.Some? then RideFields + {rejectedBy} else RideFields
  {
  }

  /** Reads a document back as a ride; nothing when a field is missing or has the wrong type. */
  function FromDoc(d: Doc): (r: Option<Ride>)
    ensures r.Some? ==> GetString(d, status) == Some(Code(r.value.status)) && WellFormed(r.value.status)
  {
    var rideId' := GetString(d, rideId);
    var passengerId' := GetString(d, passengerId);
    var passengerName' := GetString(d, passengerName);
    var passengerEmail' := GetString(d, passengerEmail);
    var pickup' := GetString(d, pickupLocation);
    var pickupLat' := GetDouble(d, pickupLatitude);
    var pickupLon' := GetDouble(d, pickupLongitude);
    var dropoff' := GetString(d, dropoffLocation);
    var dropoffLat' := GetDouble(d, dropoffLatitude);
    var dropoffLon' := GetDouble(d, dropoffLongitude);
    var vehicleType' := GetString(d, vehicleType);
    var fare' := GetDouble(d, estimatedFare);
    var time' := GetLong(d, estimatedTime);
    var distance' := GetDouble(d, distance);
    var status' := GetString(d, status);
    var driverId' := GetString(d, driverId);
    var driverName' := GetString(d, driverName);
    var driverPhone' := GetString(d, driverPhone);
    var vehicleModel' := GetString(d, vehicleModel);
    var vehicleColor' := GetString(d, vehicleColor);
    var vehicleRegistration' := GetString(d, vehicleRegistration);
    var createdAt' := GetTimestamp(d, createdAt);
    var updatedAt' := GetTimestamp(d, updatedAt);
    if rideId'.Some? && passengerId'.Some? && passengerName'.Some? && passengerEmail'.Some?
      && pickup'.Some? && pickupLat'.Some? && pickupLon'.Some?
      && dropoff'.Some? && dropoffLat'.Some? && dropoffLon'.Some?
      && vehicleType'.Some? && fare'.Some? && time'.Some? && distance'.Some? && status'.Some?
      && driverId'.Some? && driverName'.Some? && driverPhone'.Some? && vehicleModel'.Some?
      && vehicleColor'.Some? && vehicleRegistration'.Some? && createdAt'.Some? && updatedAt'.Some?
    then
      Some(Ride(
        rideId'.value, passengerId'.value, passengerName'.value, passengerEmail'.value,
        Place(pickup'.value, pickupLat'.value, pickupLon'.value),
        Place(dropoff'.value, dropoffLat'.value, dropoffLon'.value),
        vehicleType'.value, fare'.value, time'.value, distance'.value, Parse(status'.value),
        driverId'.value,
        DriverSnapshot(driverName'.value, driverPhone'.value, vehicleModel'.value, vehicleColor'.value,
                       vehicleRegistration'.value),
        GetString(d, rejectedBy), createdAt'.value, updatedAt'.value))
    else None
  }

  /** Writing a ride and reading it back yields the same ride. */
  lemma FromToDoc(r: Ride)
    requires WellFormed(r.status)
    ensures FromDoc(ToDoc(r)) == Some(r)
  {
    ParseCode(r.status);
    ReadIds(r);
    ReadPassenger(r);
    ReadPlaceNames(r);
    ReadPickup(r);
    ReadDropoff(r);
    ReadFare(r);
    ReadTrip(r);
    ReadStatus(r);
    ReadTimes(r);
    ReadDriver(r);
    ReadVehicle(r);
  }

  /** The ids of a stored ride read back as written. */
  lemma ReadIds(r: Ride)
    ensures GetString(ToDoc(r), rideId) == Some(r.rideId)
    ensures GetString(ToDoc(r), passengerId) == Some(r.passengerId)
  {
  }

  /** The passenger's name and email on a stored ride read back as written. */
  lemma ReadPassenger(r: Ride)
    ensures GetString(ToDoc(r), passengerName) == Some(r.passengerName)
    ensures GetString(ToDoc(r), passengerEmail) == Some(r.passengerEmail)
  {
  }

  /** The place names of a stored ride read back as written. */
  lemma ReadPlaceNames(r: Ride)
    ensures GetString(ToDoc(r), pickupLocation) == Some(r.pickup.name)
    ensures GetString(ToDoc(r), dropoffLocation) == Some(r.dropoff.name)
  {
  }

  /** The pickup coordinates of a stored ride read back as written. */
  lemma ReadPickup(r: Ride)
    ensures GetDouble(ToDoc(r), pickupLatitude) == Some(r.pickup.latitude)
    ensures GetDouble(ToDoc(r), pickupLongitude) == Some(r.pickup.longitude)
  {
  }

  /** The drop-off coordinates of a stored ride read back as written. */
  lemma ReadDropoff(r: Ride)
    ensures GetDouble(ToDoc(r), dropoffLatitude) == Some(r.dropoff.latitude)
    ensures GetDouble(ToDoc(r), dropoffLongitude) == Some(r.dropoff.longitude)
  {
  }

  /** The vehicle type and fare of a stored ride read back as written. */
  lemma ReadFare(r: Ride)
    ensures GetString(ToDoc(r), vehicleType) == Some(r.vehicleType)
    ensures GetDouble(ToDoc(r), estimatedFare) == Some(r.estimatedFare)
  {
  }

  /** The estimated time and distance of a stored ride read back as written. */
  lemma ReadTrip(r: Ride)
    ensures GetLong(ToDoc(r), estimatedTime) == Some(r.estimatedTime)
    ensures GetDouble(ToDoc(r), distance) == Some(r.distance)
  {
  }

  /** The status and driver id of a stored ride read back as written. */
  lemma ReadStatus(r: Ride)
    ensures GetString(ToDoc(r), status) == Some(Code(r.status))
    ensures GetString(ToDoc(r), driverId) == Some(r.driverId)
  {
  }

  /** The timestamps and the rejection of a stored ride read back as written. */
  lemma ReadTimes(r: Ride)
    ensures GetTimestamp(ToDoc(r), createdAt) == Some(r.createdAt)
    ensures GetTimestamp(ToDoc(r), updatedAt) == Some(r.updatedAt)
    ensures GetString(ToDoc(r), rejectedBy) == r.rejectedBy
  {
  }

  /** The driver's name and phone on a stored ride read back as written. */
  lemma ReadDriver(r: Ride)
    ensures GetString(ToDoc(r), driverName) == Some(r.driver.driverName)
    ensures GetString(ToDoc(r), driverPhone) == Some(r.driver.driverPhone)
  {
  }

  /** The vehicle on a stored ride reads back as written. */
  lemma ReadVehicle(r: Ride)
    ensures GetString(ToDoc(r), vehicleModel) == Some(r.driver.vehicleModel)
    ensures GetString(ToDoc(r), vehicleColor) == Some(r.driver.vehicleColor)
    ensures GetString(ToDoc(r), vehicleRegistration) == Some(r.driver.vehicleRegistration)
  {
  }

  /** The fields an accepting driver writes (the status, the driver id, the snapshot and the time). */
  function AcceptUpdate(driver: string, s: DriverSnapshot, now: Timestamp): (u: Doc) {
    map[
      status := Str(Code(DriverAssigned)),
      driverId := Str(driver),
      driverName := Str(s.driverName),
      driverPhone := Str(s.driverPhone),
      vehicleModel := Str(s.vehicleModel),
      vehicleColor := Str(s.vehicleColor),
      vehicleRegistration := Str(s.vehicleRegistration),
      updatedAt := Time(now)
    ]
  }

  /** The fields a rejecting driver writes. */
  function RejectUpdate(driver: string, now: Timestamp): (u: Doc) {
    map[status := Str(Code(Rejected)), rejectedBy := Str(driver), updatedAt := Time(now)]
  }

  /** The fields the driver's tracking screen writes for one status step. */
  function StatusUpdate(s: Status, now: Timestamp): (u: Doc) {
    map[status := Str(Code(s)), updatedAt := Time(now)]
  }

  /** The single field a submitted rating writes: the status only, without a new `updatedAt`. */
  function RatedUpdate(): (u: Doc) {
    map[status := Str(Code(Rated))]
  }

  /**
   * A write that touches only lifecycle fields and turns the lifecycle part of `r` into that of
   * `r'`, where `r'` keeps the booking of `r`, turns the stored `r` into the stored `r'`.
   */
  lemma {:induction false} StateWrite(r: Ride, r': Ride, u: Doc)
    requires BookingDoc(r') == BookingDoc(r)
    requires Merge(StateDoc(r), u) == StateDoc(r')
    ensures Merge(ToDoc(r), u) == ToDoc(r')
  {
    MergeAssociative(BookingDoc(r), StateDoc(r), u);
  }

  /** Accepting merges `AcceptUpdate` into the stored ride: exactly the assignment of the typed ride. */
  lemma AcceptIsAssign(r: Ride, uid: string, s: DriverSnapshot, now: Timestamp)
    ensures Merge(ToDoc(r), AcceptUpdate(uid, s, now))
         == ToDoc(r.(status := DriverAssigned, driverId := uid, driver := s, updatedAt := now))
  {
    var r' := r.(status := DriverAssigned, driverId := uid, driver := s, updatedAt := now);
    assert Merge(StateDoc(r), AcceptUpdate(uid, s, now)) == StateDoc(r');
    StateWrite(r, r', AcceptUpdate(uid, s, now));
  }

  /** Rejecting sets the status, records the rejecting driver and leaves the driver snapshot alone. */
  lemma RejectIsReject(r: Ride, uid: string, now: Timestamp)
    ensures Merge(ToDoc(r), RejectUpdate(uid, now))
         == ToDoc(r.(status := Rejected, rejectedBy := Some(uid), updatedAt := now))
  {
    var r' := r.(status := Rejected, rejectedBy := Some(uid), updatedAt := now);
    assert Merge(StateDoc(r), RejectUpdate(uid, now)) == StateDoc(r');
    StateWrite(r, r', RejectUpdate(uid, now));
  }

  /** A status step changes the status and the update time and nothing else. */
  lemma StatusUpdateIsStep(r: Ride, s: Status, now: Timestamp)
    ensures Merge(ToDoc(r), StatusUpdate(s, now)) == ToDoc(r.(status := s, updatedAt := now))
  {
    var r' := r.(status := s, updatedAt := now);
    assert Merge(StateDoc(r), StatusUpdate(s, now)) == StateDoc(r');
    StateWrite(r, r', StatusUpdate(s, now));
  }

  /** Marking a ride rated changes its status only; its update time stays what it was. */
  lemma RatedIsStatusOnly(r: Ride)
    ensures Merge(ToDoc(r), RatedUpdate()) == ToDoc(r.(status := Rated))
  {
    var r' := r.(status := Rated);
    assert Merge(StateDoc(r), RatedUpdate()) == StateDoc(r');
    StateWrite(r, r', RatedUpdate());
  }
}
