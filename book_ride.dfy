/**
 * The passenger's booking screen: two location fields with their coordinates, a vehicle type,
 * the estimate shown for them, and the booking of a new ride. The distance function and the
 * place-search service are outside the model; the service's replies arrive as `PlaceReply`
 * values through `ApplyPlaceReply`.
 */
module BookRide {
  import opened Wrappers
  import opened Text
  import D = Documents
  import opened RemoteStore
  import opened RideStatus
  import R = RideRecord
  import opened FareEstimator
  import opened Auth
  import Campus

  /** The vehicle types the dropdown offers, in its order; the first is preselected. */
  const VehicleTypes: seq<string> := ["Standard", "Premium", "Group"]

  /**
   * The suggestion list: the booking screen keeps the campus spots in its own order (Engineering
   * Block and Cafeteria before Science Building), given here as positions in `Campus.Spots`.
   */
  const SuggestionOrder: seq<nat> := [0, 1, 2, 4, 8, 3, 5, 6, 7, 9]

  /** Every suggestion is a campus spot, and each spot is suggested exactly once. */
  lemma SuggestionsArePermutation()
    ensures forall i :: 0 <= i < |SuggestionOrder| ==> SuggestionOrder[i] < |Campus.Spots|
    ensures |SuggestionOrder| == |Campus.Spots|
    ensures forall i, j :: 0 <= i < j < |SuggestionOrder| ==> SuggestionOrder[i] != SuggestionOrder[j]
  {
  }

  /** The campus spot listed at `position` of the suggestion list. */
  function Suggestion(position: nat): Campus.Spot
    requires position < |SuggestionOrder|
  {
    Campus.Spots[SuggestionOrder[position]]
  }

  /**
   * A dropdown as the suggestion filter leaves it after some typing: positions in the suggestion
   * list, in list order, each at most once. The filter itself belongs to the platform.
   */
  predicate ShownList(shown: seq<nat>) {
    && (forall i :: 0 <= i < |shown| ==> shown[i] < |SuggestionOrder|)
    && (forall i, j :: 0 <= i < j < |shown| ==> shown[i] < shown[j])
  }

  /** A shown list is never longer than the suggestion list: a dropdown position is also a list position. */
  lemma {:induction false} ShownPositionAtMostListed(shown: seq<nat>, position: nat)
    requires ShownList(shown) && position < |shown|
    ensures position <= shown[position] < |SuggestionOrder|
  {
    if position > 0 {
      ShownPositionAtMostListed(shown, position - 1);
    }
  }

  function WithSide(c: Coords, isPickup: bool, lat: real, lon: real): (r: Coords)
  {
    if isPickup then c.(pickupLatitude := lat, pickupLongitude := lon)
    else c.(dropoffLatitude := lat, dropoffLongitude := lon)
  }

  function SideLatitude(c: Coords, isPickup: bool): real {
    if isPickup then c.pickupLatitude else c.dropoffLatitude
  }

  /** The text a location field shows. */
  function SideText(f: Form, isPickup: bool): string {
    if isPickup then f.pickupText else f.dropoffText
  }

  /**
   * The coordinates after one location field changes to `location` (already trimmed): cleared
   * when it is empty, the spot's when it names a campus spot, and otherwise kept as they were.
   */
  function AfterEdit(c: Coords, isPickup: bool, location: string): (r: Coords)
  {
    if location == [] then WithSide(c, isPickup, 0.0, 0.0)
    else match Campus.Lookup(location)
      case Some(spot) => WithSide(c, isPickup, spot.latitude, spot.longitude)
      case None => c
  }

  /**
   * The place name sent to the place-search service after such an edit: only text that is
   * neither empty nor a campus spot, and only while that side has no latitude yet.
   */
  function LookupAfterEdit(c: Coords, isPickup: bool, location: string): (r: Option<string>)
  {
    if location != [] && Campus.Lookup(location).None? && SideLatitude(c, isPickup) == 0.0
    then Some(location) else None
  }

  /** A reply of the place-search service: a first result, an empty result, an error, or an empty body. */
  datatype PlaceReply = Found(latitude: real, longitude: real) | NotFound | Failed | EmptyBody

  /** The coordinates after a reply: a result is taken, a miss or an error clears the side, an empty body changes nothing. */
  function AfterReply(c: Coords, isPickup: bool, reply: PlaceReply): (r: Coords)
  {
    match reply
    case Found(lat, lon) => WithSide(c, isPickup, lat, lon)
    case NotFound => WithSide(c, isPickup, 0.0, 0.0)
    case Failed => WithSide(c, isPickup, 0.0, 0.0)
    case EmptyBody => c
  }

  /** Choosing a campus spot on both sides always gives a complete set of coordinates. */
  lemma TwoSpotsComplete(c: Coords, pickup: string, dropoff: string)
    requires Campus.Lookup(pickup).Some? && Campus.Lookup(dropoff).Some?
    ensures Complete(AfterEdit(AfterEdit(c, true, pickup), false, dropoff))
  {
    Campus.CoordinatesNonZero();
  }

  /** What the booking screen holds: the two fields, the vehicle type, the coordinates and the shown estimate. */
  datatype Form = Form(
    pickupText: string,
    dropoffText: string,
    selectedVehicleType: string,
    vehicleText: string,
    coords: Coords,
    estimate: Estimate)

  const InitialForm := Form("", "", VehicleTypes[0], VehicleTypes[0], NoCoords, NoEstimate)

  /** The shown estimate is the one for the form's coordinates and selected vehicle type. */
  ghost predicate Consistent(f: Form, dist: DistanceFn) {
    NonNegative(dist) && f.estimate == Calculate(f.coords, f.selectedVehicleType, dist)
  }

  /** The form with its estimate recomputed. */
  function Recalculated(f: Form, dist: DistanceFn): (r: Form)
    requires NonNegative(dist)
    ensures Consistent(r, dist)
    ensures r.estimate.fare > 0.0 <==> Complete(r.coords)
  {
    PositiveFareIffComplete(f.coords, f.selectedVehicleType, dist);
    f.(estimate := Calculate(f.coords, f.selectedVehicleType, dist))
  }

  function WithText(f: Form, isPickup: bool, text: string): Form {
    if isPickup then f.(pickupText := text) else f.(dropoffText := text)
  }

  /** After one location field changes to `text`: coordinates by `AfterEdit` of the trimmed text, estimate recomputed. */
  function Edited(f: Form, isPickup: bool, text: string, dist: DistanceFn): (r: Form)
    requires NonNegative(dist)
    ensures Consistent(r, dist)
    ensures r.selectedVehicleType == f.selectedVehicleType && r.vehicleText == f.vehicleText
  {
    Recalculated(WithText(f, isPickup, text).(coords := AfterEdit(f.coords, isPickup, Trim(text))), dist)
  }

  /** After a reply of the place-search service for one side. */
  function Replied(f: Form, isPickup: bool, reply: PlaceReply, dist: DistanceFn): (r: Form)
    requires NonNegative(dist)
    ensures Consistent(r, dist)
    ensures (reply.NotFound? || reply.Failed?) ==> r.estimate == NoEstimate
  {
    Recalculated(f.(coords := AfterReply(f.coords, isPickup, reply)), dist)
  }

  /** After a point is taken for one side under the name `name` (a suggestion or the map screen's result). */
  function Placed(f: Form, isPickup: bool, name: string, lat: real, lon: real, dist: DistanceFn): (r: Form)
    requires NonNegative(dist)
    ensures Consistent(r, dist)
    ensures r.coords == WithSide(f.coords, isPickup, lat, lon)
  {
    Recalculated(WithText(f, isPickup, name).(coords := WithSide(f.coords, isPickup, lat, lon)), dist)
  }

  /** After the vehicle type is chosen from the dropdown. */
  function VehicleChosen(f: Form, vehicleType: string, dist: DistanceFn): (r: Form)
    requires NonNegative(dist)
    ensures Consistent(r, dist)
    ensures r.coords == f.coords && r.selectedVehicleType == vehicleType
  {
    Recalculated(f.(selectedVehicleType := vehicleType, vehicleText := vehicleType), dist)
  }

  /** After the saved inputs are restored: both fields edited, the saved vehicle type only displayed. */
  function Restored(f: Form, pickup: string, dropoff: string, vehicleType: string, dist: DistanceFn): (r: Form)
    requires NonNegative(dist)
    ensures Consistent(r, dist)
    ensures r.selectedVehicleType == f.selectedVehicleType && r.vehicleText == vehicleType
  {
    Edited(Edited(f, true, pickup, dist), false, dropoff, dist).(vehicleText := vehicleType)
  }

  /** A form whose estimate is current already equals its recomputation. */
  lemma RecalculateConsistent(f: Form, dist: DistanceFn)
    requires Consistent(f, dist)
    ensures Recalculated(f, dist) == f
  {
  }

  /** Editing both fields to campus spots always makes booking possible. */
  lemma TwoSpotsEnableBooking(f: Form, pickup: string, dropoff: string, dist: DistanceFn)
    requires NonNegative(dist)
    requires Campus.Lookup(Trim(pickup)).Some? && Campus.Lookup(Trim(dropoff)).Some?
    ensures Edited(Edited(f, true, pickup, dist), false, dropoff, dist).estimate.fare > 0.0
  {
    TwoSpotsComplete(f.coords, Trim(pickup), Trim(dropoff));
  }

  /** Clearing either field withdraws the estimate. */
  lemma ClearingWithdrawsEstimate(f: Form, isPickup: bool, text: string, dist: DistanceFn)
    requires NonNegative(dist) && Trim(text) == []
    ensures Edited(f, isPickup, text, dist).estimate == NoEstimate
  {
    CalculateSpec(AfterEdit(f.coords, isPickup, []), f.selectedVehicleType, dist);
  }

  /** Restoring a Premium or Group booking still prices the restored trip as the type already selected. */
  lemma RestoreKeepsPricing(f: Form, pickup: string, dropoff: string, vehicleType: string, dist: DistanceFn)
    requires NonNegative(dist)
    ensures var r := Restored(f, pickup, dropoff, vehicleType, dist);
      r.estimate == Calculate(r.coords, f.selectedVehicleType, dist)
  {
  }

  /** Setting a side after editing it leaves only the setting visible. */
  lemma OverwriteAfterEdit(c: Coords, isPickup: bool, location: string, lat: real, lon: real)
    ensures WithSide(AfterEdit(c, isPickup, location), isPickup, lat, lon) == WithSide(c, isPickup, lat, lon)
  {
  }

  /** A campus name found by exact lookup is its own trimmed form. */
  lemma SameSpotTrimmed(name: string)
    requires Campus.Lookup(name).Some?
    ensures Trim(name) == name
  {
    Campus.LookupSpec(name);
    var j :| 0 <= j < |Campus.Spots| && Campus.Spots[j].name == name;
    Campus.NamesTrimmed(j);
  }

  datatype BookingError = MissingLocation | SameLocation | NoFare | NotSignedIn

  /**
   * The checks before a booking, in their order: both locations given, the two different, a
   * fare shown, a user signed in.
   */
  function ValidateBooking(pickup: string, dropoff: string, fare: real, session: Session): (r: Result<User, BookingError>)
    ensures r.Ok? <==> pickup != [] && dropoff != [] && pickup != dropoff && fare > 0.0 && session.Some?
    ensures r.Ok? ==> r.value == session.value
    ensures r == Err(MissingLocation) <==> pickup == [] || dropoff == []
    ensures r == Err(SameLocation) <==> pickup != [] && dropoff != [] && pickup == dropoff
    ensures r == Err(NoFare) <==> pickup != [] && dropoff != [] && pickup != dropoff && fare <= 0.0
  {
    if pickup == [] || dropoff == [] then Err(MissingLocation)
    else if pickup == dropoff then Err(SameLocation)
    else if fare <= 0.0 then Err(NoFare)
    else if session.None? then Err(NotSignedIn)
    else Ok(session.value)
  }

  /** The name a new ride shows for its passenger: the display name, else the email, else "Passenger". */
  function PassengerName(u: User): (r: string)
    ensures u.displayName.Some? ==> r == u.displayName.value
    ensures u.displayName.None? && u.email.Some? ==> r == u.email.value
    ensures u.displayName.None? && u.email.None? ==> r == "Passenger"
  {
    u.displayName.GetOr(u.email.GetOr("Passenger"))
  }

  /** The ride a booking creates: searching, with no driver, stamped `now` on creation and update. */
  function NewRide(rideId: string, u: User, pickup: string, dropoff: string, c: Coords,
                   vehicleType: string, e: Estimate, distance: real, now: D.Timestamp): (r: R.Ride)
    ensures r.rideId == rideId && r.passengerId == u.uid
    ensures r.status == Searching && r.driverId == "" && r.driver == R.Unassigned && r.rejectedBy.None?
    ensures r.createdAt == now && r.updatedAt == now
    ensures r.estimatedFare == e.fare && r.estimatedTime == e.minutes && r.vehicleType == vehicleType
  {
    R.Ride(
      rideId, u.uid, PassengerName(u), u.email.GetOr(""),
      R.Place(pickup, c.pickupLatitude, c.pickupLongitude),
      R.Place(dropoff, c.dropoffLatitude, c.dropoffLongitude),
      vehicleType, e.fare, e.minutes, distance, Searching, "", R.Unassigned, None, now, now)
  }

  /** A booked ride reads back from its document as a searching ride that no driver has taken. */
  lemma BookedRideReadsBack(rideId: string, u: User, pickup: string, dropoff: string, c: Coords,
                            vehicleType: string, e: Estimate, distance: real, now: D.Timestamp)
    ensures var ride := NewRide(rideId, u, pickup, dropoff, c, vehicleType, e, distance, now);
      R.FromDoc(R.ToDoc(ride)) == Some(ride)
      && D.GetString(R.ToDoc(ride), D.status) == Some("searching")
      && D.GetString(R.ToDoc(ride), D.driverId) == Some("")
  {
    var ride := NewRide(rideId, u, pickup, dropoff, c, vehicleType, e, distance, now);
    R.FromToDoc(ride);
    R.ReadStatus(ride);
  }

  datatype BookingOutcome = Refused(reason: BookingError) | WriteFailed | Booked(rideId: string)

  class BookRideScreen {
    var pickupText: string
    var dropoffText: string
    /** The type the fare is computed for. */
    var selectedVehicleType: string
    /** What the vehicle dropdown displays; restoring saved inputs changes only this. */
    var vehicleText: string
    var pickupLatitude: real
    var pickupLongitude: real
    var dropoffLatitude: real
    var dropoffLongitude: real
    var estimatedFare: real
    var estimatedTime: int
    /** The great-circle distance in kilometres between two points. */
    const distanceFn: DistanceFn

    function Coordinates(): Coords
      reads this
    {
      Coords(pickupLatitude, pickupLongitude, dropoffLatitude, dropoffLongitude)
    }

    function Snapshot(): Form
      reads this
    {
      Form(pickupText, dropoffText, selectedVehicleType, vehicleText, Coordinates(),
           Estimate(estimatedFare, estimatedTime))
    }

    /** The shown estimate is always the one for the current coordinates and vehicle type. */
    ghost predicate Valid()
      reads this
    {
      Consistent(Snapshot(), distanceFn)
    }

    /** Whether the book button is enabled: all four coordinates set and a positive fare. */
    predicate BookingEnabled()
      reads this
    {
      pickupLatitude != 0.0 && pickupLongitude != 0.0 && dropoffLatitude != 0.0 && dropoffLongitude != 0.0
      && estimatedFare > 0.0
    }

    constructor (distanceFn: DistanceFn)
      requires NonNegative(distanceFn)
      ensures Valid() && Snapshot() == InitialForm
      ensures this.distanceFn == distanceFn
    {
      this.distanceFn := distanceFn;
      pickupText, dropoffText := "", "";
      selectedVehicleType, vehicleText := VehicleTypes[0], VehicleTypes[0];
      pickupLatitude, pickupLongitude, dropoffLatitude, dropoffLongitude := 0.0, 0.0, 0.0, 0.0;
      estimatedFare, estimatedTime := 0.0, 0;
    }

    /** Recomputes the estimate from the current coordinates and vehicle type. */
    method CalculateFareAndTime()
      requires NonNegative(distanceFn)
      modifies this`estimatedFare, this`estimatedTime
      ensures Snapshot() == Recalculated(old(Snapshot()), distanceFn)
    {
      var e := Calculate(Coordinates(), selectedVehicleType, distanceFn);
      estimatedFare, estimatedTime := e.fare, e.minutes;
    }

    method SetSide(isPickup: bool, lat: real, lon: real)
      modifies this`pickupLatitude, this`pickupLongitude, this`dropoffLatitude, this`dropoffLongitude
      ensures Snapshot() == old(Snapshot()).(coords := WithSide(old(Coordinates()), isPickup, lat, lon))
    {
      if isPickup {
        pickupLatitude, pickupLongitude := lat, lon;
      } else {
        dropoffLatitude, dropoffLongitude := lat, lon;
      }
    }

    method SetText(isPickup: bool, text: string)
      modifies this`pickupText, this`dropoffText
      ensures Snapshot() == WithText(old(Snapshot()), isPickup, text)
    {
      if isPickup {
        pickupText := text;
      } else {
        dropoffText := text;
      }
    }

    /**
     * One location field now holds `text`. The screen reacts to the trimmed text: empty clears
     * that side, a campus spot sets it, anything else keeps the coordinates and, while that side
     * has no latitude, is sent to the place-search service (`lookup`).
     */
    method EditLocation(isPickup: bool, text: string) returns (lookup: Option<string>)
      requires Valid()
      modifies this
      ensures Valid()
      ensures Snapshot() == Edited(old(Snapshot()), isPickup, text, distanceFn)
      ensures lookup == LookupAfterEdit(old(Coordinates()), isPickup, Trim(text))
    {
      SetText(isPickup, text);
      lookup := ReactToLocation(isPickup, Trim(text));
    }

    /** The reaction to a field's trimmed text `location`, after the text itself is stored. */
    method ReactToLocation(isPickup: bool, location: string) returns (lookup: Option<string>)
      requires Valid()
      modifies this`pickupLatitude, this`pickupLongitude, this`dropoffLatitude, this`dropoffLongitude,
        this`estimatedFare, this`estimatedTime
      ensures Valid()
      ensures Snapshot() == Recalculated(old(Snapshot()).(coords := AfterEdit(old(Coordinates()), isPickup, location)), distanceFn)
      ensures lookup == LookupAfterEdit(old(Coordinates()), isPickup, location)
    {
      lookup := None;
      if location == [] {
        SetSide(isPickup, 0.0, 0.0);
        CalculateFareAndTime();
      } else {
        var spot := Campus.Lookup(location);
        if spot.Some? {
          SetSide(isPickup, spot.value.latitude, spot.value.longitude);
          CalculateFareAndTime();
        } else if (isPickup && pickupLatitude == 0.0) || (!isPickup && dropoffLatitude == 0.0) {
          lookup := Some(location);
          RecalculateConsistent(Snapshot(), distanceFn);
        } else {
          CalculateFareAndTime();
        }
      }
    }

    /** The place-search service answers for one side. */
    method ApplyPlaceReply(isPickup: bool, reply: PlaceReply)
      requires Valid()
      modifies this`pickupLatitude, this`pickupLongitude, this`dropoffLatitude, this`dropoffLongitude,
        this`estimatedFare, this`estimatedTime
      ensures Valid()
      ensures Snapshot() == Replied(old(Snapshot()), isPickup, reply, distanceFn)
    {
      match reply
      case Found(lat, lon) =>
        SetSide(isPickup, lat, lon);
        CalculateFareAndTime();
      case NotFound =>
        SetSide(isPickup, 0.0, 0.0);
        CalculateFareAndTime();
      case Failed =>
        SetSide(isPickup, 0.0, 0.0);
        CalculateFareAndTime();
      case EmptyBody =>
    }

    /**
     * The map screen returns a point for one side. The field's new text is handled first (which
     * may send it to the place-search service, `lookup`), then the point is taken.
     */
    method ApplyMapResult(isPickup: bool, name: string, lat: real, lon: real) returns (lookup: Option<string>)
      requires Valid()
      modifies this
      ensures Valid()
      ensures Snapshot() == Placed(old(Snapshot()), isPickup, name, lat, lon, distanceFn)
      ensures lookup == LookupAfterEdit(old(Coordinates()), isPickup, Trim(name))
    {
      ghost var before := Snapshot();
      lookup := EditLocation(isPickup, name);
      OverwriteAfterEdit(before.coords, isPickup, Trim(name), lat, lon);
      SetSide(isPickup, lat, lon);
      CalculateFareAndTime();
    }

    /**
     * Text written into a location field (its watcher runs on it), then the coordinates of that
     * side set and the estimate recomputed.
     */
    method WriteThenLocate(isPickup: bool, text: string, lat: real, lon: real)
      requires Valid()
      modifies this
      ensures Valid()
      ensures Snapshot() == Placed(old(Snapshot()), isPickup, text, lat, lon, distanceFn)
    {
      ghost var before := Snapshot();
      var _ := EditLocation(isPickup, text);
      OverwriteAfterEdit(before.coords, isPickup, Trim(text), lat, lon);
      SetSide(isPickup, lat, lon);
      CalculateFareAndTime();
    }

    /**
     * The user clicks entry `position` of the dropdown `shown`. The field receives the clicked
     * entry's name, but the click listener takes the spot at `position` of the unfiltered list.
     */
    method ChooseSuggestion(isPickup: bool, shown: seq<nat>, position: nat)
      requires Valid() && ShownList(shown) && position < |shown|
      modifies this
      ensures Valid()
      ensures position < |SuggestionOrder|
      ensures Snapshot() == Placed(old(Snapshot()), isPickup, Suggestion(shown[position]).name,
                                   Suggestion(position).latitude, Suggestion(position).longitude, distanceFn)
    {
      ShownPositionAtMostListed(shown, position);
      var clicked, listed := Suggestion(shown[position]), Suggestion(position);
      WriteThenLocate(isPickup, clicked.name, listed.latitude, listed.longitude);
    }

    /** The click as intended: the field's name and the coordinates both come from the clicked entry. */
    method ChooseShownSuggestion(isPickup: bool, shown: seq<nat>, position: nat)
      requires Valid() && ShownList(shown) && position < |shown|
      modifies this
      ensures Valid()
      ensures Snapshot() == Placed(old(Snapshot()), isPickup, Suggestion(shown[position]).name,
                                   Suggestion(shown[position]).latitude, Suggestion(shown[position]).longitude, distanceFn)
    {
      var clicked := Suggestion(shown[position]);
      WriteThenLocate(isPickup, clicked.name, clicked.latitude, clicked.longitude);
    }

    /** The current-location button: the pickup becomes the Student Center spot. */
    method UseCurrentLocation()
      requires Valid()
      modifies this
      ensures Valid()
      ensures Snapshot() == Placed(old(Snapshot()), true, Campus.CurrentLocation,
                                   Campus.Spots[1].latitude, Campus.Spots[1].longitude, distanceFn)
    {
      WriteThenLocate(true, Campus.CurrentLocation, Campus.Spots[1].latitude, Campus.Spots[1].longitude);
    }

    /** The user picks vehicle type `position` from the dropdown; the estimate follows it. */
    method ChooseVehicleType(position: nat)
      requires Valid() && position < |VehicleTypes|
      modifies this`selectedVehicleType, this`vehicleText, this`estimatedFare, this`estimatedTime
      ensures Valid()
      ensures Snapshot() == VehicleChosen(old(Snapshot()), VehicleTypes[position], distanceFn)
    {
      selectedVehicleType := VehicleTypes[position];
      vehicleText := VehicleTypes[position];
      CalculateFareAndTime();
    }

    /**
     * Restores the inputs saved by the last booking. The saved vehicle type is only displayed:
     * the fare keeps using the type already selected.
     */
    method RestoreSavedInputs(savedPickup: string, savedDropoff: string, savedVehicleType: string)
      returns (pickupLookup: Option<string>, dropoffLookup: Option<string>)
      requires Valid()
      modifies this
      ensures Valid()
      ensures Snapshot() == Restored(old(Snapshot()), savedPickup, savedDropoff, savedVehicleType, distanceFn)
      ensures pickupLookup == LookupAfterEdit(old(Coordinates()), true, Trim(savedPickup))
      ensures dropoffLookup == LookupAfterEdit(Edited(old(Snapshot()), true, savedPickup, distanceFn).coords, false, Trim(savedDropoff))
    {
      pickupLookup := EditLocation(true, savedPickup);
      dropoffLookup := EditLocation(false, savedDropoff);
      vehicleText := savedVehicleType;
      ghost var edited := Snapshot();
      var pickupSpot := Campus.Lookup(savedPickup);
      if savedPickup != [] && pickupSpot.Some? {
        SameSpotTrimmed(savedPickup);
        SetSide(true, pickupSpot.value.latitude, pickupSpot.value.longitude);
      }
      assert Snapshot() == edited;
      var dropoffSpot := Campus.Lookup(savedDropoff);
      if savedDropoff != [] && dropoffSpot.Some? {
        SameSpotTrimmed(savedDropoff);
        SetSide(false, dropoffSpot.value.latitude, dropoffSpot.value.longitude);
      }
      assert Snapshot() == edited;
      if pickupLatitude != 0.0 && dropoffLatitude != 0.0 {
        CalculateFareAndTime();
      }
    }

    /** The ride this screen would book now for `u`. */
    function PendingRide(rideId: string, u: User, now: D.Timestamp): R.Ride
      reads this
    {
      NewRide(rideId, u, Trim(pickupText), Trim(dropoffText), Coordinates(), selectedVehicleType,
              Estimate(estimatedFare, estimatedTime), DistanceOf(Coordinates(), distanceFn), now)
    }

    /**
     * The book button: the checks of `ValidateBooking` on the trimmed fields, then one write of
     * the new ride under a fresh id.
     */
    method Book(store: Store, session: Session, rideId: string, now: D.Timestamp, net: bool)
      returns (outcome: BookingOutcome)
      modifies store
      ensures var check := ValidateBooking(Trim(pickupText), Trim(dropoffText), estimatedFare, session);
        && (check.Err? ==> outcome == Refused(check.error) && store.db == old(store.db))
        && (check.Ok? ==> store.db == SetDoc(old(store.db), Path(Rides, rideId), R.ToDoc(PendingRide(rideId, check.value, now)), net).0)
        && (check.Ok? ==> outcome == if net then Booked(rideId) else WriteFailed)
    {
      var check := ValidateBooking(Trim(pickupText), Trim(dropoffText), estimatedFare, session);
      if check.Err? {
        return Refused(check.error);
      }
      var ride := PendingRide(rideId, check.value, now);
      var ok := store.Set(Path(Rides, rideId), R.ToDoc(ride), net);
      assert ride == PendingRide(rideId, check.value, now);
      outcome := if ok then Booked(rideId) else WriteFailed;
    }
  }

  /** The book button is enabled exactly when both points are chosen. */
  lemma EnabledIffComplete(s: BookRideScreen)
    requires s.Valid()
    ensures s.BookingEnabled() <==> Complete(s.Coordinates())
  {
    PositiveFareIffComplete(s.Coordinates(), s.selectedVehicleType, s.distanceFn);
  }

  /** On a screen whose estimate is current, the fare check fails exactly when a point is missing. */
  lemma FareCheckIsCoordinateCheck(s: BookRideScreen, session: Session)
    requires s.Valid()
    requires Trim(s.pickupText) != [] && Trim(s.dropoffText) != [] && Trim(s.pickupText) != Trim(s.dropoffText)
    ensures ValidateBooking(Trim(s.pickupText), Trim(s.dropoffText), s.estimatedFare, session) == Err(NoFare)
        <==> !Complete(s.Coordinates())
  {
    PositiveFareIffComplete(s.Coordinates(), s.selectedVehicleType, s.distanceFn);
  }

  /**
   * A suggestion click that writes the name of suggestion `clicked` and the point of suggestion
   * `located`: the field names a campus spot, and the side holds that spot's point exactly when
   * the two suggestions are the same.
   */
  lemma ClickedNameAndPoint(f: Form, isPickup: bool, clicked: nat, located: nat, dist: DistanceFn)
    requires NonNegative(dist) && clicked < |SuggestionOrder| && located < |SuggestionOrder|
    ensures var r := Placed(f, isPickup, Suggestion(clicked).name, Suggestion(located).latitude,
                            Suggestion(located).longitude, dist);
      && Campus.Lookup(SideText(r, isPickup)) == Some(Suggestion(clicked))
      && (SideLatitude(r.coords, isPickup) == Suggestion(clicked).latitude <==> clicked == located)
  {
    SuggestionsArePermutation();
    Campus.LookupFindsEachSpot(SuggestionOrder[clicked]);
    Campus.LatitudesDistinct();
  }

  /**
   * The click as written locates the clicked spot exactly when the dropdown entry sits at its
   * own list position, as it does while nothing is filtered out before it.
   */
  lemma ClickLocatesIffUnshifted(f: Form, isPickup: bool, shown: seq<nat>, position: nat, dist: DistanceFn)
    requires NonNegative(dist) && ShownList(shown) && position < |shown|
    ensures position < |SuggestionOrder|
    ensures var r := Placed(f, isPickup, Suggestion(shown[position]).name, Suggestion(position).latitude,
                            Suggestion(position).longitude, dist);
      SideLatitude(r.coords, isPickup) == Suggestion(shown[position]).latitude <==> shown[position] == position
  {
    ShownPositionAtMostListed(shown, position);
    ClickedNameAndPoint(f, isPickup, shown[position], position, dist);
  }

  /**
   * Typing "S" leaves Student Center, Science Building and Sports Complex in the dropdown
   * (suggestions 1, 5 and 6). Clicking Science Building, the second entry, writes its name but
   * takes the point of Student Center, the second suggestion of the unfiltered list.
   */
  lemma FilteredClickMislocates(f: Form, isPickup: bool, dist: DistanceFn)
    requires NonNegative(dist)
    ensures ShownList([1, 5, 6])
    ensures var r := Placed(f, isPickup, Suggestion(5).name, Suggestion(1).latitude, Suggestion(1).longitude, dist);
      && SideText(r, isPickup) == "Science Building"
      && r.coords == WithSide(f.coords, isPickup, -26.1915, 28.0312)
      && Campus.Lookup(SideText(r, isPickup)).value.latitude != SideLatitude(r.coords, isPickup)
  {
    ClickedNameAndPoint(f, isPickup, 5, 1, dist);
  }

  /** The intended click: the field names the clicked spot and the side holds that spot's point. */
  lemma ShownClickLocates(f: Form, isPickup: bool, shown: seq<nat>, position: nat, dist: DistanceFn)
    requires NonNegative(dist) && ShownList(shown) && position < |shown|
    ensures var s := Suggestion(shown[position]);
      var r := Placed(f, isPickup, s.name, s.latitude, s.longitude, dist);
      && Campus.Lookup(SideText(r, isPickup)) == Some(s)
      && r.coords == WithSide(f.coords, isPickup, s.latitude, s.longitude)
  {
    ClickedNameAndPoint(f, isPickup, shown[position], shown[position], dist);
  }
}
