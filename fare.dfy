/**
 * The booking screen's fare and travel-time estimate. The great-circle distance between the two
 * points is not computed here: callers pass the distance function, which only has to be
 * non-negative.
 */
module FareEstimator {
  /** Pickup and drop-off coordinates; 0.0 in any of them means "not chosen yet". */
  datatype Coords = Coords(
    pickupLatitude: real,
    pickupLongitude: real,
    dropoffLatitude: real,
    dropoffLongitude: real)

  const NoCoords := Coords(0.0, 0.0, 0.0, 0.0)

  /** The distance in kilometres between (lat1, lon1) and (lat2, lon2). */
  type DistanceFn = (real, real, real, real) -> real

  ghost predicate NonNegative(dist: DistanceFn) {
    forall a, b, c, d :: dist(a, b, c, d) >= 0.0
  }

  function DistanceOf(c: Coords, dist: DistanceFn): real {
    dist(c.pickupLatitude, c.pickupLongitude, c.dropoffLatitude, c.dropoffLongitude)
  }

  /** Both points are chosen: none of the four coordinates is zero. */
  predicate Complete(c: Coords) {
    c.pickupLatitude != 0.0 && c.pickupLongitude != 0.0
    && c.dropoffLatitude != 0.0 && c.dropoffLongitude != 0.0
  }

  const RatePerKm: real := 5.0
  const MinMinutes: int := 3
  const MaxMinutes: int := 120

  /** The flat part of the fare: Premium and Group cost more, every other type is Standard. */
  function BaseFare(vehicleType: string): (r: real)
    ensures vehicleType == "Premium" ==> r == 40.0
    ensures vehicleType == "Group" ==> r == 60.0
    ensures vehicleType != "Premium" && vehicleType != "Group" ==> r == 25.0
  {
    if vehicleType == "Premium" then 40.0
    else if vehicleType == "Group" then 60.0
    else 25.0
  }

  /** Every vehicle type costs at least the Standard base fare. */
  lemma BaseFareAtLeastStandard(vehicleType: string)
    ensures BaseFare(vehicleType) >= BaseFare("Standard") == 25.0
  {
  }

  /** The fare: the base fare plus a fixed rate per kilometre. */
  function Fare(vehicleType: string, distance: real): (r: real)
    requires distance >= 0.0
    ensures r >= BaseFare(vehicleType)
    ensures r - BaseFare(vehicleType) == RatePerKm * distance
  {
    BaseFare(vehicleType) + distance * RatePerKm
  }

  /**
   * The travel time: whole half-kilometres (one minute each), the fraction dropped, kept within
   * [3, 120]. The three inequalities pin the value down: strictly inside the bounds it is the
   * integer part of twice the distance.
   */
  function Minutes(distance: real): (r: int)
    requires distance >= 0.0
    ensures MinMinutes <= r <= MaxMinutes
    ensures r > MinMinutes ==> r as real <= distance / 0.5
    ensures r < MaxMinutes ==> distance / 0.5 < r as real + 1.0
  {
    var m := (distance / 0.5).Floor;
    if m < MinMinutes then MinMinutes else if m > MaxMinutes then MaxMinutes else m
  }

  /** A longer trip never takes fewer minutes. */
  lemma MinutesMonotone(d1: real, d2: real)
    requires 0.0 <= d1 <= d2
    ensures Minutes(d1) <= Minutes(d2)
  {
    assert (d1 / 0.5).Floor <= (d2 / 0.5).Floor;
  }

  /** The fractional half-kilometre is dropped, not rounded: 2.25 km is 4 minutes, not 5. */
  lemma MinutesTruncate()
    ensures Minutes(2.25) == 4
    ensures Minutes(1.0) == MinMinutes
    ensures Minutes(10.0) == 20
    ensures Minutes(60.0) == MaxMinutes
  {
    assert (2.25 / 0.5).Floor == 4;
    assert (10.0 / 0.5).Floor == 20;
    assert (60.0 / 0.5).Floor == 120;
  }

  datatype Estimate = Estimate(fare: real, minutes: int)

  const NoEstimate := Estimate(0.0, 0)

  /**
   * The estimate the screen shows for the current coordinates and vehicle type: nothing until
   * both points are chosen (the distance is then not even computed), else the fare and time for
   * the distance between them.
   */
  function Calculate(c: Coords, vehicleType: string, dist: DistanceFn): Estimate
    requires NonNegative(dist)
  {
    if !Complete(c) then NoEstimate
    else
      var d := DistanceOf(c, dist);
      Estimate(Fare(vehicleType, d), Minutes(d))
  }

  /** What the screen shows: no estimate without both points, else a fare of at least the base and a bounded time. */
  lemma CalculateSpec(c: Coords, vehicleType: string, dist: DistanceFn)
    requires NonNegative(dist)
    ensures var e := Calculate(c, vehicleType, dist);
      && (!Complete(c) <==> e == NoEstimate)
      && (Complete(c) ==> e.fare >= BaseFare(vehicleType) && MinMinutes <= e.minutes <= MaxMinutes)
  {
  }

  /** A positive fare is shown exactly when both points are chosen. */
  lemma PositiveFareIffComplete(c: Coords, vehicleType: string, dist: DistanceFn)
    requires NonNegative(dist)
    ensures Calculate(c, vehicleType, dist).fare > 0.0 <==> Complete(c)
  {
    CalculateSpec(c, vehicleType, dist);
  }

  /** For the same trip, a dearer vehicle type gives a dearer estimate and the same time. */
  lemma FareOrderedByBase(c: Coords, t1: string, t2: string, dist: DistanceFn)
    requires NonNegative(dist) && Complete(c)
    requires BaseFare(t1) <= BaseFare(t2)
    ensures Calculate(c, t1, dist).fare <= Calculate(c, t2, dist).fare
    ensures Calculate(c, t1, dist).minutes == Calculate(c, t2, dist).minutes
  {
  }
}
