/**
 * Remote documents as the screens see them: a map from field name to a loosely typed value.
 * Reading a field with a default (a string field `x` read with fallback `dflt`) is `GetString(d, x).GetOr(dflt)`.
 */
module Documents {
  import opened Wrappers

  /** A remote timestamp: whole seconds since the epoch plus a nanosecond part. */
  datatype Timestamp = Timestamp(seconds: int, nanoseconds: int)

  /** `a` is not later than `b` (the order a query sorts `createdAt` by). */
  predicate NotAfter(a: Timestamp, b: Timestamp) {
    a.seconds < b.seconds || (a.seconds == b.seconds && a.nanoseconds <= b.nanoseconds)
  }

  datatype Value =
    | Str(str: string)
    | Num(num: real)
    | Long(long: int)
    | Flag(flag: bool)
    | Time(time: Timestamp)
    | Null

  /**
   * The field names the screens read and write, spelt as stored. A document is keyed by these;
   * names outside the list play no part in any screen's logic.
   */
  datatype Field =
    // rides
    | rideId | passengerId | passengerName | passengerEmail
    | pickupLocation | pickupLatitude | pickupLongitude
    | dropoffLocation | dropoffLatitude | dropoffLongitude
    | vehicleType | estimatedFare | estimatedTime | distance | status
    | driverId | driverName | driverPhone | vehicleModel | vehicleColor | vehicleRegistration
    | createdAt | updatedAt | rejectedBy
    // rides as uploaded from the local history
    | origin | destination | timestamp
    // ride ratings
    | rating | feedback
    // passengers and drivers
    | userId | fullName | universityEmail | institution | course | phoneNumber | gender
    | userType | registrationDate | walletBalance | totalRides
    | carModel | carRegistration | onlineStatus | completedRides | totalEarnings

  type Doc = map<Field, Value>

  /**
   * `getString(key)`: the text stored under `key`, or nothing when the field is absent or null.
   * A field holding another type also reads as nothing here (see the typed getters below).
   */
  function GetString(d: Doc, key: Field): (r: Option<string>)
    ensures r.Some? <==> key in d && d[key].Str?
    ensures r.Some? ==> d[key] == Str(r.value)
  {
    if key in d && d[key].Str? then Some(d[key].str) else None
  }

  /** A text view filled from `key`: it shows the stored text, or nothing when there is none. */
  predicate ShowsText(d: Doc, key: Field, text: string) {
    if key in d && d[key].Str? then text == d[key].str else text == ""
  }

  /** `getDouble(key)`: any stored number, widened to a real. */
  function GetDouble(d: Doc, key: Field): (r: Option<real>)
    ensures r.Some? <==> key in d && (d[key].Num? || d[key].Long?)
    ensures key in d && d[key].Num? ==> r == Some(d[key].num)
    ensures key in d && d[key].Long? ==> r == Some(d[key].long as real)
  {
    if key in d && d[key].Num? then Some(d[key].num)
    else if key in d && d[key].Long? then Some(d[key].long as real)
    else None
  }

  /** `getLong(key)`: any stored number; a fractional one is truncated toward zero. */
  function GetLong(d: Doc, key: Field): (r: Option<int>)
    ensures r.Some? <==> key in d && (d[key].Num? || d[key].Long?)
    ensures key in d && d[key].Long? ==> r == Some(d[key].long)
    ensures key in d && d[key].Num? && d[key].num >= 0.0 ==> r.Some? && r.value as real <= d[key].num < r.value as real + 1.0
    ensures key in d && d[key].Num? && d[key].num < 0.0 ==> r.Some? && r.value as real - 1.0 < d[key].num <= r.value as real
  {
    if key in d && d[key].Long? then Some(d[key].long)
    else if key in d && d[key].Num? then
      var x := d[key].num;
      Some(if x >= 0.0 then x.Floor else -((-x).Floor))
    else None
  }

  /** `getBoolean(key)`. */
  function GetBoolean(d: Doc, key: Field): (r: Option<bool>)
    ensures r.Some? <==> key in d && d[key].Flag?
    ensures r.Some? ==> d[key] == Flag(r.value)
  {
    if key in d && d[key].Flag? then Some(d[key].flag) else None
  }

  /** `getTimestamp(key)`. */
  function GetTimestamp(d: Doc, key: Field): (r: Option<Timestamp>)
    ensures r.Some? <==> key in d && d[key].Time?
    ensures r.Some? ==> d[key] == Time(r.value)
  {
    if key in d && d[key].Time? then Some(d[key].time) else None
  }

  /** A field-wise update: the fields of `u` are written, every other field of `d` is kept. */
  function Merge(d: Doc, u: Doc): (r: Doc)
    ensures r.Keys == d.Keys + u.Keys
    ensures forall k :: k in u ==> r[k] == u[k]
    ensures forall k :: k in d && k !in u ==> r[k] == d[k]
  {
    d + u
  }

  /** Two updates in a row are one update with the later fields winning. */
  lemma MergeAssociative(d: Doc, u: Doc, v: Doc)
    ensures Merge(Merge(d, u), v) == Merge(d, Merge(u, v))
  {
  }
}
