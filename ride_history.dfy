/**
 * The passenger's ride history: the query for the passenger's rides in six statuses, newest
 * first; the list rebuilt from its result with a default for every absent field; and the status
 * label and colour each row shows.
 */
module RideHistory {
  import opened Wrappers
  import opened Text
  import opened Documents
  import opened RemoteStore
  import opened RideStatus
  import opened Queries

  /** The statuses the history lists: neither a ride still searching nor one already rated. */
  const HistoryCodes: set<string> :=
    {Code(DriverAssigned), Code(DriverArrived), Code(PickedUp), Code(Completed), Code(Cancelled), Code(Rejected)}

  /** A stored ride the query selects: the passenger's, in a listed status, with a creation time to order by. */
  predicate Selected(d: Doc, uid: string) {
    && GetString(d, passengerId) == Some(uid)
    && GetString(d, status).Some? && GetString(d, status).value in HistoryCodes
    && GetTimestamp(d, createdAt).Some?
  }

  /** The query's result: every selected ride of the passenger once, newest first. */
  ghost predicate HistoryResult(db: Db, uid: string, docs: seq<(string, Doc)>) {
    QueryResult(db, Rides, d => Selected(d, uid), docs) && NewestFirst(docs)
  }

  /** One row of the list. */
  datatype Entry = Entry(rideId: string, pickupLocation: string, dropoffLocation: string, fare: real,
                         date: Timestamp, status: string, driverName: string)

  /** A row from a document, each absent field replaced by the screen's default; `now` stands for a fresh date. */
  function EntryOf(id: string, d: Doc, now: Timestamp): (e: Entry)
    ensures e.rideId == id
    ensures status !in d ==> e.status == "unknown"
    ensures driverName !in d ==> e.driverName == "No driver assigned"
    ensures pickupLocation !in d ==> e.pickupLocation == "Unknown pickup"
    ensures dropoffLocation !in d ==> e.dropoffLocation == "Unknown dropoff"
    ensures estimatedFare !in d ==> e.fare == 0.0
    ensures GetTimestamp(d, createdAt).Some? ==> e.date == GetTimestamp(d, createdAt).value
  {
    Entry(id, GetString(d, pickupLocation).GetOr("Unknown pickup"), GetString(d, dropoffLocation).GetOr("Unknown dropoff"),
          GetDouble(d, estimatedFare).GetOr(0.0), GetTimestamp(d, createdAt).GetOr(now),
          GetString(d, status).GetOr("unknown"), GetString(d, driverName).GetOr("No driver assigned"))
  }

  /** Every row of a history result is a distinct ride of the passenger, in a listed status, newest first. */
  lemma HistoryRows(db: Db, uid: string, docs: seq<(string, Doc)>, now: Timestamp, i: int, j: int)
    requires HistoryResult(db, uid, docs)
    requires 0 <= i < j < |docs|
    ensures var a, b := EntryOf(docs[i].0, docs[i].1, now), EntryOf(docs[j].0, docs[j].1, now);
      && a.rideId != b.rideId
      && a.status in HistoryCodes && b.status in HistoryCodes
      && NotAfter(b.date, a.date)
      && GetString(db[Path(Rides, a.rideId)], passengerId) == Some(uid)
  {
    assert Selected(docs[i].1, uid) && Selected(docs[j].1, uid);
  }

  /** The list holds as many rows as the passenger has selected rides. */
  lemma HistoryCount(db: Db, uid: string, docs: seq<(string, Doc)>)
    requires HistoryResult(db, uid, docs)
    ensures |docs| == |MatchingIds(db, Rides, d => Selected(d, uid))|
  {
    CountIsMatchingDocuments(db, Rides, d => Selected(d, uid), docs);
  }

  /** The label a row shows for a status code. */
  function StatusLabel(code: string): (shown: string)
    ensures code in {Code(DriverAssigned), Code(DriverArrived), Code(PickedUp)} ==> shown == "In Progress"
    ensures code == Code(Completed) ==> shown == "Completed"
    ensures code == Code(Cancelled) ==> shown == "Cancelled"
    ensures code == Code(Rejected) ==> shown == "Rejected"
    ensures code !in HistoryCodes ==> |shown| == |code| && forall i :: 0 <= i < |shown| ==> shown[i] != '_'
  {
    if code == "driver_assigned" || code == "driver_arrived" || code == "picked_up" then "In Progress"
    else if code == "completed" then "Completed"
    else if code == "cancelled" then "Cancelled"
    else if code == "rejected" then "Rejected"
    else CapitalizeFirst(ReplaceChar(code, '_', ' '))
  }

  /** The status text colours: green #4CAF50, red #F44336 and orange #FF9800. */
  datatype Colour = Green | Red | Orange

  function Hex(c: Colour): string {
    match c
    case Green => "#4CAF50"
    case Red => "#F44336"
    case Orange => "#FF9800"
  }

  function StatusColour(code: string): (c: Colour)
    ensures c == Green <==> code == Code(Completed)
    ensures c == Red <==> code == Code(Cancelled) || code == Code(Rejected)
  {
    if code == "completed" then Green
    else if code == "cancelled" || code == "rejected" then Red
    else Orange
  }

  /** For every listed status the label and the colour agree: finished green, failed red, under way orange. */
  lemma LabelMatchesColour(code: string)
    requires code in HistoryCodes
    ensures StatusColour(code) == Green <==> StatusLabel(code) == "Completed"
    ensures StatusColour(code) == Red <==> StatusLabel(code) == "Cancelled" || StatusLabel(code) == "Rejected"
    ensures StatusColour(code) == Orange <==> StatusLabel(code) == "In Progress"
  {
  }

  /** The history screen: the rows and whether the empty-state text shows. */
  class RideHistoryScreen {
    var rides: seq<Entry>
    var showsEmpty: bool

    constructor ()
      ensures rides == [] && !showsEmpty
    {
      rides, showsEmpty := [], false;
    }

    /** A successful query: the list is cleared and refilled from the result in its order. */
    method OnResult(docs: seq<(string, Doc)>, now: Timestamp)
      modifies this
      ensures |rides| == |docs|
      ensures forall i :: 0 <= i < |docs| ==> rides[i] == EntryOf(docs[i].0, docs[i].1, now)
      ensures showsEmpty <==> docs == []
    {
      rides := [];
      for i := 0 to |docs|
        invariant |rides| == i
        invariant forall k :: 0 <= k < i ==> rides[k] == EntryOf(docs[k].0, docs[k].1, now)
      {
        rides := rides + [EntryOf(docs[i].0, docs[i].1, now)];
      }
      showsEmpty := rides == [];
    }

    /** A failed query keeps whatever the list held and shows the empty state when it holds nothing. */
    method OnFailure()
      modifies this
      ensures rides == old(rides)
      ensures showsEmpty <==> rides == []
    {
      showsEmpty := rides == [];
    }
  }
}
