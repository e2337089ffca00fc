/**
 * The driver's screen for one accepted ride: it follows the ride document, enables the one
 * button that moves the ride to its next status, and writes that status when pressed.
 */
module RideTracking {
  import opened Wrappers
  import opened Documents
  import opened RemoteStore
  import opened RideStatus
  import R = RideRecord
  import opened RideDao
  import opened LocalSync

  datatype Button = Arrived | StartRide | CompleteRide

  /** The status a button writes. */
  function ClickTarget(b: Button): Status {
    match b
    case Arrived => DriverArrived
    case StartRide => PickedUp
    case CompleteRide => Completed
  }

  /** Which buttons are enabled, in the order arrived, start, complete. */
  datatype Buttons = Buttons(arrived: bool, start: bool, complete: bool)

  predicate Enabled(bs: Buttons, b: Button) {
    match b
    case Arrived => bs.arrived
    case StartRide => bs.start
    case CompleteRide => bs.complete
  }

  /** The button states a status code sets; codes outside the table leave the buttons as they are. */
  function ButtonsFor(code: string): (r: Option<Buttons>)
    ensures r.Some? <==> code in {"driver_assigned", "driver_arrived", "picked_up", "completed"}
    ensures r.Some? ==> forall b, b' :: Enabled(r.value, b) && Enabled(r.value, b') ==> b == b'
    ensures r.Some? ==> forall b :: Enabled(r.value, b) <==> Successor(Parse(code)) == Some(ClickTarget(b))
  {
    if code == "driver_assigned" then Some(Buttons(true, false, false))
    else if code == "driver_arrived" then Some(Buttons(false, true, false))
    else if code == "picked_up" then Some(Buttons(false, false, true))
    else if code == "completed" then Some(Buttons(false, false, false))
    else None
  }

  /**
   * For a status that sets the buttons, a button is enabled exactly when it writes that status's
   * successor on the chain.
   */
  lemma OffersOnlySuccessor(code: string, b: Button)
    requires ButtonsFor(code).Some?
    ensures Enabled(ButtonsFor(code).value, b) <==> Successor(Parse(code)) == Some(ClickTarget(b))
  {
  }

  /** A completed ride has no button left to press. */
  lemma CompletedOffersNothing(b: Button)
    ensures !Enabled(ButtonsFor(Code(Completed)).value, b)
  {
  }

  /** The text shown for a status code: five codes have fixed text, any other code is shown as it is. */
  function StatusText(code: string): (r: string)
    ensures code !in {"driver_assigned", "driver_arrived", "picked_up", "in_progress", "completed"} ==> r == code
  {
    if code == "driver_assigned" then "Assigned - Head to pickup location"
    else if code == "driver_arrived" then "Arrived at pickup location"
    else if code == "picked_up" then "Passenger picked up - On the way"
    else if code == "in_progress" then "On the way to destination"
    else if code == "completed" then "Completed"
    else code
  }

  /** A code is shown verbatim exactly when it is not one of the five with fixed text. */
  lemma StatusTextVerbatim(code: string)
    ensures StatusText(code) == code <==> code !in {"driver_assigned", "driver_arrived", "picked_up", "in_progress", "completed"}
  {
  }

  /** The status code the screen acts on: a missing status counts as "driver_assigned". */
  function ShownStatus(d: Doc): (code: string)
    ensures GetString(d, status).None? ==> code == Code(DriverAssigned)
    ensures GetString(d, status).Some? ==> code == GetString(d, status).value
  {
    GetString(d, status).GetOr(Code(DriverAssigned))
  }

  /** The screen opens only for a non-empty ride id; otherwise it closes before listening or writing. */
  function OpensFor(rideIdExtra: Option<string>): (r: Option<string>)
    ensures r.Some? <==> rideIdExtra.Some? && rideIdExtra.value != ""
    ensures r.Some? ==> r.value == rideIdExtra.value
  {
    var id := rideIdExtra.GetOr("");
    if id == "" then None else Some(id)
  }

  class DriverRideTrackingScreen {
    const rideId: string
    var buttons: Buttons
    var statusText: string

    /** At most one button is enabled. */
    predicate Valid()
      reads this
    {
      forall b, b' :: Enabled(buttons, b) && Enabled(buttons, b') ==> b == b'
    }

    /** `initial` is the layout's button state before the first document arrives. */
    constructor (rideId: string, initial: Buttons)
      requires rideId != ""
      ensures this.rideId == rideId && buttons == initial && statusText == ""
    {
      this.rideId := rideId;
      buttons := initial;
      statusText := "";
    }

    /** A delivery of the ride document (only existing documents reach here). */
    method OnRideSnapshot(d: Doc)
      modifies this`buttons, this`statusText
      ensures ButtonsFor(ShownStatus(d)).Some? || old(Valid()) ==> Valid()
      ensures statusText == StatusText(ShownStatus(d))
      ensures buttons == ButtonsFor(ShownStatus(d)).GetOr(old(buttons))
    {
      var code := GetString(d, status).GetOr("driver_assigned");
      statusText := StatusText(code);
      if code == "driver_assigned" {
        buttons := Buttons(true, false, false);
      } else if code == "driver_arrived" {
        buttons := Buttons(false, true, false);
      } else if code == "picked_up" {
        buttons := Buttons(false, false, true);
      } else if code == "completed" {
        buttons := Buttons(false, false, false);
      }
    }

    /**
     * A button press: one update of the status and the update time. Only after a successful
     * update to "completed" is the ride read again and, when it has a passenger, saved to the
     * local history.
     */
    method UpdateRideStatus(store: Store, table: RideTable, queue: WorkQueue, b: Button, driver: Option<string>,
                            now: Timestamp, writeNet: bool, readNet: bool, freshId: string, nowMillis: int,
                            insertOk: bool)
      returns (ok: bool)
      requires table.Valid()
      modifies store, table, queue
      ensures table.Valid()
      ensures (store.db, ok) == UpdateDoc(old(store.db), Path(Rides, rideId), R.StatusUpdate(ClickTarget(b), now), writeNet)
      ensures var saves := CompletionSaves(store.db, rideId, readNet);
        && (ok && b == CompleteRide && saves.Some? ==>
             var d := saves.value;
             var row := HistoryRow(GetString(d, passengerId).value, driver, Code(Completed),
                                   Some(GetString(d, pickupLocation).GetOr("")), Some(GetString(d, dropoffLocation).GetOr("")),
                                   Some(rideId), freshId, nowMillis);
             && table.rows == (if insertOk then old(table.rows)[rideId := row] else old(table.rows))
             && queue.jobs == old(queue.jobs) + [SyncJob(true)])
        && (!(ok && b == CompleteRide && saves.Some?) ==> table.rows == old(table.rows) && queue.jobs == old(queue.jobs))
    {
      var target := ClickTarget(b);
      ok := store.Update(Path(Rides, rideId), R.StatusUpdate(target, now), writeNet);
      if ok && target == Completed {
        var read := ReadDoc(store.db, Path(Rides, rideId), readNet);
        if read.Found? {
          var d := read.doc;
          var passenger := GetString(d, passengerId).GetOr("");
          if passenger != "" {
            SaveRideToHistory(table, queue, passenger, driver, Code(Completed),
                              Some(GetString(d, pickupLocation).GetOr("")), Some(GetString(d, dropoffLocation).GetOr("")),
                              Some(GetDouble(d, estimatedFare).GetOr(0.0)), Some(GetDouble(d, distance).GetOr(0.0)),
                              Some(rideId), freshId, nowMillis, insertOk);
          }
        }
      }
    }
  }

  /** The re-read ride document when it leads to a history save: it was read and names a passenger. */
  function CompletionSaves(db: Db, rideId: string, readNet: bool): (r: Option<Doc>)
    ensures r.Some? ==> GetString(r.value, passengerId).Some? && GetString(r.value, passengerId).value != ""
    ensures r.Some? <==> readNet && Path(Rides, rideId) in db && GetString(db[Path(Rides, rideId)], passengerId).GetOr("") != ""
  {
    match ReadDoc(db, Path(Rides, rideId), readNet)
    case Found(d) => if GetString(d, passengerId).GetOr("") != "" then Some(d) else None
    case _ => None
  }

  /** Pressing an enabled button on a stored ride moves it one step along the chain and changes nothing else. */
  lemma PressMovesOneStep(db: Db, rideId: string, ride: R.Ride, b: Button, now: Timestamp)
    requires Path(Rides, rideId) in db && db[Path(Rides, rideId)] == R.ToDoc(ride)
    requires WellFormed(ride.status)
    requires ButtonsFor(Code(ride.status)).Some? && Enabled(ButtonsFor(Code(ride.status)).value, b)
    ensures var (db', ok) := UpdateDoc(db, Path(Rides, rideId), R.StatusUpdate(ClickTarget(b), now), true);
      && ok
      && db'[Path(Rides, rideId)] == R.ToDoc(ride.(status := ClickTarget(b), updatedAt := now))
      && Successor(ride.status) == Some(ClickTarget(b))
  {
    OffersOnlySuccessor(Code(ride.status), b);
    R.StatusUpdateIsStep(ride, ClickTarget(b), now);
    ParseCode(ride.status);
  }
}
