/**
 * Saving a ride to the on-device history: build an unsynced row, insert it (a failure is
 * swallowed), and always schedule a sync job that needs the network.
 */
module LocalSync {
  import opened Wrappers
  import opened RideEntities
  import opened RideDao

  /** A one-off sync job; the only constraint set on it is a connected network. */
  datatype SyncJob = SyncJob(needsNetwork: bool)

  /** The device's work queue: the jobs enqueued so far, in order. */
  class WorkQueue {
    var jobs: seq<SyncJob>

    constructor ()
      ensures jobs == []
    {
      jobs := [];
    }

    method Enqueue(job: SyncJob)
      modifies this
      ensures jobs == old(jobs) + [job]
    {
      jobs := jobs + [job];
    }
  }

  /**
   * The row `saveRideToHistory` builds: the given ride id or else a fresh one, the names copied
   * as given, stamped `nowMillis`, unsynced.
   */
  function HistoryRow(passengerId: string, driverId: Option<string>, status: string, origin: Option<string>,
                      destination: Option<string>, optionalRideId: Option<string>, freshId: string,
                      nowMillis: int): (e: RideEntity)
    ensures !e.synced
    ensures optionalRideId.Some? ==> e.rideId == optionalRideId.value
    ensures optionalRideId.None? ==> e.rideId == freshId
    ensures e.passengerId == passengerId && e.driverId == driverId && e.status == status
    ensures e.origin == origin && e.destination == destination && e.timestamp == nowMillis
  {
    NewRideEntity(optionalRideId.GetOr(freshId), passengerId, driverId, status, origin, destination, nowMillis)
  }

  /**
   * `saveRideToHistory`. The fare and distance are accepted but not stored. `insertOk` is the
   * outcome of the local insert; a failed insert leaves the table as it was. The sync job is
   * enqueued in every case.
   */
  method SaveRideToHistory(table: RideTable, queue: WorkQueue, passengerId: string, driverId: Option<string>,
                           status: string, origin: Option<string>, destination: Option<string>,
                           fare: Option<real>, distance: Option<real>, optionalRideId: Option<string>,
                           freshId: string, nowMillis: int, insertOk: bool)
    requires table.Valid()
    modifies table, queue
    ensures table.Valid()
    ensures var row := HistoryRow(passengerId, driverId, status, origin, destination, optionalRideId, freshId, nowMillis);
      table.rows == if insertOk then old(table.rows)[row.rideId := row] else old(table.rows)
    ensures queue.jobs == old(queue.jobs) + [SyncJob(true)]
  {
    var rideId := optionalRideId.GetOr(freshId);
    var ride := NewRideEntity(rideId, passengerId, driverId, status, origin, destination, nowMillis);
    if insertOk {
      table.Insert(ride);
    }
    queue.Enqueue(SyncJob(true));
  }

  /** Saving under a ride id that is already in the history replaces that row with a fresh unsynced one. */
  lemma SaveReplacesRow(rows: map<string, RideEntity>, passengerId: string, driverId: Option<string>,
                        status: string, origin: Option<string>, destination: Option<string>,
                        rideId: string, freshId: string, nowMillis: int)
    ensures var row := HistoryRow(passengerId, driverId, status, origin, destination, Some(rideId), freshId, nowMillis);
      && rows[row.rideId := row][rideId] == row
      && !rows[row.rideId := row][rideId].synced
      && rows[row.rideId := row].Keys == rows.Keys + {rideId}
  {
  }
}
