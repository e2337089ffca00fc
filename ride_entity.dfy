/**
 * A row of the on-device ride history: keyed by `rideId`, with optional driver and place
 * names, a millisecond timestamp, and a flag saying whether it has reached the remote store.
 */
module RideEntities {
  import opened Wrappers

  datatype RideEntity = RideEntity(
    rideId: string,
    passengerId: string,
    driverId: Option<string>,
    status: string,
    origin: Option<string>,
    destination: Option<string>,
    timestamp: int,
    synced: bool)

  /** A row built without naming `synced` starts unsynced. */
  function NewRideEntity(rideId: string, passengerId: string, driverId: Option<string>, status: string,
                         origin: Option<string>, destination: Option<string>, timestamp: int): (e: RideEntity)
    ensures !e.synced
    ensures e.(synced := true) == MarkSynced(e)
  {
    RideEntity(rideId, passengerId, driverId, status, origin, destination, timestamp, false)
  }

  /** `copy(synced = true)`. */
  function MarkSynced(e: RideEntity): RideEntity {
    e.(synced := true)
  }

  /** Marking a row synced changes only its flag, and changes the row exactly when it was unsynced. */
  lemma MarkSyncedOnlyFlag(e: RideEntity)
    ensures MarkSynced(e).synced
    ensures MarkSynced(e).rideId == e.rideId && MarkSynced(e).timestamp == e.timestamp
    ensures MarkSynced(e).(synced := e.synced) == e
    ensures MarkSynced(e) == e <==> e.synced
  {
  }
}
