/**
 * The status codes a ride document carries, as a closed datatype with the exact strings the
 * screens write and compare against. Codes no screen knows are kept verbatim in `Other`.
 */
module RideStatus {
  import opened Wrappers

  datatype Status =
    | Searching
    | DriverAssigned
    | DriverArrived
    | PickedUp
    | InProgress
    | Completed
    | Rated
    | Rejected
    | Cancelled
    | Other(code: string)

  function Code(s: Status): string {
    match s
    case Searching => "searching"
    case DriverAssigned => "driver_assigned"
    case DriverArrived => "driver_arrived"
    case PickedUp => "picked_up"
    case InProgress => "in_progress"
    case Completed => "completed"
    case Rated => "rated"
    case Rejected => "rejected"
    case Cancelled => "cancelled"
    case Other(c) => c
  }

  const KnownCodes: set<string> :=
    {"searching", "driver_assigned", "driver_arrived", "picked_up", "in_progress",
     "completed", "rated", "rejected", "cancelled"}

  /** A status value as it can arise from a stored code: `Other` never hides a known code. */
  predicate WellFormed(s: Status) {
    s.Other? ==> s.code !in KnownCodes
  }

  /** Reads a stored code; every string has exactly one well-formed reading. */
  function Parse(c: string): (s: Status)
    ensures Code(s) == c
    ensures WellFormed(s)
    ensures s.Other? <==> c !in KnownCodes
  {
    if c == "searching" then Searching
    else if c == "driver_assigned" then DriverAssigned
    else if c == "driver_arrived" then DriverArrived
    else if c == "picked_up" then PickedUp
    else if c == "in_progress" then InProgress
    else if c == "completed" then Completed
    else if c == "rated" then Rated
    else if c == "rejected" then Rejected
    else if c == "cancelled" then Cancelled
    else Other(c)
  }

  /** Writing a well-formed status and reading it back gives the same status. */
  lemma ParseCode(s: Status)
    requires WellFormed(s)
    ensures Parse(Code(s)) == s
  {
  }

  /** Distinct well-formed statuses are stored as distinct codes. */
  lemma CodeInjective(s: Status, t: Status)
    requires WellFormed(s) && WellFormed(t) && Code(s) == Code(t)
    ensures s == t
  {
    ParseCode(s);
    ParseCode(t);
  }

  /**
   * The lifecycle chain searching -> driver_assigned -> driver_arrived -> picked_up -> completed
   * -> rated. `Successor` gives the next status on the chain.
   */
  function Successor(s: Status): (r: Option<Status>)
    ensures r.Some? ==> Rank(r.value) == Rank(s) + 1
    ensures r.None? <==> s !in {Searching, DriverAssigned, DriverArrived, PickedUp, Completed}
  {
    match s
    case Searching => Some(DriverAssigned)
    case DriverAssigned => Some(DriverArrived)
    case DriverArrived => Some(PickedUp)
    case PickedUp => Some(Completed)
    case Completed => Some(Rated)
    case _ => None
  }

  /** Position on the chain; statuses off the chain rank below it. */
  function Rank(s: Status): int {
    match s
    case Searching => 0
    case DriverAssigned => 1
    case DriverArrived => 2
    case PickedUp => 3
    case Completed => 4
    case Rated => 5
    case _ => -1
  }

  /** The documented transitions: one step along the chain, or a driver's rejection of a searching ride. */
  predicate Edge(from: Status, to: Status) {
    Successor(from) == Some(to) || (from == Searching && to == Rejected)
  }

  /** Rated and rejected rides have no outgoing transition. */
  lemma TerminalStatuses(to: Status)
    ensures !Edge(Rated, to) && !Edge(Rejected, to)
  {
  }

  /** Following transitions along the chain never returns to an earlier status. */
  lemma {:induction false} ChainIsAcyclic(path: seq<Status>)
    requires |path| >= 2
    requires forall i :: 0 <= i < |path| - 1 ==> Successor(path[i]) == Some(path[i + 1])
    ensures Rank(path[|path| - 1]) == Rank(path[0]) + |path| - 1
    ensures path[|path| - 1] != path[0]
  {
    if |path| > 2 {
      ChainIsAcyclic(path[1..]);
    }
  }
}
