/**
 * The local rides table and its queries: an upserting `insert`, a key-matched `update`,
 * the unsynced rows, one row by key, and every row newest first.
 */
module RideDao {
  import opened Wrappers
  import opened RideEntities

  /** Newest first: timestamps never increase along the list. */
  predicate NewestFirst(s: seq<RideEntity>) {
    forall i, j :: 0 <= i < j < |s| ==> s[i].timestamp >= s[j].timestamp
  }

  /** No two entries share a key. */
  predicate DistinctIds(s: seq<RideEntity>) {
    forall i, j :: 0 <= i < j < |s| ==> s[i].rideId != s[j].rideId
  }

  /** Places `e` in front of the first entry that is not newer than it. */
  function InsertByTime(s: seq<RideEntity>, e: RideEntity): (r: seq<RideEntity>)
    requires NewestFirst(s)
    ensures NewestFirst(r)
    ensures multiset(r) == multiset(s) + multiset{e}
  {
    if s == [] || e.timestamp >= s[0].timestamp then [e] + s
    else
      var rest := InsertByTime(s[1..], e);
      HeadIsNewest(s, e);
      PrependNewest(s[0], rest);
      [s[0]] + rest
  }

  /** The head of a newest-first list is no older than its tail or than an older `e`. */
  lemma HeadIsNewest(s: seq<RideEntity>, e: RideEntity)
    requires NewestFirst(s) && s != [] && e.timestamp < s[0].timestamp
    ensures forall y :: y in multiset(s[1..]) + multiset{e} ==> y.timestamp <= s[0].timestamp
    ensures multiset(s) == multiset{s[0]} + multiset(s[1..])
  {
    assert s == [s[0]] + s[1..];
    forall y | y in multiset(s[1..]) + multiset{e} ensures y.timestamp <= s[0].timestamp {
      if y != e {
        assert y in s[1..];
        var j :| 0 <= j < |s[1..]| && s[1..][j] == y;
        assert s[j + 1] == y;
      }
    }
  }

  /** An entry no older than everything in a newest-first list can go in front of it. */
  lemma PrependNewest(x: RideEntity, rest: seq<RideEntity>)
    requires NewestFirst(rest)
    requires forall y :: y in multiset(rest) ==> y.timestamp <= x.timestamp
    ensures NewestFirst([x] + rest)
  {
    var r := [x] + rest;
    forall i, j | 0 <= i < j < |r| ensures r[i].timestamp >= r[j].timestamp {
      if i == 0 {
        assert r[j] == rest[j - 1];
        assert r[j] in multiset(rest);
      } else {
        assert r[i] == rest[i - 1] && r[j] == rest[j - 1];
      }
    }
  }

  class RideTable {
    /** The rows by primary key. */
    var rows: map<string, RideEntity>

    /** Every row is stored under its own `rideId`, so there is at most one row per key. */
    ghost predicate Valid()
      reads this
    {
      forall k :: k in rows ==> rows[k].rideId == k
    }

    /** `e` is a row of the table. */
    predicate Holds(e: RideEntity)
      reads this
    {
      e.rideId in rows && rows[e.rideId] == e
    }

    constructor ()
      ensures Valid() && rows == map[]
    {
      rows := map[];
    }

    /** `insert` with the REPLACE conflict strategy: `e` becomes the row for its key, whatever was there. */
    method Insert(e: RideEntity)
      requires Valid()
      modifies this
      ensures Valid() && Holds(e)
      ensures rows == old(rows)[e.rideId := e]
    {
      rows := rows[e.rideId := e];
    }

    /** `update`: rewrites the row with `e`'s key when there is one; otherwise nothing happens. */
    method Update(e: RideEntity)
      requires Valid()
      modifies this
      ensures Valid()
      ensures rows == if e.rideId in old(rows) then old(rows)[e.rideId := e] else old(rows)
    {
      if e.rideId in rows {
        rows := rows[e.rideId := e];
      }
    }

    /** `getRideById`: the row with key `id`, or nothing. */
    function RideById(id: string): (r: Option<RideEntity>)
      requires Valid()
      reads this
      ensures r.Some? ==> Holds(r.value) && r.value.rideId == id
      ensures r.None? ==> forall e :: Holds(e) ==> e.rideId != id
    {
      if id in rows then Some(rows[id]) else None
    }

    /** `getUnsyncedRides`: every unsynced row once, in no particular order. */
    method GetUnsyncedRides() returns (batch: seq<RideEntity>)
      requires Valid()
      ensures forall e :: e in batch <==> Holds(e) && !e.synced
      ensures DistinctIds(batch)
    {
      batch := [];
      var keys := rows.Keys;
      while keys != {}
        invariant keys <= rows.Keys
        invariant forall e :: e in batch <==> Holds(e) && !e.synced && e.rideId !in keys
        invariant DistinctIds(batch)
        decreases keys
      {
        var k :| k in keys;
        if !rows[k].synced {
          batch := batch + [rows[k]];
        }
        keys := keys - {k};
      }
    }

    /** `getAllRidesFlow` (one emission): every row once, newest first. */
    method GetAllRides() returns (all: seq<RideEntity>)
      requires Valid()
      ensures NewestFirst(all)
      ensures forall e :: e in all <==> Holds(e)
      ensures |all| == |rows|
    {
      all := [];
      var keys := rows.Keys;
      while keys != {}
        invariant keys <= rows.Keys
        invariant NewestFirst(all)
        invariant forall e :: e in all <==> Holds(e) && e.rideId !in keys
        invariant |all| + |keys| == |rows|
        decreases keys
      {
        var k :| k in keys;
        ghost var before := all;
        all := InsertByTime(all, rows[k]);
        forall e ensures e in all <==> e in before || e == rows[k] {
          assert e in all <==> e in multiset(all);
          assert e in before <==> e in multiset(before);
        }
        keys := keys - {k};
      }
    }
  }
}
