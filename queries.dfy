/**
 * What an equality-filtered query over one collection hands back: a list of (id, document)
 * pairs. The query itself runs remotely; the model only states what its result must be.
 */
module Queries {
  import opened Documents
  import opened RemoteStore

  /** The ids of the documents of collection `c` that a query filter selects. */
  function MatchingIds(db: Db, c: Collection, selects: Doc -> bool): set<string> {
    set p | p in db && p.collection == c && selects(db[p]) :: p.id
  }

  /**
   * What an equality-filtered query returns: documents of `c`, each once and as stored, that the
   * filter selects, and all of them, in some order.
   */
  ghost predicate QueryResult(db: Db, c: Collection, selects: Doc -> bool, docs: seq<(string, Doc)>) {
    && (forall i :: 0 <= i < |docs| ==>
          Path(c, docs[i].0) in db && db[Path(c, docs[i].0)] == docs[i].1 && selects(docs[i].1))
    && (forall i, j :: 0 <= i < j < |docs| ==> docs[i].0 != docs[j].0)
    && (forall id :: Path(c, id) in db && selects(db[Path(c, id)]) ==> exists i :: 0 <= i < |docs| && docs[i].0 == id)
  }

  function IdsOf(docs: seq<(string, Doc)>): set<string> {
    set i | 0 <= i < |docs| :: docs[i].0
  }

  /** The ids of a non-empty list: the first one and those of the rest. */
  lemma IdsOfCons(docs: seq<(string, Doc)>)
    requires docs != []
    ensures IdsOf(docs) == {docs[0].0} + IdsOf(docs[1..])
  {
    var rest := docs[1..];
    forall x | x in IdsOf(docs) ensures x in {docs[0].0} + IdsOf(rest) {
      var i :| 0 <= i < |docs| && docs[i].0 == x;
      if i > 0 {
        assert rest[i - 1].0 == x;
      }
    }
    forall x | x in IdsOf(rest) ensures x in IdsOf(docs) {
      var i :| 0 <= i < |rest| && rest[i].0 == x;
      assert docs[i + 1].0 == x;
    }
  }

  /** A list of distinct ids has as many ids as entries. */
  lemma {:induction false} DistinctIdsCount(docs: seq<(string, Doc)>)
    requires forall i, j :: 0 <= i < j < |docs| ==> docs[i].0 != docs[j].0
    ensures |IdsOf(docs)| == |docs|
  {
    if docs != [] {
      var rest := docs[1..];
      assert forall i, j :: 0 <= i < j < |rest| ==> rest[i].0 != rest[j].0 by {
        forall i, j | 0 <= i < j < |rest| ensures rest[i].0 != rest[j].0 {
          assert rest[i] == docs[i + 1] && rest[j] == docs[j + 1];
        }
      }
      DistinctIdsCount(rest);
      IdsOfCons(docs);
      assert docs[0].0 !in IdsOf(rest) by {
        forall i | 0 <= i < |rest| ensures rest[i].0 != docs[0].0 {
          assert rest[i] == docs[i + 1];
        }
      }
    }
  }

  /** The count shown is the number of stored documents the query selects. */
  lemma CountIsMatchingDocuments(db: Db, c: Collection, selects: Doc -> bool, docs: seq<(string, Doc)>)
    requires QueryResult(db, c, selects, docs)
    ensures |docs| == |MatchingIds(db, c, selects)|
  {
    assert IdsOf(docs) == MatchingIds(db, c, selects) by {
      forall x | x in MatchingIds(db, c, selects) ensures x in IdsOf(docs) {
        var p :| p in db && p.collection == c && selects(db[p]) && p.id == x;
        assert p == Path(c, x);
      }
    }
    DistinctIdsCount(docs);
  }

  /** The entries are ordered by `createdAt`, newest first (a descending `orderBy`). */
  ghost predicate NewestFirst(docs: seq<(string, Doc)>) {
    && (forall i :: 0 <= i < |docs| ==> GetTimestamp(docs[i].1, createdAt).Some?)
    && (forall i, j :: 0 <= i < j < |docs| ==>
          NotAfter(GetTimestamp(docs[j].1, createdAt).value, GetTimestamp(docs[i].1, createdAt).value))
  }

  /** No two entries of the list share a document id. */
  predicate DistinctIds(docs: seq<(string, Doc)>) {
    forall i, j :: 0 <= i < j < |docs| ==> docs[i].0 != docs[j].0
  }

  /** Two runs of the same query over the same store return the same entries, in whatever order. */
  lemma SameQuerySameEntries(db: Db, c: Collection, selects: Doc -> bool, a: seq<(string, Doc)>, b: seq<(string, Doc)>)
    requires QueryResult(db, c, selects, a) && QueryResult(db, c, selects, b)
    ensures DistinctIds(a) && DistinctIds(b)
    ensures forall x :: x in a <==> x in b
  {
    forall x | x in a ensures x in b {
      var i :| 0 <= i < |a| && a[i] == x;
      assert Path(c, x.0) in db && selects(db[Path(c, x.0)]);
      var m :| 0 <= m < |b| && b[m].0 == x.0;
      assert b[m] == x;
    }
    forall x | x in b ensures x in a {
      var i :| 0 <= i < |b| && b[i] == x;
      assert Path(c, x.0) in db && selects(db[Path(c, x.0)]);
      var m :| 0 <= m < |a| && a[m].0 == x.0;
      assert a[m] == x;
    }
  }
}
