/**
 * The hosted document database, reduced to what the screens rely on: documents addressed by
 * collection and id, a whole-document `set`, a field-merging `update` that fails on a missing
 * document, and point reads. Every write takes the network outcome as a parameter.
 */
module RemoteStore {
  import opened Wrappers
  import opened Documents

  datatype Collection = Rides | Drivers | Passengers | RideRatings

  datatype Path = Path(collection: Collection, id: string)

  type Db = map<Path, Doc>

  /** `document(p).set(d)`: on success the document at `p` becomes exactly `d`. */
  function SetDoc(db: Db, p: Path, d: Doc, net: bool): (Db, bool) {
    if net then (db[p := d], true) else (db, false)
  }

  /**
   * `document(p).update(u)`: succeeds only when the network call does and the document exists;
   * then the fields of `u` are merged into it and nothing else changes.
   */
  function UpdateDoc(db: Db, p: Path, u: Doc, net: bool): (Db, bool) {
    if net && p in db then (db[p := Merge(db[p], u)], true) else (db, false)
  }

  /** A set reports the network outcome, adds `p` when it succeeds, and leaves every other document alone. */
  lemma SetDocSpec(db: Db, p: Path, d: Doc, net: bool)
    ensures var (db', ok) := SetDoc(db, p, d, net);
      && ok == net
      && db'.Keys == (if net then db.Keys + {p} else db.Keys)
      && (net ==> db'[p] == d)
      && (forall q :: q in db && q != p ==> db'[q] == db[q])
  {
  }

  /** An update succeeds exactly when the network call does and the document exists, and adds no document. */
  lemma UpdateDocSpec(db: Db, p: Path, u: Doc, net: bool)
    ensures var (db', ok) := UpdateDoc(db, p, u, net);
      && (ok <==> net && p in db)
      && db'.Keys == db.Keys
      && (ok ==> db'[p] == Merge(db[p], u))
      && (!ok ==> db' == db)
      && (forall q :: q in db && q != p ==> db'[q] == db[q])
  {
  }

  /** The outcome of `document(p).get()`: a snapshot of an existing document, of a missing one, or a failed call. */
  datatype Read = Found(doc: Doc) | Missing | ReadFailed

  function ReadDoc(db: Db, p: Path, net: bool): (r: Read)
    ensures r.ReadFailed? <==> !net
    ensures r.Found? <==> net && p in db
    ensures r.Found? ==> r.doc == db[p]
  {
    if !net then ReadFailed else if p in db then Found(db[p]) else Missing
  }

  class Store {
    var db: Db

    constructor (initial: Db)
      ensures db == initial
    {
      db := initial;
    }

    method Set(p: Path, d: Doc, net: bool) returns (ok: bool)
      modifies this
      ensures db == SetDoc(old(db), p, d, net).0 && ok == net
    {
      db, ok := SetDoc(db, p, d, net).0, net;
    }

    method Update(p: Path, u: Doc, net: bool) returns (ok: bool)
      modifies this
      ensures (db, ok) == UpdateDoc(old(db), p, u, net)
    {
      ok := net && p in db;
      if ok {
        db := db[p := Merge(db[p], u)];
      }
    }
  }
}
