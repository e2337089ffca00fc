/**
 * The passenger profile screen: the form loaded from the passenger document, the stats shown
 * beside it with their defaults, and the profile update, which writes the five editable fields
 * and nothing else. The password dialog is the one in `PasswordChange`.
 */
module PassengerProfile {
  import opened Wrappers
  import opened Text
  import opened Documents
  import opened RemoteStore
  import PassengerRegistration

  /** The five editable fields. */
  datatype Edits = Edits(fullName: string, course: string, phoneNumber: string, institution: string, gender: string)

  function Trimmed(e: Edits): Edits {
    Edits(Trim(e.fullName), Trim(e.course), Trim(e.phoneNumber), Trim(e.institution), Trim(e.gender))
  }

  predicate Filled(e: Edits) {
    e.fullName != [] && e.course != [] && e.phoneNumber != [] && e.institution != [] && e.gender != []
  }

  /** The form as loaded from a stored document: each absent text field shows as empty. */
  function FormOf(d: Doc): (e: Edits)
    ensures ShowsText(d, fullName, e.fullName) && ShowsText(d, course, e.course)
    ensures ShowsText(d, phoneNumber, e.phoneNumber) && ShowsText(d, institution, e.institution)
    ensures ShowsText(d, gender, e.gender)
  {
    Edits(GetString(d, fullName).GetOr(""), GetString(d, course).GetOr(""), GetString(d, phoneNumber).GetOr(""),
          GetString(d, institution).GetOr(""), GetString(d, gender).GetOr(""))
  }

  /** The update map: the five trimmed fields, or nothing when one of them is empty. */
  function UpdateMap(raw: Edits): (r: Option<Doc>)
    ensures r.Some? <==> Filled(Trimmed(raw))
  {
    var e := Trimmed(raw);
    if !Filled(e) then None
    else Some(map[fullName := Str(e.fullName), course := Str(e.course), phoneNumber := Str(e.phoneNumber),
                  institution := Str(e.institution), gender := Str(e.gender)])
  }

  /** The update map, loaded back into the form, gives the trimmed edits. */
  lemma UpdateMapReadsBack(raw: Edits)
    requires UpdateMap(raw).Some?
    ensures FormOf(UpdateMap(raw).value) == Trimmed(raw)
  {
  }

  /** The update map names exactly the five editable fields. */
  lemma UpdateMapFields(raw: Edits)
    requires UpdateMap(raw).Some?
    ensures UpdateMap(raw).value.Keys == {fullName, course, phoneNumber, institution, gender}
  {
  }

  /** Wallet balance, completed rides and rating as shown: 0.0, 0 and 0.0 when absent. */
  datatype Stats = Stats(walletBalance: real, totalRides: int, rating: real)

  function StatsOf(d: Doc): (s: Stats)
    ensures walletBalance !in d ==> s.walletBalance == 0.0
    ensures totalRides !in d ==> s.totalRides == 0
    ensures rating !in d ==> s.rating == 0.0
  {
    Stats(GetDouble(d, walletBalance).GetOr(0.0), GetLong(d, totalRides).GetOr(0), GetDouble(d, rating).GetOr(0.0))
  }

  /** Documents that agree on the three stats fields show the same stats. */
  lemma StatsOfAgree(d: Doc, d': Doc)
    requires (walletBalance in d' <==> walletBalance in d) && (walletBalance in d ==> d'[walletBalance] == d[walletBalance])
    requires (totalRides in d' <==> totalRides in d) && (totalRides in d ==> d'[totalRides] == d[totalRides])
    requires (rating in d' <==> rating in d) && (rating in d ==> d'[rating] == d[rating])
    ensures StatsOf(d') == StatsOf(d)
  {
  }

  /** A freshly registered passenger shows a 100.0 balance, no rides and no rating. */
  lemma NewPassengerStats(uid: string, f: PassengerRegistration.Form, now: Timestamp)
    ensures StatsOf(PassengerRegistration.Record(uid, f, now)) == Stats(100.0, 0, 0.0)
  {
  }

  datatype UpdateOutcome = NotSignedIn | MissingFields | UpdateFailed | Updated

  /** Saving the profile: nothing without a user or with an empty field; otherwise one update of `passengers/<uid>`. */
  function UpdateProfile(db: Db, uid: Option<string>, raw: Edits, net: bool): (r: (Db, UpdateOutcome))
    ensures !r.1.Updated? ==> r.0 == db
    ensures r.1.Updated? <==> uid.Some? && Filled(Trimmed(raw)) && net && Path(Passengers, uid.value) in db
  {
    match uid
    case None => (db, NotSignedIn)
    case Some(id) =>
      match UpdateMap(raw)
      case None => (db, MissingFields)
      case Some(u) =>
        var (db', ok) := UpdateDoc(db, Path(Passengers, id), u, net);
        (db', if ok then Updated else UpdateFailed)
  }

  /** A successful update merges the five fields into the stored document and changes nothing else. */
  lemma UpdateIsMerge(db: Db, id: string, raw: Edits, net: bool)
    requires UpdateProfile(db, Some(id), raw, net).1.Updated?
    ensures Path(Passengers, id) in db && UpdateMap(raw).Some?
    ensures UpdateProfile(db, Some(id), raw, net).0
         == db[Path(Passengers, id) := Merge(db[Path(Passengers, id)], UpdateMap(raw).value)]
  {
  }

  /** A document with all five fields merged in loads exactly the merged values into the form. */
  lemma FormOfMerge(d: Doc, u: Doc)
    requires fullName in u && course in u && phoneNumber in u && institution in u && gender in u
    ensures FormOf(Merge(d, u)) == FormOf(u)
  {
    var m := Merge(d, u);
    assert m[fullName] == u[fullName] && m[course] == u[course] && m[phoneNumber] == u[phoneNumber];
    assert m[institution] == u[institution] && m[gender] == u[gender];
  }

  /** After a successful update the form loads the submitted, trimmed values. */
  lemma UpdateReadsBack(db: Db, id: string, raw: Edits, net: bool)
    requires UpdateProfile(db, Some(id), raw, net).1.Updated?
    ensures Path(Passengers, id) in UpdateProfile(db, Some(id), raw, net).0
    ensures FormOf(UpdateProfile(db, Some(id), raw, net).0[Path(Passengers, id)]) == Trimmed(raw)
  {
    UpdateIsMerge(db, id, raw, net);
    UpdateMapFields(raw);
    FormOfMerge(db[Path(Passengers, id)], UpdateMap(raw).value);
    UpdateMapReadsBack(raw);
  }

  /** A successful update leaves every field other than the five editable ones as it was: email, wallet, rides, rating. */
  lemma UpdateKeepsOtherFields(db: Db, id: string, raw: Edits, net: bool, k: Field)
    requires UpdateProfile(db, Some(id), raw, net).1.Updated?
    requires k != fullName && k != course && k != phoneNumber && k != institution && k != gender
    ensures var d, d' := db[Path(Passengers, id)], UpdateProfile(db, Some(id), raw, net).0[Path(Passengers, id)];
      (k in d' <==> k in d) && (k in d ==> d'[k] == d[k])
  {
    UpdateIsMerge(db, id, raw, net);
    UpdateMapFields(raw);
  }

  /** Editing the profile never changes the balance, ride count or rating shown. */
  lemma UpdateKeepsStats(db: Db, id: string, raw: Edits, net: bool)
    requires UpdateProfile(db, Some(id), raw, net).1.Updated?
    ensures var db' := UpdateProfile(db, Some(id), raw, net).0;
      StatsOf(db'[Path(Passengers, id)]) == StatsOf(db[Path(Passengers, id)])
  {
    UpdateKeepsOtherFields(db, id, raw, net, walletBalance);
    UpdateKeepsOtherFields(db, id, raw, net, totalRides);
    UpdateKeepsOtherFields(db, id, raw, net, rating);
    StatsOfAgree(db[Path(Passengers, id)], UpdateProfile(db, Some(id), raw, net).0[Path(Passengers, id)]);
  }
}
