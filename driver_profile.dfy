/**
 * The driver profile screen: the form loaded from the driver document, the account status shown
 * with its default, and the profile update, which writes the eight editable fields and nothing
 * else. The password dialog is the one in `PasswordChange`.
 */
module DriverProfile {
  import opened Wrappers
  import opened Text
  import opened Documents
  import opened RemoteStore
  import DriverRegistration
  import Login

  /** The eight editable fields. */
  datatype Edits = Edits(fullName: string, course: string, phoneNumber: string, vehicleColor: string,
                         carModel: string, carRegistration: string, institution: string, gender: string)

  function Trimmed(e: Edits): Edits {
    Edits(Trim(e.fullName), Trim(e.course), Trim(e.phoneNumber), Trim(e.vehicleColor), Trim(e.carModel),
          Trim(e.carRegistration), Trim(e.institution), Trim(e.gender))
  }

  predicate Filled(e: Edits) {
    e.fullName != [] && e.course != [] && e.phoneNumber != [] && e.vehicleColor != []
    && e.carModel != [] && e.carRegistration != [] && e.institution != [] && e.gender != []
  }

  /** The editable fields. */
  predicate Editable(k: Field) {
    k == fullName || k == course || k == phoneNumber || k == vehicleColor
    || k == carModel || k == carRegistration || k == institution || k == gender
  }

  /** The form as loaded from a stored document: each absent text field shows as empty. */
  function FormOf(d: Doc): (e: Edits)
    ensures ShowsText(d, fullName, e.fullName) && ShowsText(d, course, e.course)
    ensures ShowsText(d, phoneNumber, e.phoneNumber) && ShowsText(d, vehicleColor, e.vehicleColor)
    ensures ShowsText(d, carModel, e.carModel) && ShowsText(d, carRegistration, e.carRegistration)
    ensures ShowsText(d, institution, e.institution) && ShowsText(d, gender, e.gender)
  {
    Edits(GetString(d, fullName).GetOr(""), GetString(d, course).GetOr(""), GetString(d, phoneNumber).GetOr(""),
          GetString(d, vehicleColor).GetOr(""), GetString(d, carModel).GetOr(""),
          GetString(d, carRegistration).GetOr(""), GetString(d, institution).GetOr(""),
          GetString(d, gender).GetOr(""))
  }

  /** The update map: the eight trimmed fields, or nothing when one of them is empty. */
  function UpdateMap(raw: Edits): (r: Option<Doc>)
    ensures r.Some? <==> Filled(Trimmed(raw))
  {
    var e := Trimmed(raw);
    if !Filled(e) then None
    else Some(map[fullName := Str(e.fullName), course := Str(e.course), phoneNumber := Str(e.phoneNumber),
                  vehicleColor := Str(e.vehicleColor), carModel := Str(e.carModel),
                  carRegistration := Str(e.carRegistration), institution := Str(e.institution),
                  gender := Str(e.gender)])
  }

  /** The update map, loaded back into the form, gives the trimmed edits. */
  lemma UpdateMapReadsBack(raw: Edits)
    requires UpdateMap(raw).Some?
    ensures FormOf(UpdateMap(raw).value) == Trimmed(raw)
  {
  }

  /** The update map names exactly the editable fields. */
  lemma UpdateMapFields(raw: Edits)
    requires UpdateMap(raw).Some?
    ensures forall k :: k in UpdateMap(raw).value <==> Editable(k)
  {
  }

  /** The account status as shown: the stored status, "pending" when absent, with its first letter upper-cased. */
  function ShownStatus(d: Doc): (shown: string)
    ensures status !in d ==> shown == CapitalizeFirst("pending")
    ensures GetString(d, status).Some? ==> shown == CapitalizeFirst(GetString(d, status).value)
  {
    CapitalizeFirst(GetString(d, status).GetOr("pending"))
  }

  /** A document without a status shows "Pending". */
  lemma MissingStatusShowsPending(d: Doc)
    requires status !in d
    ensures ShownStatus(d) == "Pending"
  {
    assert CapitalizeFirst("pending") == [Upper('p')] + "ending";
  }

  /** A freshly registered driver shows "Approved". */
  lemma NewDriverShowsApproved(uid: string, f: DriverRegistration.Form, now: Timestamp)
    ensures ShownStatus(DriverRegistration.Record(uid, f, now)) == "Approved"
  {
    assert CapitalizeFirst("approved") == [Upper('a')] + "pproved";
  }

  datatype UpdateOutcome = NotSignedIn | MissingFields | UpdateFailed | Updated

  /** Saving the profile: nothing without a user or with an empty field; otherwise one update of `drivers/<uid>`. */
  function UpdateProfile(db: Db, uid: Option<string>, raw: Edits, net: bool): (r: (Db, UpdateOutcome))
    ensures !r.1.Updated? ==> r.0 == db
    ensures r.1.Updated? <==> uid.Some? && Filled(Trimmed(raw)) && net && Path(Drivers, uid.value) in db
  {
    match uid
    case None => (db, NotSignedIn)
    case Some(id) =>
      match UpdateMap(raw)
      case None => (db, MissingFields)
      case Some(u) =>
        var (db', ok) := UpdateDoc(db, Path(Drivers, id), u, net);
        (db', if ok then Updated else UpdateFailed)
  }

  /** A successful update merges the eight fields into the stored document and changes nothing else. */
  lemma UpdateIsMerge(db: Db, id: string, raw: Edits, net: bool)
    requires UpdateProfile(db, Some(id), raw, net).1.Updated?
    ensures Path(Drivers, id) in db && UpdateMap(raw).Some?
    ensures UpdateProfile(db, Some(id), raw, net).0
         == db[Path(Drivers, id) := Merge(db[Path(Drivers, id)], UpdateMap(raw).value)]
  {
  }

  /** A document with all editable fields merged in loads exactly the merged values into the form. */
  lemma FormOfMerge(d: Doc, u: Doc)
    requires forall k :: Editable(k) ==> k in u
    ensures FormOf(Merge(d, u)) == FormOf(u)
  {
    var m := Merge(d, u);
    assert m[fullName] == u[fullName] && m[course] == u[course] && m[phoneNumber] == u[phoneNumber];
    assert m[vehicleColor] == u[vehicleColor] && m[carModel] == u[carModel];
    assert m[carRegistration] == u[carRegistration] && m[institution] == u[institution] && m[gender] == u[gender];
  }

  /** After a successful update the form loads the submitted, trimmed values. */
  lemma UpdateReadsBack(db: Db, id: string, raw: Edits, net: bool)
    requires UpdateProfile(db, Some(id), raw, net).1.Updated?
    ensures Path(Drivers, id) in UpdateProfile(db, Some(id), raw, net).0
    ensures FormOf(UpdateProfile(db, Some(id), raw, net).0[Path(Drivers, id)]) == Trimmed(raw)
  {
    UpdateIsMerge(db, id, raw, net);
    UpdateMapFields(raw);
    FormOfMerge(db[Path(Drivers, id)], UpdateMap(raw).value);
    UpdateMapReadsBack(raw);
  }

  /** A successful update leaves every other field as it was: email, status, online flag, counters. */
  lemma UpdateKeepsOtherFields(db: Db, id: string, raw: Edits, net: bool, k: Field)
    requires UpdateProfile(db, Some(id), raw, net).1.Updated?
    requires !Editable(k)
    ensures var d, d' := db[Path(Drivers, id)], UpdateProfile(db, Some(id), raw, net).0[Path(Drivers, id)];
      (k in d' <==> k in d) && (k in d ==> d'[k] == d[k])
  {
    UpdateIsMerge(db, id, raw, net);
    UpdateMapFields(raw);
  }

  /** Merging fields other than type and status into a driver document keeps its login verdict. */
  lemma MergeKeepsVerdict(d: Doc, u: Doc)
    requires userType !in u && status !in u
    ensures Login.DriverVerdict(Merge(d, u)) == Login.DriverVerdict(d)
  {
    assert GetString(Merge(d, u), userType) == GetString(d, userType);
    assert GetString(Merge(d, u), status) == GetString(d, status);
  }

  /** Editing the profile keeps the login verdict of the driver document: type and status are not editable. */
  lemma UpdateKeepsVerdict(db: Db, id: string, raw: Edits, net: bool)
    requires UpdateProfile(db, Some(id), raw, net).1.Updated?
    ensures var db' := UpdateProfile(db, Some(id), raw, net).0;
      && Path(Drivers, id) in db && Path(Drivers, id) in db'
      && Login.DriverVerdict(db'[Path(Drivers, id)]) == Login.DriverVerdict(db[Path(Drivers, id)])
  {
    var p := Path(Drivers, id);
    UpdateIsMerge(db, id, raw, net);
    var d, u := db[p], UpdateMap(raw).value;
    UpdateMapFields(raw);
    MergeKeepsVerdict(d, u);
  }

  /** Editing the profile cannot change where the driver's next login leads. */
  lemma UpdateKeepsLoginRoute(db: Db, id: string, raw: Edits, net: bool, passengerNet: bool)
    requires UpdateProfile(db, Some(id), raw, net).1.Updated?
    ensures Login.Route(UpdateProfile(db, Some(id), raw, net).0, Some(id), true, passengerNet)
         == Login.Route(db, Some(id), true, passengerNet)
  {
    UpdateKeepsVerdict(db, id, raw, net);
    Login.PassengerSideIgnored(db, UpdateProfile(db, Some(id), raw, net).0, id, passengerNet, passengerNet);
  }
}
