/**
 * Driver registration: the validation chain over the trimmed form, the email rule (a listed
 * domain only, with no pattern test and no exception for Google accounts), and the initial
 * driver document, which is approved from the start.
 */
module DriverRegistration {
  import opened Wrappers
  import opened Text
  import opened Documents
  import opened RemoteStore
  import opened AccountChecks
  import Login
  import PassengerRegistration

  const Domains: seq<string> :=
    ["@uj.ac.za", "@uct.ac.za", "@up.ac.za", "@sun.ac.za",
     "@wits.ac.za", "@nwu.ac.za", "@ukzn.ac.za", "@ru.ac.za",
     "@rosebankcollege.co.za", "@rcconnect.edu.za", "@gmail.com"]

  datatype Form = Form(institution: string, fullName: string, universityEmail: string, course: string,
                       phoneNumber: string, gender: string, vehicleColor: string, carModel: string,
                       carRegistration: string, password: string, confirmPassword: string)

  /** Every text field is read trimmed. */
  function Trimmed(f: Form): Form {
    Form(Trim(f.institution), Trim(f.fullName), Trim(f.universityEmail), Trim(f.course), Trim(f.phoneNumber),
         Trim(f.gender), Trim(f.vehicleColor), Trim(f.carModel), Trim(f.carRegistration),
         Trim(f.password), Trim(f.confirmPassword))
  }

  /** The nine profile and vehicle fields that must all be filled. */
  function ProfileFields(f: Form): seq<string> {
    [f.institution, f.fullName, f.universityEmail, f.course, f.phoneNumber, f.gender,
     f.vehicleColor, f.carModel, f.carRegistration]
  }

  /**
   * The validation chain: all nine fields, then (except for a Google account) the password rule,
   * then a listed email domain in any letter case. The first failing check decides the error.
   */
  function Validate(raw: Form, fromGoogle: bool): (r: Result<Form, RegistrationError>)
    ensures r.Ok? ==> r.value == Trimmed(raw)
    ensures r.Ok? <==> var f := Trimmed(raw);
      AllFilled(ProfileFields(f))
      && (fromGoogle || (|f.password| >= 6 && f.password == f.confirmPassword))
      && exists i :: 0 <= i < |Domains| && EndsWithIgnoreCase(f.universityEmail, Domains[i])
    ensures r == Err(MissingFields) <==> var f := Trimmed(raw);
      !AllFilled(ProfileFields(f)) || (!fromGoogle && (f.password == [] || f.confirmPassword == []))
  {
    var f := Trimmed(raw);
    if !AllFilled(ProfileFields(f)) then Err(MissingFields)
    else if !fromGoogle && RegistrationPasswordCheck(f.password, f.confirmPassword).Some? then
      Err(RegistrationPasswordCheck(f.password, f.confirmPassword).value)
    else if !AnyEndsWith(f.universityEmail, Domains) then Err(InvalidEmail)
    else Ok(f)
  }

  /** Every domain a driver may use is also open to passengers; the passenger list adds "@googlemail.com". */
  lemma DomainsWithinPassengerDomains()
    ensures forall i :: 0 <= i < |Domains| ==> Domains[i] == PassengerRegistration.Domains[i]
    ensures PassengerRegistration.Domains == Domains + ["@googlemail.com"]
  {
  }

  /**
   * The initial driver document: the profile and vehicle, type "driver", status "approved",
   * offline, and no completed rides, earnings or rating.
   */
  function Record(uid: string, f: Form, now: Timestamp): (d: Doc)
    ensures GetString(d, userId) == Some(uid)
    ensures GetString(d, userType) == Some("driver") && GetString(d, status) == Some("approved")
    ensures GetBoolean(d, onlineStatus) == Some(false)
    ensures GetLong(d, completedRides) == Some(0) && GetDouble(d, totalEarnings) == Some(0.0)
    ensures GetDouble(d, rating) == Some(0.0)
    ensures GetString(d, carRegistration) == Some(f.carRegistration)
  {
    map[userId := Str(uid), institution := Str(f.institution), fullName := Str(f.fullName),
        universityEmail := Str(f.universityEmail), course := Str(f.course), phoneNumber := Str(f.phoneNumber),
        gender := Str(f.gender), vehicleColor := Str(f.vehicleColor), carModel := Str(f.carModel),
        carRegistration := Str(f.carRegistration), userType := Str("driver"), registrationDate := Time(now),
        status := Str("approved"), onlineStatus := Flag(false), completedRides := Long(0),
        totalEarnings := Num(0.0), rating := Num(0.0)]
  }

  /** The document holds exactly its seventeen fields; the password is not among them. */
  lemma RecordFields(uid: string, f: Form, now: Timestamp)
    ensures Record(uid, f, now).Keys
         == {userId, institution, fullName, universityEmail, course, phoneNumber, gender, vehicleColor, carModel,
             carRegistration, userType, registrationDate, status, onlineStatus, completedRides, totalEarnings, rating}
  {
  }

  datatype Outcome = Invalid(error: RegistrationError) | Submitted(enrolment: Enrolment)

  /** Submitting the form: refused input writes nothing; accepted input enrols the account in `drivers`. */
  function Register(db: Db, raw: Form, fromGoogle: bool, googleUid: Option<string>, creation: Creation,
                    now: Timestamp, setNet: bool): (Db, Outcome)
  {
    match Validate(raw, fromGoogle)
    case Err(e) => (db, Invalid(e))
    case Ok(f) =>
      var (db', e) := Enrol(db, Drivers, fromGoogle, googleUid, creation, uid => Record(uid, f, now), setNet);
      (db', Submitted(e))
  }

  /** Only a completed enrolment writes, and then exactly the new driver document. */
  lemma RegisterWritesOnlyRecord(db: Db, raw: Form, fromGoogle: bool, googleUid: Option<string>, creation: Creation,
                                 now: Timestamp, setNet: bool)
    ensures var (db', outcome) := Register(db, raw, fromGoogle, googleUid, creation, now, setNet);
      if outcome.Submitted? && outcome.enrolment.Enrolled? then
        db' == db[Path(Drivers, outcome.enrolment.uid) := Record(outcome.enrolment.uid, Trimmed(raw), now)]
      else db' == db
  {
  }

  /** A Google account without a user id writes nothing. */
  lemma GoogleWithoutIdWritesNothing(db: Db, raw: Form, creation: Creation, now: Timestamp, setNet: bool)
    requires Validate(raw, true).Ok?
    ensures Register(db, raw, true, None, creation, now, setNet) == (db, Submitted(NotAuthenticated))
  {
  }

  /** A failed document write deletes the account exactly when it was created here rather than through Google. */
  lemma RollbackOnlyWithoutGoogle(db: Db, raw: Form, fromGoogle: bool, googleUid: Option<string>, creation: Creation,
                                  now: Timestamp)
    requires Register(db, raw, fromGoogle, googleUid, creation, now, false).1.Submitted?
    ensures var e := Register(db, raw, fromGoogle, googleUid, creation, now, false).1.enrolment;
      e.SaveFailed? ==> e.rolledBack == !fromGoogle
    ensures var e := Register(db, raw, fromGoogle, googleUid, creation, now, false).1.enrolment;
      !e.Enrolled?
  {
  }

  /** A newly registered driver is approved at once: the next login routes to the driver dashboard. */
  lemma RegisteredDriverLogsIn(db: Db, raw: Form, fromGoogle: bool, googleUid: Option<string>, creation: Creation,
                               now: Timestamp, passengerNet: bool)
    requires var (_, outcome) := Register(db, raw, fromGoogle, googleUid, creation, now, true);
      outcome.Submitted? && outcome.enrolment.Enrolled?
    ensures var (db', outcome) := Register(db, raw, fromGoogle, googleUid, creation, now, true);
      Login.Route(db', Some(outcome.enrolment.uid), true, passengerNet) == Login.DriverDashboard
  {
    var (db', outcome) := Register(db, raw, fromGoogle, googleUid, creation, now, true);
    var uid := outcome.enrolment.uid;
    RegisterWritesOnlyRecord(db, raw, fromGoogle, googleUid, creation, now, true);
    assert db'[Path(Drivers, uid)] == Record(uid, Trimmed(raw), now);
  }
}
