/**
 * Passenger registration: the validation chain over the trimmed form, the email rule (a listed
 * university or Google domain and the email pattern, or only the pattern for a Google account),
 * and the initial passenger document. The email pattern is a parameter.
 */
module PassengerRegistration {
  import opened Wrappers
  import opened Text
  import opened Documents
  import opened RemoteStore
  import opened AccountChecks
  import Login

  const Domains: seq<string> :=
    ["@uj.ac.za", "@uct.ac.za", "@up.ac.za", "@sun.ac.za",
     "@wits.ac.za", "@nwu.ac.za", "@ukzn.ac.za", "@ru.ac.za",
     "@rosebankcollege.co.za", "@rcconnect.edu.za",
     "@gmail.com", "@googlemail.com"]

  datatype Form = Form(institution: string, fullName: string, universityEmail: string, course: string,
                       phoneNumber: string, gender: string, password: string, confirmPassword: string)

  /** Every text field is read trimmed. */
  function Trimmed(f: Form): Form {
    Form(Trim(f.institution), Trim(f.fullName), Trim(f.universityEmail), Trim(f.course),
         Trim(f.phoneNumber), Trim(f.gender), Trim(f.password), Trim(f.confirmPassword))
  }

  /** The six profile fields that must all be filled. */
  function ProfileFields(f: Form): seq<string> {
    [f.institution, f.fullName, f.universityEmail, f.course, f.phoneNumber, f.gender]
  }

  /** A Google account needs only the pattern; any other address also needs a listed domain, in any letter case. */
  function EmailValid(email: string, fromGoogle: bool, pattern: string -> bool): (r: bool)
    ensures r <==> pattern(email) && (fromGoogle || exists i :: 0 <= i < |Domains| && EndsWithIgnoreCase(email, Domains[i]))
  {
    if fromGoogle then pattern(email) else AnyEndsWith(email, Domains) && pattern(email)
  }

  /**
   * The validation chain: all six profile fields, then (except for a Google account) the
   * password rule, then the email rule. The first failing check decides the error.
   */
  function Validate(raw: Form, fromGoogle: bool, pattern: string -> bool): (r: Result<Form, RegistrationError>)
    ensures r.Ok? ==> r.value == Trimmed(raw)
    ensures r.Ok? <==> var f := Trimmed(raw);
      AllFilled(ProfileFields(f))
      && (fromGoogle || (|f.password| >= 6 && f.password == f.confirmPassword))
      && EmailValid(f.universityEmail, fromGoogle, pattern)
    ensures r == Err(MissingFields) <==> var f := Trimmed(raw);
      !AllFilled(ProfileFields(f)) || (!fromGoogle && (f.password == [] || f.confirmPassword == []))
  {
    var f := Trimmed(raw);
    if !AllFilled(ProfileFields(f)) then Err(MissingFields)
    else if !fromGoogle && RegistrationPasswordCheck(f.password, f.confirmPassword).Some? then
      Err(RegistrationPasswordCheck(f.password, f.confirmPassword).value)
    else if !EmailValid(f.universityEmail, fromGoogle, pattern) then Err(InvalidEmail)
    else Ok(f)
  }

  /** The initial passenger document: the profile, type "passenger", status "active", a 100.0 wallet and no rides or rating. */
  function Record(uid: string, f: Form, now: Timestamp): (d: Doc)
    ensures GetString(d, userId) == Some(uid)
    ensures GetString(d, userType) == Some("passenger") && GetString(d, status) == Some("active")
    ensures GetDouble(d, walletBalance) == Some(100.0) && GetLong(d, totalRides) == Some(0)
    ensures GetDouble(d, rating) == Some(0.0)
    ensures GetString(d, universityEmail) == Some(f.universityEmail)
  {
    map[userId := Str(uid), institution := Str(f.institution), fullName := Str(f.fullName),
        universityEmail := Str(f.universityEmail), course := Str(f.course), phoneNumber := Str(f.phoneNumber),
        gender := Str(f.gender), userType := Str("passenger"), registrationDate := Time(now),
        status := Str("active"), walletBalance := Num(100.0), totalRides := Long(0), rating := Num(0.0)]
  }

  /** The document holds exactly its thirteen fields; the password is not among them. */
  lemma RecordFields(uid: string, f: Form, now: Timestamp)
    ensures Record(uid, f, now).Keys
         == {userId, institution, fullName, universityEmail, course, phoneNumber, gender, userType,
             registrationDate, status, walletBalance, totalRides, rating}
  {
  }

  datatype Outcome = Invalid(error: RegistrationError) | Submitted(enrolment: Enrolment)

  /** Submitting the form: refused input writes nothing; accepted input enrols the account in `passengers`. */
  function Register(db: Db, raw: Form, fromGoogle: bool, pattern: string -> bool, googleUid: Option<string>,
                    creation: Creation, now: Timestamp, setNet: bool): (Db, Outcome)
  {
    match Validate(raw, fromGoogle, pattern)
    case Err(e) => (db, Invalid(e))
    case Ok(f) =>
      var (db', e) := Enrol(db, Passengers, fromGoogle, googleUid, creation, uid => Record(uid, f, now), setNet);
      (db', Submitted(e))
  }

  /** Only a completed enrolment writes, and then exactly the new passenger document. */
  lemma RegisterWritesOnlyRecord(db: Db, raw: Form, fromGoogle: bool, pattern: string -> bool, googleUid: Option<string>,
                                 creation: Creation, now: Timestamp, setNet: bool)
    ensures var (db', outcome) := Register(db, raw, fromGoogle, pattern, googleUid, creation, now, setNet);
      if outcome.Submitted? && outcome.enrolment.Enrolled? then
        db' == db[Path(Passengers, outcome.enrolment.uid) := Record(outcome.enrolment.uid, Trimmed(raw), now)]
      else db' == db
  {
  }

  /** A Google account without a user id writes nothing and is never rolled back. */
  lemma GoogleWithoutIdWritesNothing(db: Db, raw: Form, pattern: string -> bool, creation: Creation, now: Timestamp,
                                     setNet: bool)
    requires Validate(raw, true, pattern).Ok?
    ensures Register(db, raw, true, pattern, None, creation, now, setNet) == (db, Submitted(NotAuthenticated))
    ensures Register(db, raw, true, pattern, Some(""), creation, now, setNet) == (db, Submitted(NotAuthenticated))
  {
  }

  /** A Google account skips the password rule and the domain list: the pattern alone decides the email. */
  lemma GoogleSkipsPasswordAndDomains(raw: Form, pattern: string -> bool)
    requires AllFilled(ProfileFields(Trimmed(raw)))
    ensures Validate(raw, true, pattern).Ok? <==> pattern(Trim(raw.universityEmail))
  {
  }

  /** A newly registered passenger without a driver document is routed to the passenger dashboard at the next login. */
  lemma RegisteredPassengerLogsIn(db: Db, raw: Form, fromGoogle: bool, pattern: string -> bool, googleUid: Option<string>,
                                  creation: Creation, now: Timestamp)
    requires var (_, outcome) := Register(db, raw, fromGoogle, pattern, googleUid, creation, now, true);
      outcome.Submitted? && outcome.enrolment.Enrolled? && Path(Drivers, outcome.enrolment.uid) !in db
    ensures var (db', outcome) := Register(db, raw, fromGoogle, pattern, googleUid, creation, now, true);
      Login.Route(db', Some(outcome.enrolment.uid), true, true) == Login.PassengerDashboard
  {
    var (db', outcome) := Register(db, raw, fromGoogle, pattern, googleUid, creation, now, true);
    var uid := outcome.enrolment.uid;
    RegisterWritesOnlyRecord(db, raw, fromGoogle, pattern, googleUid, creation, now, true);
    assert db'[Path(Passengers, uid)] == Record(uid, Trimmed(raw), now);
  }
}
