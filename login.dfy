/**
 * The login screen: the email/password input checks, the post-login routing table that decides
 * from the stored driver and passenger documents where a signed-in account may go, the Google
 * sign-in branch that sends new accounts to registration, and the password-reset guard.
 * The authentication service is a parameter: the outcome it gives for the submitted credentials.
 */
module Login {
  import opened Wrappers
  import opened Text
  import opened Documents
  import opened RemoteStore
  import opened Auth

  datatype LoginError = MissingCredentials | ShortPassword

  /**
   * The checks before any call to the authentication service, on the trimmed texts: both must be
   * present, then the password must have at least 6 characters.
   */
  function ValidateLogin(emailText: string, passwordText: string): (r: Result<(string, string), LoginError>)
    ensures r.Ok? <==> Trim(emailText) != [] && |Trim(passwordText)| >= 6
    ensures r == Err(MissingCredentials) <==> Trim(emailText) == [] || Trim(passwordText) == []
    ensures r.Ok? ==> r.value == (Trim(emailText), Trim(passwordText))
  {
    var email, password := Trim(emailText), Trim(passwordText);
    if email == [] || password == [] then Err(MissingCredentials)
    else if |password| < 6 then Err(ShortPassword)
    else Ok((email, password))
  }

  /** Accepted credentials are submitted without surrounding whitespace: trimming them again changes nothing. */
  lemma SubmittedCredentialsTrimmed(emailText: string, passwordText: string)
    requires ValidateLogin(emailText, passwordText).Ok?
    ensures var (email, password) := ValidateLogin(emailText, passwordText).value;
      Trim(email) == email && Trim(password) == password && |password| >= 6
  {
    TrimIdempotent(emailText);
    TrimIdempotent(passwordText);
  }

  /** Where a signed-in account is sent, or why it stays on the login screen. */
  datatype Destination =
    | DriverDashboard
    | PassengerDashboard
    | AwaitingApproval(accountStatus: string)
    | TypeMismatch
    | AccountNotFound
    | LookupFailed
    | NoUserId

  predicate IsApproved(accountStatus: string) {
    accountStatus == "approved" || accountStatus == "active"
  }

  /**
   * The verdict on an existing driver document: a missing status reads as "pending" and a missing
   * type as "driver"; a driver account needs an approved or active status.
   */
  function DriverVerdict(d: Doc): (r: Destination)
    ensures r.DriverDashboard? || r.AwaitingApproval? || r.TypeMismatch?
    ensures r.TypeMismatch? <==> GetString(d, userType).GetOr("driver") != "driver"
    ensures r.DriverDashboard? <==> !r.TypeMismatch? && IsApproved(GetString(d, status).GetOr("pending"))
    ensures r.AwaitingApproval? ==> r.accountStatus == GetString(d, status).GetOr("pending")
  {
    var st := GetString(d, status).GetOr("pending");
    var ty := GetString(d, userType).GetOr("driver");
    if ty == "driver" && (st == "approved" || st == "active") then DriverDashboard
    else if ty == "driver" && st != "approved" then AwaitingApproval(st)
    else TypeMismatch
  }

  /** The verdict on an existing passenger document: a missing type reads as "passenger". */
  function PassengerVerdict(d: Doc): (r: Destination)
    ensures r.PassengerDashboard? || r.TypeMismatch?
    ensures r.PassengerDashboard? <==> GetString(d, userType).GetOr("passenger") == "passenger"
  {
    if GetString(d, userType).GetOr("passenger") == "passenger" then PassengerDashboard else TypeMismatch
  }

  /**
   * The routing after a successful sign-in: no id, no lookup; otherwise the driver document
   * decides when it exists, the passenger document is read only when it does not, and a failed
   * read of either ends in an error.
   */
  function Route(db: Db, uid: Option<string>, driverNet: bool, passengerNet: bool): (r: Destination)
    ensures r == NoUserId <==> uid.None?
    ensures r.DriverDashboard? || r.AwaitingApproval? ==> uid.Some? && Path(Drivers, uid.value) in db
    ensures r.PassengerDashboard? ==> uid.Some? && Path(Drivers, uid.value) !in db && Path(Passengers, uid.value) in db
  {
    match uid
    case None => NoUserId
    case Some(id) =>
      match ReadDoc(db, Path(Drivers, id), driverNet)
      case ReadFailed => LookupFailed
      case Found(d) => DriverVerdict(d)
      case Missing =>
        match ReadDoc(db, Path(Passengers, id), passengerNet)
        case ReadFailed => LookupFailed
        case Found(p) => PassengerVerdict(p)
        case Missing => AccountNotFound
  }

  /** An account with a driver document is judged by it alone: the passenger document is never consulted. */
  lemma DriverDocumentDecides(db: Db, id: string, passengerNet: bool)
    requires Path(Drivers, id) in db
    ensures Route(db, Some(id), true, passengerNet) == DriverVerdict(db[Path(Drivers, id)])
  {
  }

  /**
   * Two stores whose driver documents for the account get the same verdict route it alike,
   * whatever their passenger documents and however the passenger reads go.
   */
  lemma PassengerSideIgnored(db: Db, db': Db, id: string, passengerNet: bool, passengerNet': bool)
    requires Path(Drivers, id) in db && Path(Drivers, id) in db'
    requires DriverVerdict(db'[Path(Drivers, id)]) == DriverVerdict(db[Path(Drivers, id)])
    ensures Route(db', Some(id), true, passengerNet') == Route(db, Some(id), true, passengerNet)
  {
    DriverDocumentDecides(db, id, passengerNet);
    DriverDocumentDecides(db', id, passengerNet');
  }

  /** The driver dashboard is reached only with a stored status of "approved" or "active"; a missing status never suffices. */
  lemma DriverDashboardNeedsApproval(db: Db, uid: Option<string>, driverNet: bool, passengerNet: bool)
    requires Route(db, uid, driverNet, passengerNet) == DriverDashboard
    ensures uid.Some? && driverNet && Path(Drivers, uid.value) in db
    ensures var d := db[Path(Drivers, uid.value)];
      status in d && (d[status] == Str("approved") || d[status] == Str("active"))
  {
  }

  /** The passenger dashboard is reached only when the account has no driver document and a passenger document of passenger type. */
  lemma PassengerDashboardNeedsPassengerDoc(db: Db, uid: Option<string>, driverNet: bool, passengerNet: bool)
    requires Route(db, uid, driverNet, passengerNet) == PassengerDashboard
    ensures uid.Some? && driverNet && passengerNet
    ensures Path(Drivers, uid.value) !in db && Path(Passengers, uid.value) in db
    ensures GetString(db[Path(Passengers, uid.value)], userType).GetOr("passenger") == "passenger"
  {
  }

  /** An account is reported missing exactly when both reads succeed and neither document exists. */
  lemma NotFoundIffNoDocuments(db: Db, id: string, driverNet: bool, passengerNet: bool)
    ensures Route(db, Some(id), driverNet, passengerNet) == AccountNotFound
        <==> driverNet && passengerNet && Path(Drivers, id) !in db && Path(Passengers, id) !in db
  {
  }

  /** The verdicts that end the session: an unapproved driver, a type mismatch and an unknown account. */
  predicate SignsOut(d: Destination) {
    d.AwaitingApproval? || d.TypeMismatch? || d.AccountNotFound?
  }

  /** What a login attempt ends in. */
  datatype Outcome =
    | Refused(error: LoginError)
    | AuthFailed
    | Routed(to: Destination)
    | Register(form: RegistrationForm, prefilledEmail: string)

  datatype RegistrationForm = DriverRegistration | PassengerRegistration

  /** The answer of the authentication service to an email/password sign-in: failure, or the id of the current user, if any. */
  datatype PasswordAuth = PasswordRejected | PasswordAccepted(uid: Option<string>)

  /**
   * The answer of the authentication service to the sign-in with a Google credential: failure,
   * or the current user and whether the account was just created. A cancelled chooser, a
   * chooser error or a missing id token ends before that sign-in and leaves the session as it was.
   */
  datatype GoogleAuth = GoogleRejected | GoogleAccepted(user: Option<User>, isNewUser: bool)

  /** The session after routing a signed-in user: the verdicts that sign out leave no session. */
  function AfterRoute(uid: Option<string>, dest: Destination): (s: Option<string>)
    ensures s.Some? <==> uid.Some? && !SignsOut(dest)
    ensures s.Some? ==> s == uid
  {
    if SignsOut(dest) then None else uid
  }

  /**
   * An email/password attempt: the outcome and the session it leaves. Refused input never reaches
   * the authentication service; a rejected sign-in leaves the session as it was.
   */
  function EmailLogin(emailText: string, passwordText: string, session: Option<string>,
                      signIn: (string, string) -> PasswordAuth, db: Db, driverNet: bool, passengerNet: bool)
    : (Outcome, Option<string>)
  {
    match ValidateLogin(emailText, passwordText)
    case Err(e) => (Refused(e), session)
    case Ok((email, password)) =>
      match signIn(email, password)
      case PasswordRejected => (AuthFailed, session)
      case PasswordAccepted(uid) =>
        var dest := Route(db, uid, driverNet, passengerNet);
        (Routed(dest), AfterRoute(uid, dest))
  }

  /** Input the checks refuse is never submitted: the outcome does not depend on the authentication service. */
  lemma RefusedInputNeverSubmitted(emailText: string, passwordText: string, session: Option<string>,
                                   signIn: (string, string) -> PasswordAuth, other: (string, string) -> PasswordAuth,
                                   db: Db, driverNet: bool, passengerNet: bool)
    requires ValidateLogin(emailText, passwordText).Err?
    ensures EmailLogin(emailText, passwordText, session, signIn, db, driverNet, passengerNet)
         == (Refused(ValidateLogin(emailText, passwordText).error), session)
    ensures EmailLogin(emailText, passwordText, session, signIn, db, driverNet, passengerNet)
         == EmailLogin(emailText, passwordText, session, other, db, driverNet, passengerNet)
  {
  }

  /** The service is asked about the trimmed credentials only: two services that agree on them give the same attempt. */
  lemma OnlyTrimmedCredentialsSubmitted(emailText: string, passwordText: string, session: Option<string>,
                                        signIn: (string, string) -> PasswordAuth, other: (string, string) -> PasswordAuth,
                                        db: Db, driverNet: bool, passengerNet: bool)
    requires signIn(Trim(emailText), Trim(passwordText)) == other(Trim(emailText), Trim(passwordText))
    ensures EmailLogin(emailText, passwordText, session, signIn, db, driverNet, passengerNet)
         == EmailLogin(emailText, passwordText, session, other, db, driverNet, passengerNet)
  {
  }

  /** A routed attempt leaves a session only for a dashboard or a failed lookup, and then it is the signed-in user's. */
  lemma RoutedSessionKept(emailText: string, passwordText: string, session: Option<string>,
                          signIn: (string, string) -> PasswordAuth, db: Db, driverNet: bool, passengerNet: bool)
    requires EmailLogin(emailText, passwordText, session, signIn, db, driverNet, passengerNet).0.Routed?
    ensures var (outcome, session') := EmailLogin(emailText, passwordText, session, signIn, db, driverNet, passengerNet);
      session'.Some? <==> outcome.to.DriverDashboard? || outcome.to.PassengerDashboard? || outcome.to.LookupFailed?
  {
  }

  /** New Google accounts go to the registration form of the selected user type: "driver" picks the driver form, anything else the passenger form. */
  function RegistrationTarget(selectedUserType: string): (r: RegistrationForm)
    ensures r == DriverRegistration <==> selectedUserType == "driver"
  {
    if selectedUserType == "driver" then DriverRegistration else PassengerRegistration
  }

  /**
   * A Google attempt: a rejected sign-in signs out; a new account with a user goes to registration
   * with its email (or empty text) prefilled, without any lookup; any other is routed by its id.
   */
  function GoogleLogin(selectedUserType: string, result: GoogleAuth, db: Db, driverNet: bool, passengerNet: bool)
    : (Outcome, Option<string>)
  {
    match result
    case GoogleRejected => (AuthFailed, None)
    case GoogleAccepted(user, isNewUser) =>
      var uid := if user.Some? then Some(user.value.uid) else None;
      if isNewUser && user.Some? then
        (Register(RegistrationTarget(selectedUserType), user.value.email.GetOr("")), uid)
      else
        var dest := Route(db, uid, driverNet, passengerNet);
        (Routed(dest), AfterRoute(uid, dest))
  }

  /** A new Google account is sent to registration whatever the stored documents say, signed in and with its email prefilled. */
  lemma NewGoogleAccountRegisters(selectedUserType: string, u: User, db: Db, driverNet: bool, passengerNet: bool)
    ensures GoogleLogin(selectedUserType, GoogleAccepted(Some(u), true), db, driverNet, passengerNet)
         == (Register(if selectedUserType == "driver" then DriverRegistration else PassengerRegistration, u.email.GetOr("")),
             Some(u.uid))
  {
  }

  /** An existing Google account meets the same routing table as an email/password sign-in of the same user. */
  lemma GoogleRoutesLikeEmail(selectedUserType: string, u: User, emailText: string, passwordText: string,
                              session: Option<string>, signIn: (string, string) -> PasswordAuth,
                              db: Db, driverNet: bool, passengerNet: bool)
    requires ValidateLogin(emailText, passwordText).Ok?
    requires signIn(Trim(emailText), Trim(passwordText)) == PasswordAccepted(Some(u.uid))
    ensures GoogleLogin(selectedUserType, GoogleAccepted(Some(u), false), db, driverNet, passengerNet)
         == EmailLogin(emailText, passwordText, session, signIn, db, driverNet, passengerNet)
  {
  }

  /** The screen's state: the selected user type (initially "driver"), the two text fields and the signed-in user. */
  class LoginScreen {
    var selectedUserType: string
    var emailText: string
    var passwordText: string
    var session: Option<string>

    /** A prefilled email from the registration screen is shown when it is not empty. */
    constructor (prefilledEmail: Option<string>, current: Option<string>)
      ensures selectedUserType == "driver"
      ensures emailText == prefilledEmail.GetOr("") && passwordText == ""
      ensures session == current
    {
      selectedUserType := "driver";
      emailText := prefilledEmail.GetOr("");
      passwordText := "";
      session := current;
    }

    method SelectUserType(driver: bool)
      modifies this
      ensures selectedUserType == (if driver then "driver" else "passenger")
      ensures emailText == old(emailText) && passwordText == old(passwordText) && session == old(session)
    {
      selectedUserType := if driver then "driver" else "passenger";
    }

    method EnterCredentials(email: string, password: string)
      modifies this
      ensures emailText == email && passwordText == password
      ensures selectedUserType == old(selectedUserType) && session == old(session)
    {
      emailText, passwordText := email, password;
    }

    method LoginWithEmailPassword(db: Db, signIn: (string, string) -> PasswordAuth, driverNet: bool, passengerNet: bool)
      returns (outcome: Outcome)
      modifies this
      ensures (outcome, session) == EmailLogin(emailText, passwordText, old(session), signIn, db, driverNet, passengerNet)
      ensures emailText == old(emailText) && passwordText == old(passwordText)
      ensures selectedUserType == old(selectedUserType)
    {
      var email := Trim(emailText);
      var password := Trim(passwordText);
      if email == [] || password == [] {
        return Refused(MissingCredentials);
      }
      if |password| < 6 {
        return Refused(ShortPassword);
      }
      var answer := signIn(email, password);
      if answer.PasswordRejected? {
        return AuthFailed;
      }
      session := answer.uid;
      var dest := Route(db, answer.uid, driverNet, passengerNet);
      if SignsOut(dest) {
        session := None;
      }
      outcome := Routed(dest);
    }

    method SignInWithGoogle(result: GoogleAuth, db: Db, driverNet: bool, passengerNet: bool) returns (outcome: Outcome)
      modifies this
      ensures (outcome, session) == GoogleLogin(old(selectedUserType), result, db, driverNet, passengerNet)
      ensures emailText == old(emailText) && passwordText == old(passwordText)
      ensures selectedUserType == old(selectedUserType)
    {
      if result.GoogleRejected? {
        session := None;
        return AuthFailed;
      }
      session := if result.user.Some? then Some(result.user.value.uid) else None;
      if result.isNewUser && result.user.Some? {
        var form := if selectedUserType == "driver" then DriverRegistration else PassengerRegistration;
        return Register(form, result.user.value.email.GetOr(""));
      }
      var dest := Route(db, session, driverNet, passengerNet);
      if SignsOut(dest) {
        session := None;
      }
      outcome := Routed(dest);
    }

    /** Forgot-password: a reset request for the trimmed email, sent only when the email text is not blank. */
    method ForgotPassword() returns (request: Option<string>)
      ensures request.Some? <==> exists i :: 0 <= i < |emailText| && !IsWhitespace(emailText[i])
      ensures request.Some? ==> request.value == Trim(emailText) && Trim(request.value) == request.value
    {
      TrimSpec(emailText);
      TrimIdempotent(emailText);
      var email := Trim(emailText);
      if email == [] {
        return None;
      }
      request := Some(email);
    }
  }
}
