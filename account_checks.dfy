/**
 * What the two registration screens share: the all-fields-filled test, the password rule for
 * accounts created with an email and password, the case-insensitive domain-suffix test over a
 * list of domains, and the account creation followed by the profile-document write with its
 * rollback rule.
 */
module AccountChecks {
  import opened Wrappers
  import opened Text
  import opened Documents
  import opened RemoteStore

  datatype RegistrationError = MissingFields | ShortPassword | PasswordMismatch | InvalidEmail

  /** Every one of the (trimmed) fields has some text. */
  predicate AllFilled(fields: seq<string>) {
    forall i :: 0 <= i < |fields| ==> fields[i] != []
  }

  /**
   * The password rule for an account created with an email and password, checked in order:
   * both texts present, then at least 6 characters, then equal to the confirmation.
   */
  function RegistrationPasswordCheck(password: string, confirmPassword: string): (r: Option<RegistrationError>)
    ensures r.None? <==> |password| >= 6 && password == confirmPassword
    ensures r == Some(MissingFields) <==> password == [] || confirmPassword == []
    ensures r == Some(ShortPassword) <==> password != [] && confirmPassword != [] && |password| < 6
  {
    if password == [] || confirmPassword == [] then Some(MissingFields)
    else if |password| < 6 then Some(ShortPassword)
    else if password != confirmPassword then Some(PasswordMismatch)
    else None
  }

  /** `domains.any { email.endsWith(it, ignoreCase = true) }`. */
  function AnyEndsWith(email: string, domains: seq<string>): (r: bool)
    ensures r <==> exists i :: 0 <= i < |domains| && EndsWithIgnoreCase(email, domains[i])
  {
    if domains == [] then false
    else if EndsWithIgnoreCase(email, domains[0]) then true
    else
      var r := AnyEndsWith(email, domains[1..]);
      assert forall i :: 1 <= i < |domains| ==> domains[i] == domains[1..][i - 1];
      r
  }

  /** The suffix test does not see letter case: two spellings of one address get the same answer. */
  lemma AnyEndsWithIgnoresCase(email: string, other: string, domains: seq<string>)
    requires EqualsIgnoreCase(email, other)
    ensures AnyEndsWith(email, domains) == AnyEndsWith(other, domains)
  {
    forall i | 0 <= i < |domains|
      ensures EndsWithIgnoreCase(email, domains[i]) == EndsWithIgnoreCase(other, domains[i])
    {
      var n, k := |email|, |domains[i]|;
      if k <= n {
        var a, b := email[n - k..], other[n - k..];
        assert forall j :: 0 <= j < k ==> Lower(a[j]) == Lower(email[n - k + j]) && Lower(b[j]) == Lower(other[n - k + j]);
      }
    }
  }

  /** The answer of the authentication service to creating an account: failure, or the current user's id, if any. */
  datatype Creation = CreateFailed | Created(uid: Option<string>)

  /** How a submitted registration ends once its input has been accepted. */
  datatype Enrolment = NotAuthenticated | CreationFailed | SaveFailed(rolledBack: bool) | Enrolled(uid: string)

  /**
   * Storing the profile document under the account's id: an empty id writes nothing; a failed
   * write is followed by deleting the account when `rollback` is set.
   */
  function SaveProfile(db: Db, collection: Collection, uid: string, record: string -> Doc, setNet: bool,
                       rollback: bool): (r: (Db, Enrolment))
    ensures !r.1.Enrolled? ==> r.0 == db
    ensures r.1.Enrolled? <==> uid != "" && setNet
    ensures r.1.NotAuthenticated? <==> uid == ""
  {
    if uid == "" then (db, NotAuthenticated)
    else
      var (db', ok) := SetDoc(db, Path(collection, uid), record(uid), setNet);
      if ok then (db', Enrolled(uid)) else (db', SaveFailed(rollback))
  }

  /**
   * A Google account already exists, so only the document is written, under the current user's
   * id (empty when there is none), and never rolled back; otherwise the account is created first,
   * and a failed document write deletes it again.
   */
  function Enrol(db: Db, collection: Collection, fromGoogle: bool, googleUid: Option<string>, creation: Creation,
                 record: string -> Doc, setNet: bool): (r: (Db, Enrolment))
    ensures !r.1.Enrolled? ==> r.0 == db
    ensures r.1.Enrolled? ==> r.1.uid != "" && r.0 == db[Path(collection, r.1.uid) := record(r.1.uid)]
    ensures r.1.SaveFailed? ==> r.1.rolledBack == !fromGoogle
    ensures r.1.CreationFailed? <==> !fromGoogle && creation.CreateFailed?
    ensures fromGoogle ==> r == SaveProfile(db, collection, googleUid.GetOr(""), record, setNet, false)
  {
    if fromGoogle then SaveProfile(db, collection, googleUid.GetOr(""), record, setNet, false)
    else
      match creation
      case CreateFailed => (db, CreationFailed)
      case Created(uid) => SaveProfile(db, collection, uid.GetOr(""), record, setNet, true)
  }

  /** A created account is never left without its document: either the document is stored or the account is deleted. */
  lemma NoAccountWithoutProfile(db: Db, collection: Collection, uid: string, record: string -> Doc, setNet: bool)
    requires uid != ""
    ensures var (db', e) := Enrol(db, collection, false, None, Created(Some(uid)), record, setNet);
      (e.Enrolled? && Path(collection, uid) in db' && db'[Path(collection, uid)] == record(uid))
      || e == SaveFailed(true)
  {
  }
}
