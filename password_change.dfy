/**
 * The change-password dialog both profile screens offer: checks on the untrimmed texts in the
 * order empty, mismatch, too short; then re-authentication with the current password, and only
 * after it succeeds the password update. Both service calls are parameters.
 */
module PasswordChange {
  import opened Wrappers
  import AccountChecks

  datatype ChangeOutcome =
    | MissingPasswordFields
    | PasswordsDiffer
    | PasswordTooShort
    | NoEmail
    | WrongCurrentPassword
    | UpdateFailed
    | PasswordUpdated

  /** The outcomes in which the new password was sent to the authentication service. */
  predicate Sent(r: ChangeOutcome) {
    r.UpdateFailed? || r.PasswordUpdated?
  }

  /** The three texts pass the dialog's checks. */
  predicate Acceptable(currentPassword: string, newPassword: string, confirmPassword: string) {
    currentPassword != [] && newPassword == confirmPassword && |newPassword| >= 6
  }

  function ChangePassword(currentPassword: string, newPassword: string, confirmPassword: string, email: Option<string>,
                          reauthenticate: (string, string) -> bool, updatePassword: string -> bool): (r: ChangeOutcome)
    ensures r == MissingPasswordFields <==> currentPassword == [] || newPassword == [] || confirmPassword == []
    ensures r == PasswordsDiffer <==> currentPassword != [] && newPassword != [] && confirmPassword != []
                                      && newPassword != confirmPassword
    ensures r == PasswordTooShort <==> currentPassword != [] && newPassword != [] && newPassword == confirmPassword
                                       && |newPassword| < 6
    ensures Sent(r) <==> Acceptable(currentPassword, newPassword, confirmPassword)
                         && email.Some? && reauthenticate(email.value, currentPassword)
    ensures r == PasswordUpdated <==> Sent(r) && updatePassword(newPassword)
    ensures r == NoEmail <==> Acceptable(currentPassword, newPassword, confirmPassword) && email.None?
  {
    if currentPassword == [] || newPassword == [] || confirmPassword == [] then MissingPasswordFields
    else if newPassword != confirmPassword then PasswordsDiffer
    else if |newPassword| < 6 then PasswordTooShort
    else match email
      case None => NoEmail
      case Some(e) =>
        if !reauthenticate(e, currentPassword) then WrongCurrentPassword
        else if updatePassword(newPassword) then PasswordUpdated
        else UpdateFailed
  }

  /**
   * The dialog checks mismatch before length, where registration checks length before mismatch:
   * the same short, differing pair gets a different complaint on the two screens.
   */
  lemma CheckOrderDiffersFromRegistration(reauthenticate: (string, string) -> bool, updatePassword: string -> bool)
    ensures ChangePassword("secret", "abc", "abd", None, reauthenticate, updatePassword) == PasswordsDiffer
    ensures AccountChecks.RegistrationPasswordCheck("abc", "abd") == Some(AccountChecks.ShortPassword)
  {
  }

  /** Both orders accept the same new passwords: only the reported error can differ. */
  lemma SameAcceptedPasswords(currentPassword: string, newPassword: string, confirmPassword: string)
    requires currentPassword != []
    ensures Acceptable(currentPassword, newPassword, confirmPassword)
        <==> AccountChecks.RegistrationPasswordCheck(newPassword, confirmPassword).None?
  {
  }
}
