/** The signed-in account as every screen reads it: the user id and the optional profile fields. */
module Auth {
  import opened Wrappers

  datatype User = User(uid: string, displayName: Option<string>, email: Option<string>)

  /** The account currently signed in, if any. */
  type Session = Option<User>
}
