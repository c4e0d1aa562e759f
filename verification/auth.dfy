/** The signed-in session the auth provider hands to every protected endpoint. */
module Auth {
  import opened Js

  /** The session's user; every field may be missing. */
  datatype SessionUser = SessionUser(email: Option<string>, id: Option<string>, name: Option<string>)

  /** `session?.user?.email` is truthy.  A missing session or user is `None`. */
  predicate Authenticated(session: Option<SessionUser>) {
    session.Some? && Truthy(session.value.email)
  }
}
