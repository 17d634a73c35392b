/** The two stored records the registration creates: the user account and its profile. */
module Accounts {
  import opened Wrappers

  /** The two choices of the `position` field. */
  datatype Position = Coordinator | Instructor

  /** The value the form submits and stores for a position. */
  function PositionValue(p: Position): string
  {
    match p
    case Coordinator => "coordinator"
    case Instructor => "instructor"
  }

  /** The choice field's check: only the two declared values are accepted. */
  function ParsePosition(s: string): (r: Option<Position>)
    ensures r.Some? <==> s == "coordinator" || s == "instructor"
    ensures r.Some? ==> PositionValue(r.value) == s
  {
    if s == "coordinator" then Some(Coordinator)
    else if s == "instructor" then Some(Instructor)
    else None
  }

  lemma PositionRoundTrip(p: Position)
    ensures ParsePosition(PositionValue(p)) == Some(p)
  {
  }

  /**
   * What `create_user` stores in place of the password: a one-way hash. The
   * hashing scheme is not modelled; the value only records which password
   * it was derived from.
   */
  datatype Credential = HashOf(password: string)

  datatype Account = Account(
    username: string,
    email: string,
    credential: Credential,
    firstName: string,
    lastName: string)

  /** The profile attached one-to-one to the account named `owner`. */
  datatype Profile = Profile(
    owner: string,
    institute: string,
    department: string,
    position: Position,
    phoneNumber: string,
    activationKey: string,
    keyExpiryTime: int)
}
