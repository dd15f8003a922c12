/** The browser session: the two local-storage entries `userRole` and
    `userEmail`, held here as an explicit value. Login writes both; logout
    removes both. */
module Session {
  import opened Optional

  datatype Role = Admin | User

  /** The stored role and email; `None` is an absent key. */
  datatype Session = Session(role: Option<Role>, email: Option<string>)

  /** Neither key present: nobody has logged in, or the last action was a
      logout. */
  const SignedOut: Session := Session(None, None)

  /** The text stored under `userRole`. */
  function RoleName(role: Role): string {
    match role
    case Admin => "admin"
    case User => "user"
  }
}
