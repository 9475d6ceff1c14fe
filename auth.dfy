/** convex/auth.ts: the fields the password provider's `profile` puts on a user created at signup. */
module Auth {
  import opened Wrappers
  import opened Schema

  /** The signup parameters `profile` reads; role and tenant come from the client and may be missing. */
  datatype SignupParams = SignupParams(email: string, role: Option<string>, tenantId: Option<string>)

  /** JavaScript `(x as string) || fallback`: a missing or empty string gives the fallback. */
  function OrDefault(x: Option<string>, fallback: string): (r: string)
    ensures x.Some? && x.value != "" ==> r == x.value
    ensures x.None? || x.value == "" ==> r == fallback
  {
    if x.Some? && x.value != "" then x.value else fallback
  }

  /**
   * `profile`: the email copied, role defaulting to "member", tenant to "acme",
   * and no allowed sources. A role the client sends is kept as sent, "admin"
   * included.
   */
  function Profile(p: SignupParams): (u: User)
    ensures u.email == Some(p.email)
    ensures u.role != "" && u.tenantId != ""
    ensures u.role == (if p.role.Some? && p.role.value != "" then p.role.value else "member")
    ensures u.tenantId == (if p.tenantId.Some? && p.tenantId.value != "" then p.tenantId.value else "acme")
    ensures u.allowedSources == []
  {
    AclUser(Some(p.email), OrDefault(p.tenantId, "acme"), OrDefault(p.role, "member"), [])
  }
}
