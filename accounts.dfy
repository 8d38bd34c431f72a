/** The user model of accounts/models.py: a role chosen from two declared values and an optional company. */
module Accounts {
  import opened Wrappers

  type UserId = nat
  type CompanyId = nat

  /** The declared role choices. */
  datatype Role = Seeker | Employer

  /** The role a user gets when none is given. */
  const DefaultRole: Role := Seeker

  /** The value stored in the `role` column for each choice. */
  function RoleName(r: Role): string {
    match r
    case Seeker => "seeker"
    case Employer => "employer"
  }

  /** Reads a stored `role` value back; only the two declared values are roles. */
  function ParseRole(s: string): (r: Option<Role>)
    ensures r.Some? <==> s == "seeker" || s == "employer"
    ensures r.Some? ==> RoleName(r.value) == s
  {
    if s == "seeker" then Some(Seeker)
    else if s == "employer" then Some(Employer)
    else None
  }

  /** Every role is stored under a name that reads back as that role, and no two roles share a name. */
  lemma RoleNameRoundTrip(r: Role)
    ensures ParseRole(RoleName(r)) == Some(r)
  {
  }

  datatype User = User(role: Role, company: Option<CompanyId>)

  /** A new user: the role falls back to the default, the company may be absent. */
  function NewUser(role: Option<Role>, company: Option<CompanyId>): (u: User)
    ensures role.None? ==> u.role == Seeker
    ensures role.Some? ==> u.role == role.value
    ensures u.company == company
  {
    User(role.GetOr(DefaultRole), company)
  }

  /**
   * The effect of deleting company `c` on the users: the reference is set to
   * null (on_delete=SET_NULL); no user is deleted and nothing else changes.
   */
  function DetachCompany(users: map<UserId, User>, c: CompanyId): (r: map<UserId, User>)
    ensures r.Keys == users.Keys
    ensures forall u :: u in r ==> r[u].role == users[u].role
    ensures forall u :: u in r ==> r[u].company != Some(c)
    ensures forall u :: u in r && users[u].company == Some(c) ==> r[u].company.None?
    ensures forall u :: u in r && users[u].company != Some(c) ==> r[u] == users[u]
  {
    map u | u in users :: if users[u].company == Some(c) then users[u].(company := None) else users[u]
  }
}
