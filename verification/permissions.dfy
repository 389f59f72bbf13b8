/** Users and their roles on the server, and the four role-based permission checks. */
module Permissions {
  import opened Wrappers

  /** The three declared roles. */
  datatype Role = JobSeeker | Recruiter | Admin

  function RoleCode(r: Role): string {
    match r
    case JobSeeker => "job_seeker"
    case Recruiter => "recruiter"
    case Admin => "admin"
  }

  /** The requesting user: anonymous, or an account whose `role` column holds a string
      (one of the declared codes whenever the row was written through a validated form). */
  datatype User =
    | Anonymous
    | Account(id: int, username: string, email: string, role: string, passwordHash: string, isEmailVerified: bool)

  /** `request.user.role == code`: the user object is always truthy, and reading `role`
      from the anonymous user raises AttributeError (none here). */
  function HasRole(user: User, code: string): (r: Option<bool>)
    ensures r.None? <==> user.Anonymous?
    ensures r == Some(true) <==> user.Account? && user.role == code
  {
    match user
    case Anonymous => None
    case Account(_, _, _, role, _, _) => Some(role == code)
  }

  /** `IsJobSeeker.has_permission`. */
  function IsJobSeeker(user: User): Option<bool> {
    HasRole(user, "job_seeker")
  }

  /** `IsRecruiter.has_permission`. */
  function IsRecruiter(user: User): Option<bool> {
    HasRole(user, "recruiter")
  }

  /** `IsAdmin.has_permission`. */
  function IsAdmin(user: User): Option<bool> {
    HasRole(user, "admin")
  }

  /** `IsAdminOrRecruiter.has_permission`: the role is `admin` or `recruiter`. */
  function IsAdminOrRecruiter(user: User): (r: Option<bool>)
    ensures r.None? <==> user.Anonymous?
    ensures r == Some(true) <==> user.Account? && user.role in {"admin", "recruiter"}
  {
    match user
    case Anonymous => None
    case Account(_, _, _, role, _, _) => Some(role in ["admin", "recruiter"])
  }

  /** The combined check grants exactly what one of the two single checks grants, and
      fails the same way for the anonymous user. */
  lemma AdminOrRecruiterIsUnion(user: User)
    ensures IsAdminOrRecruiter(user) == Some(true) <==> IsAdmin(user) == Some(true) || IsRecruiter(user) == Some(true)
    ensures IsAdminOrRecruiter(user).None? <==> IsAdmin(user).None? && IsRecruiter(user).None?
  {
  }

  /** Over the declared roles the job-seeker check and the combined check are
      complementary: every account passes exactly one of them. */
  lemma SeekerComplementsStaff(id: int, username: string, email: string, r: Role, hash: string, verified: bool)
    ensures var u := Account(id, username, email, RoleCode(r), hash, verified);
      IsJobSeeker(u) == Some(true) <==> IsAdminOrRecruiter(u) == Some(false)
  {
  }

  /** An account whose role is not one of the declared codes passes neither check. */
  lemma UndeclaredRolePassesNeither(u: User)
    requires u.Account? && u.role !in {"job_seeker", "recruiter", "admin"}
    ensures IsJobSeeker(u) == Some(false) && IsAdminOrRecruiter(u) == Some(false)
  {
  }
}
