/**
 * The login form: a role must be chosen, then email and password must be present, then a
 * hard-coded super-admin triple is accepted outright, and otherwise the first stored user whose
 * email, password and role all equal the inputs is logged in. The `verified` flag is not read.
 */
module LoginPage {
  import opened Optional
  import opened Collections
  import opened Entities

  const SuperAdminEmail := "admin@tms.com"
  const SuperAdminPassword := "password123"

  /** The record handed to `onLogin` for the super-admin triple (no password, no verified flag). */
  const SuperAdmin := User("superadmin", "Super Admin", SuperAdminEmail, None, AdminRole, None)

  datatype LoginResult =
    | RoleRequired                  // "Role Required" toast
    | CredentialsRequired           // "Credentials Required" toast
    | LoggedIn(user: User)          // `onLogin(user)`
    | LoginFailed                   // "Login Failed" toast

  /** The `users.find` test: exact email, password and role. */
  function MatchesCredentials(email: string, password: string, role: string): User -> bool {
    (u: User) => u.email == email && u.password == Some(password) && u.role == role
  }

  predicate IsSuperAdminTriple(email: string, password: string, role: string) {
    email == SuperAdminEmail && password == SuperAdminPassword && role == AdminRole
  }

  /** `handleLogin`, given the stored user list. */
  function HandleLogin(role: string, email: string, password: string, users: seq<User>): (r: LoginResult)
    ensures role == "" ==> r == RoleRequired
    ensures role != "" && (email == "" || password == "") ==> r == CredentialsRequired
    ensures role != "" && IsSuperAdminTriple(email, password, role) ==> r == LoggedIn(SuperAdmin)
    ensures role != "" && email != "" && password != "" && !IsSuperAdminTriple(email, password, role) ==>
              && (r.LoggedIn? ==> exists i :: FirstAt(users, MatchesCredentials(email, password, role), i)
                                               && r.user == users[i])
              && (r == LoginFailed <==>
                    forall i | 0 <= i < |users| :: !MatchesCredentials(email, password, role)(users[i]))
              && (r.LoggedIn? || r == LoginFailed)
  {
    if role == "" then RoleRequired
    else if email == "" || password == "" then CredentialsRequired
    else if IsSuperAdminTriple(email, password, role) then LoggedIn(SuperAdmin)
    else match Find(users, MatchesCredentials(email, password, role))
      case Some(u) => LoggedIn(u)
      case None => LoginFailed
  }

  /** The super-admin triple succeeds whatever the stored list holds. */
  lemma SuperAdminAlwaysLogsIn(users: seq<User>)
    ensures HandleLogin(AdminRole, SuperAdminEmail, SuperAdminPassword, users) == LoggedIn(SuperAdmin)
  {
  }

  /** Two lists that differ only in `verified` flags. */
  ghost predicate SameButVerified(a: seq<User>, b: seq<User>) {
    |a| == |b| && forall i | 0 <= i < |a| :: a[i].(verified := b[i].verified) == b[i]
  }

  lemma {:induction false} FindIndexIgnoresVerified(a: seq<User>, b: seq<User>, p: User -> bool)
    requires SameButVerified(a, b)
    requires forall i | 0 <= i < |a| :: p(a[i]) == p(b[i])
    ensures FindIndex(a, p) == FindIndex(b, p)
    decreases |a|
  {
    if |a| > 0 {
      FindIndexIgnoresVerified(a[1..], b[1..], p);
    }
  }

  /**
   * Login never consults `verified`: changing any users' flags changes neither whether login
   * succeeds nor (apart from the flag itself) which record is logged in.
   */
  lemma LoginIgnoresVerified(role: string, email: string, password: string, a: seq<User>, b: seq<User>)
    requires SameButVerified(a, b)
    ensures HandleLogin(role, email, password, a).LoggedIn? <==> HandleLogin(role, email, password, b).LoggedIn?
    ensures HandleLogin(role, email, password, a).LoggedIn? ==>
              HandleLogin(role, email, password, a).user.(verified := HandleLogin(role, email, password, b).user.verified)
              == HandleLogin(role, email, password, b).user
  {
    var p := MatchesCredentials(email, password, role);
    forall i | 0 <= i < |a| ensures p(a[i]) == p(b[i]) {
      assert a[i].(verified := b[i].verified) == b[i];
    }
    FindIndexIgnoresVerified(a, b, p);
  }
}
