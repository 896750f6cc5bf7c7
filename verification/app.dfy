/**
 * The application shell: seeding the admin account at start-up, appending signed-up users,
 * mirroring the session record to storage, and choosing a dashboard from the session's role.
 */
module App {
  import opened Optional
  import opened Collections
  import opened Text
  import opened Entities
  import opened Storage
  import LoginPage
  import SignUpPage

  const AdminEmail := "admin@tms.com"

  /** The account seeded when no stored user has the admin email. */
  const AdminSeed := User("admin-001", "Super Admin", AdminEmail, Some("password123"), AdminRole, Some(true))

  predicate HasAdminEmail(u: User) {
    u.email == AdminEmail
  }

  /** The users part of the start-up effect: append the admin seed unless its email is taken. */
  function SeedAdmin(st: Store): (r: Store)
    ensures (exists i | 0 <= i < |LoadUsers(st)| :: HasAdminEmail(LoadUsers(st)[i])) ==> r == st
    ensures (forall i | 0 <= i < |LoadUsers(st)| :: !HasAdminEmail(LoadUsers(st)[i])) ==>
              && LoadUsers(r) == LoadUsers(st) + [AdminSeed]
              && forall k | k != UsersKey :: Get(r, k) == Get(st, k)
  {
    var users := LoadUsers(st);
    if Find(users, HasAdminEmail).None? then SaveUsers(st, users + [AdminSeed]) else st
  }

  datatype Boot = Boot(session: Option<User>, store: Store)

  /** The mount effect: restore a stored session, or seed the admin account when there is none. */
  function Start(st: Store): (r: Boot)
    ensures LoadSession(st).Some? ==> r == Boot(LoadSession(st), st)
    ensures LoadSession(st).None? ==> r.session == None && r.store == SeedAdmin(st)
  {
    match LoadSession(st)
    case Some(u) => Boot(Some(u), st)
    case None => Boot(None, SeedAdmin(st))
  }

  /** After seeding, the stored list holds a user with the admin email. */
  lemma SeededHasAdmin(st: Store)
    ensures exists i | 0 <= i < |LoadUsers(SeedAdmin(st))| :: HasAdminEmail(LoadUsers(SeedAdmin(st))[i])
  {
    var users := LoadUsers(st);
    if forall i | 0 <= i < |users| :: !HasAdminEmail(users[i]) {
      assert LoadUsers(SeedAdmin(st))[|users|] == AdminSeed;
    } else {
      var i :| 0 <= i < |users| && HasAdminEmail(users[i]);
      assert SeedAdmin(st) == st;
      assert HasAdminEmail(LoadUsers(SeedAdmin(st))[i]);
    }
  }

  /** Seeding twice adds nothing the first run did not. */
  lemma SeedIdempotent(st: Store)
    ensures SeedAdmin(SeedAdmin(st)) == SeedAdmin(st)
  {
    SeededHasAdmin(st);
  }

  /** Starting the application again on the store it left behind changes nothing. */
  lemma StartIdempotent(st: Store)
    ensures Start(Start(st).store) == Start(st)
  {
    if LoadSession(st).None? {
      SeedIdempotent(st);
      assert LoadSession(SeedAdmin(st)) == LoadSession(st);
    }
  }

  /**
   * `handleSignUp`: append the submitted record with a fresh id (replacing the one it came with)
   * and `verified` false exactly for non-customers; existing records are kept in order.
   */
  function SignUp(st: Store, data: User, now: nat): (r: Store)
    ensures |LoadUsers(r)| == |LoadUsers(st)| + 1
    ensures LoadUsers(r)[..|LoadUsers(st)|] == LoadUsers(st)
    ensures var u := LoadUsers(r)[|LoadUsers(st)|];
              && u.name == data.name && u.email == data.email
              && u.password == data.password && u.role == data.role
              && u.id == NewUserId(now)
              && (u.verified == Some(false) <==> data.role != CustomerRole)
              && u.verified.Some?
    ensures forall k | k != UsersKey :: Get(r, k) == Get(st, k)
  {
    var users := LoadUsers(st);
    SaveUsers(st, users + [data.(id := NewUserId(now), verified := Some(if data.role != CustomerRole then false else true))])
  }

  datatype Session = Session(user: Option<User>, store: Store)

  /** `handleLogin`: the session becomes exactly the given record, in memory and in storage. */
  function Login(st: Store, u: User): (r: Session)
    ensures r.user == Some(u) && LoadSession(r.store) == Some(u)
    ensures forall k | k != SessionKey :: Get(r.store, k) == Get(st, k)
  {
    Session(Some(u), Put(st, SessionKey, SessionBlob(u)))
  }

  /** `handleLogout`: no session in memory or in storage. */
  function Logout(st: Store): (r: Session)
    ensures r.user == None && Get(r.store, SessionKey) == None
    ensures forall k | k != SessionKey :: Get(r.store, k) == Get(st, k)
  {
    Session(None, Remove(st, SessionKey))
  }

  /** A reload after logging in restores exactly that session and leaves the store as it was. */
  lemma LoginThenStart(st: Store, u: User)
    ensures Start(Login(st, u).store) == Boot(Some(u), Login(st, u).store)
  {
  }

  /** After logging out, the next start-up finds no session. */
  lemma LogoutThenStart(st: Store)
    ensures Start(Logout(st).store).session == None
  {
  }

  datatype Screen = LoginScreen | AdminDashboard | OwnerDashboard | DriverDashboard | CustomerDashboard | VendorDashboard

  const Roles: set<string> := {AdminRole, OwnerRole, DriverRole, CustomerRole, VendorRole}

  /** The role each dashboard serves. */
  function DashboardRole(s: Screen): string
    requires s != LoginScreen
  {
    match s
    case AdminDashboard => AdminRole
    case OwnerDashboard => OwnerRole
    case DriverDashboard => DriverRole
    case CustomerDashboard => CustomerRole
    case VendorDashboard => VendorRole
  }

  /** `renderDashboard`: redirect to login without a session or with an unknown role. */
  function RenderDashboard(session: Option<User>): (r: Screen)
    ensures r == LoginScreen <==> session.None? || session.value.role !in Roles
    ensures r != LoginScreen ==> DashboardRole(r) == session.value.role
  {
    if session.None? then LoginScreen
    else match session.value.role
      case "admin" => AdminDashboard
      case "owner" => OwnerDashboard
      case "driver" => DriverDashboard
      case "customer" => CustomerDashboard
      case "vendor" => VendorDashboard
      case _ => LoginScreen
  }

  /**
   * A fresh sign-up can log in at once with the same credentials, unverified or not, provided no
   * earlier record matches them and they are not the super-admin triple; the session then shows
   * the dashboard of the chosen role.
   */
  lemma SignUpThenLogin(st: Store, form: SignUpPage.SignUpForm, randomId: string, now: nat)
    requires SignUpPage.HandleSubmit(form, randomId).SignUp?
    requires !LoginPage.IsSuperAdminTriple(form.email, form.password, form.role)
    requires forall i | 0 <= i < |LoadUsers(st)| ::
               !LoginPage.MatchesCredentials(form.email, form.password, form.role)(LoadUsers(st)[i])
    ensures var st' := SignUp(st, SignUpPage.HandleSubmit(form, randomId).user, now);
            var u := LoadUsers(st')[|LoadUsers(st)|];
            && LoginPage.HandleLogin(form.role, form.email, form.password, LoadUsers(st')) == LoginPage.LoggedIn(u)
            && u.verified == Some(form.role == CustomerRole)
            && (form.role in Roles ==> DashboardRole(RenderDashboard(Login(st', u).user)) == form.role)
  {
    var st' := SignUp(st, SignUpPage.HandleSubmit(form, randomId).user, now);
    var users := LoadUsers(st');
    var n := |LoadUsers(st)|;
    var p := LoginPage.MatchesCredentials(form.email, form.password, form.role);
    assert p(users[n]);
    forall j | 0 <= j < n ensures !p(users[j]) {
      assert users[j] == users[..n][j];
    }
    assert FirstAt(users, p, n);
    var r := LoginPage.HandleLogin(form.role, form.email, form.password, users);
    assert r.LoggedIn?;
    var i :| FirstAt(users, p, i) && r.user == users[i];
    assert i == n;
  }
}
