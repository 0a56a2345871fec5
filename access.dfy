/** Who may log in, which department a user is scoped to, and which pages the
    navigation offers. */
module Access {
  import opened Wrappers

  // ------------------------------------------------------------- users

  /** A row of `dim_user`. `enabled` is the nullable `is_enabled` column. */
  datatype UserRow = UserRow(
    username: string,
    passwordHash: string,
    role: string,
    deptId: Option<string>,
    personId: Option<string>,
    enabled: Option<int>)

  /** What a successful login stores for the session. */
  datatype Session = Session(username: string, role: string, deptId: Option<string>, personId: Option<string>)

  /** Every username occurs at most once. The schema declares `username`
      the primary key, but the seeded table is rebuilt without one, so the
      lemmas below that need this say so in their requires. */
  predicate UniqueUsernames(users: seq<UserRow>) {
    forall i, j :: 0 <= i < j < |users| ==> users[i].username != users[j].username
  }

  /** The row `WHERE username = ? AND is_enabled = 1` yields: a NULL
      `is_enabled` never matches. */
  predicate IsEnabledRowOf(u: UserRow, username: string) {
    u.username == username && u.enabled == Some(1)
  }

  /** The first row of the query result. */
  function FirstEnabled(users: seq<UserRow>, username: string): (r: Option<UserRow>)
    ensures r.Some? ==> r.value in users && IsEnabledRowOf(r.value, username)
    ensures r.Some? ==> exists i ::
      0 <= i < |users| && users[i] == r.value && forall j :: 0 <= j < i ==> !IsEnabledRowOf(users[j], username)
    ensures r.None? <==> forall u | u in users :: !IsEnabledRowOf(u, username)
  {
    if users == [] then None
    else if IsEnabledRowOf(users[0], username) then Some(users[0])
    else FirstEnabled(users[1..], username)
  }

  /** With unique usernames the first enabled row is the user's own row. */
  lemma {:induction false} FirstEnabledIsTheRow(users: seq<UserRow>, username: string, i: nat)
    requires UniqueUsernames(users)
    requires i < |users| && IsEnabledRowOf(users[i], username)
    ensures FirstEnabled(users, username) == Some(users[i])
  {
    if i > 0 {
      assert users[0].username != users[i].username;
      assert UniqueUsernames(users[1..]) by {
        forall a, b | 0 <= a < b < |users| - 1
          ensures users[1..][a].username != users[1..][b].username
        {
          assert users[1..][a] == users[a + 1] && users[1..][b] == users[b + 1];
        }
      }
      FirstEnabledIsTheRow(users[1..], username, i - 1);
    }
  }

  /** `login`: the enabled row of the user must exist and its stored hash must
      equal `hash(password)`; the session then carries the row's fields.
      `hash` stands for sha256. */
  function Login(users: seq<UserRow>, username: string, password: string, hash: string -> string): (r: Option<Session>)
    ensures r.Some? ==> exists u | u in users ::
      && IsEnabledRowOf(u, username)
      && u.passwordHash == hash(password)
      && r.value == Session(u.username, u.role, u.deptId, u.personId)
  {
    match FirstEnabled(users, username)
    case None => None
    case Some(row) =>
      if row.passwordHash != hash(password) then None
      else Some(Session(row.username, row.role, row.deptId, row.personId))
  }

  /** For every table: login succeeds exactly when the user has an enabled
      row and the first such row's stored hash is the hash of the password. */
  lemma LoginDecision(users: seq<UserRow>, username: string, password: string, hash: string -> string)
    ensures Login(users, username, password, hash).Some? <==>
      FirstEnabled(users, username).Some? && FirstEnabled(users, username).value.passwordHash == hash(password)
    ensures Login(users, username, password, hash).Some? ==>
      Login(users, username, password, hash).value.role == FirstEnabled(users, username).value.role
      && Login(users, username, password, hash).value.deptId == FirstEnabled(users, username).value.deptId
  {
  }

  /** Without unique usernames a later enabled row is shadowed: its
      password is refused because only the first enabled row is checked. */
  lemma DuplicateUsernameShadowsLaterRow()
    ensures Login([UserRow("u", "h1", "Staff", None, None, Some(1)),
                   UserRow("u", "h2", "Admin", None, None, Some(1))],
                  "u", "pw", (p: string) => if p == "pw" then "h2" else "h0").None?
  {
    var users := [UserRow("u", "h1", "Staff", None, None, Some(1)),
                  UserRow("u", "h2", "Admin", None, None, Some(1))];
    assert FirstEnabled(users, "u") == Some(users[0]);
  }

  /** Against a table with unique usernames, login succeeds exactly when the user
      has an enabled row whose stored hash is the hash of the password. */
  lemma LoginSucceedsIff(users: seq<UserRow>, username: string, password: string, hash: string -> string)
    requires UniqueUsernames(users)
    ensures Login(users, username, password, hash).Some? <==>
      exists i :: 0 <= i < |users| && IsEnabledRowOf(users[i], username) && users[i].passwordHash == hash(password)
  {
    if i :| 0 <= i < |users| && IsEnabledRowOf(users[i], username) && users[i].passwordHash == hash(password) {
      FirstEnabledIsTheRow(users, username, i);
    }
    if Login(users, username, password, hash).Some? {
      var row := FirstEnabled(users, username).value;
      var i :| 0 <= i < |users| && users[i] == row;
      assert IsEnabledRowOf(users[i], username) && users[i].passwordHash == hash(password);
    }
  }

  /** A user whose rows are all disabled can never log in, whatever the
      password. */
  lemma DisabledUserCannotLogIn(users: seq<UserRow>, username: string, password: string, hash: string -> string)
    requires forall u | u in users :: u.username == username ==> u.enabled != Some(1)
    ensures Login(users, username, password, hash).None?
  {
    assert FirstEnabled(users, username).None?;
  }

  /** The password enters only through its hash: two passwords with the same
      hash are indistinguishable to the login. */
  lemma LoginSeesOnlyTheHash(users: seq<UserRow>, username: string, p1: string, p2: string, hash: string -> string)
    requires hash(p1) == hash(p2)
    ensures Login(users, username, p1, hash) == Login(users, username, p2, hash)
  {
  }

  // ------------------------------------------------------------- scope

  /** `get_user_dept_scope`: Admin and Executive see every department
      (`None`); every other role, or no role, is scoped to the session's
      `dept_id`, which may itself be missing. */
  function DeptScope(role: Option<string>, deptId: Option<string>): (scope: Option<string>)
    ensures role == Some("Admin") || role == Some("Executive") ==> scope.None?
    ensures scope.Some? ==> scope == deptId
    ensures role != Some("Admin") && role != Some("Executive") ==> scope == deptId
  {
    if role == Some("Admin") || role == Some("Executive") then None
    else deptId
  }

  /** After a successful login a user of any other role than Admin or
      Executive is scoped to the department of their own row. */
  lemma ScopeAfterLogin(users: seq<UserRow>, username: string, password: string, hash: string -> string, i: nat)
    requires UniqueUsernames(users)
    requires i < |users| && IsEnabledRowOf(users[i], username) && users[i].passwordHash == hash(password)
    requires users[i].role != "Admin" && users[i].role != "Executive"
    ensures Login(users, username, password, hash).Some?
    ensures var s := Login(users, username, password, hash).value;
      DeptScope(Some(s.role), s.deptId) == users[i].deptId
  {
    FirstEnabledIsTheRow(users, username, i);
  }

  /** A staff member without a department (the administration form offers
      `None`) gets the same unrestricted scope as an administrator. */
  lemma UnassignedStaffSeesAll()
    ensures DeptScope(Some("Staff"), None) == DeptScope(Some("Admin"), Some("MDS")) == None
  {
  }

  // -------------------------------------------------------- navigation

  datatype Page =
    | ExecutiveDashboard | MdsDashboard | SgsDashboard | BmsDashboard | ItDashboard
    | ReportGenerator | DataImport | Administration

  /** The roles for which the four department dashboards are listed. */
  predicate DashboardRole(role: string) {
    role == "Admin" || role == "Executive" || role == "DeptHead" || role == "Staff"
  }

  /** The navigation list: the executive dashboard, the four department
      dashboards for the known roles, the report generator and data import
      for everyone, and administration for Admin only. */
  function Pages(role: string): (pages: seq<Page>)
    ensures |pages| >= 3 && pages[0] == ExecutiveDashboard
    ensures ReportGenerator in pages && DataImport in pages
    ensures Administration in pages <==> role == "Admin"
    ensures MdsDashboard in pages <==> DashboardRole(role)
    ensures SgsDashboard in pages <==> DashboardRole(role)
    ensures BmsDashboard in pages <==> DashboardRole(role)
    ensures ItDashboard in pages <==> DashboardRole(role)
    ensures forall i, j :: 0 <= i < j < |pages| ==> pages[i] != pages[j]
  {
    var dashboards := if DashboardRole(role) then [MdsDashboard, SgsDashboard, BmsDashboard, ItDashboard] else [];
    var admin := if role == "Admin" then [Administration] else [];
    [ExecutiveDashboard] + dashboards + [ReportGenerator, DataImport] + admin
  }

  /** What the main area shows for the selected page. */
  datatype View = Render(page: Page) | AccessDenied

  /** The main-area dispatch: every page renders, except that administration
      checks the role again and denies anyone but Admin. */
  function Route(role: string, page: Page): (v: View)
    ensures v == AccessDenied <==> page == Administration && role != "Admin"
    ensures v.Render? ==> v.page == page
  {
    if page == Administration && role != "Admin" then AccessDenied
    else Render(page)
  }

  /** The menu and the gate agree: a page the menu offers is never denied,
      and administration is offered exactly to those the gate admits. */
  lemma MenuAndGateAgree(role: string, page: Page)
    ensures page in Pages(role) ==> Route(role, page) == Render(page)
    ensures Administration in Pages(role) <==> Route(role, Administration) == Render(Administration)
  {
  }
}
