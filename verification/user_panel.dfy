/**
 * The dashboard side panel (`UserPanel`): the dashboard a role is sent to,
 * the tabs each role may open, the active tab and logout.
 */
module UserPanel {
  import opened Wrappers
  import opened Text
  import AuthService

  const AdminTabs: seq<string> := ["overview", "orders", "customers", "analytics", "products", "settings"]
  const UserTabs: seq<string> := ["overview", "orders", "settings"]

  const AdminDashboard := "admin-dashboard"
  const UserDashboard := "user-dashboard"

  /** The panel's fields; `isLoggedIn` is never set to true by the panel itself. */
  datatype Panel = Panel(
    activeTab: string,
    isLoggedIn: bool,
    userInfo: Option<AuthService.UserInfo>,
    userRole: string,
    dashboardPrefix: string)

  const Initial: Panel := Panel("overview", false, None, "", UserDashboard)

  /** The dashboard for a role: the admin one whenever the lowered role contains `admin` anywhere. */
  function DashboardPrefix(role: string): (r: string)
    ensures r == AdminDashboard <==> Contains(Lower(role), "admin")
    ensures r == UserDashboard <==> !Contains(Lower(role), "admin")
  {
    if Contains(Lower(role), "admin") then AdminDashboard else UserDashboard
  }

  /** `ngOnInit()`: the role from the session, or `''` when there is none. */
  function Init(st: Panel, info: Option<AuthService.UserInfo>): (r: Panel)
    ensures r.userInfo == info
    ensures r.userRole == if info.Some? then info.value.role else ""
    ensures r.dashboardPrefix == DashboardPrefix(r.userRole)
    ensures r.activeTab == st.activeTab && r.isLoggedIn == st.isLoggedIn
  {
    var role := if info.Some? then info.value.role else "";
    st.(userInfo := info, userRole := role, dashboardPrefix := DashboardPrefix(role))
  }

  /** The permission table, looked up by the lowered role. */
  function Permissions(role: string): (r: seq<string>)
    ensures Lower(role) == "admin" ==> r == AdminTabs
    ensures Lower(role) == "user" ==> r == UserTabs
    ensures Lower(role) != "admin" && Lower(role) != "user" ==> r == []
  {
    var key := Lower(role);
    if key == "admin" then AdminTabs else if key == "user" then UserTabs else []
  }

  /** `hasAccess(tab)`: only the two known roles open anything, and nothing beyond the admin tabs. */
  function HasAccess(role: string, tab: string): (r: bool)
    ensures r ==> Lower(role) == "admin" || Lower(role) == "user"
    ensures r ==> tab in AdminTabs
    ensures Lower(role) == "admin" ==> (r <==> tab in AdminTabs)
  {
    tab in Permissions(role)
  }

  /** The whole table: six tabs for admins, three for users, none for any other role, whatever its case. */
  lemma AccessTable(role: string, tab: string)
    ensures Lower(role) == "admin" ==> (HasAccess(role, tab) <==> tab in AdminTabs)
    ensures Lower(role) == "user" ==> (HasAccess(role, tab) <==> tab in UserTabs)
    ensures Lower(role) != "admin" && Lower(role) != "user" ==> !HasAccess(role, tab)
    ensures HasAccess(role, tab) == HasAccess(Lower(role), tab)
  {
    LowerIdempotent(role);
  }

  /** Whatever a user may open, an admin may open too. */
  lemma UserTabsAreAdminTabs(tab: string)
    ensures HasAccess("user", tab) ==> HasAccess("admin", tab)
    ensures HasAccess("admin", "customers") && !HasAccess("user", "customers")
  {
    assert Lower("user") == "user";
    assert Lower("admin") == "admin";
  }

  /** Without user info the role is `''`, so no tab opens and the user dashboard is chosen. */
  lemma NoSessionNoAccess(st: Panel, tab: string)
    ensures !HasAccess(Init(st, None).userRole, tab)
    ensures Init(st, None).dashboardPrefix == UserDashboard
  {
    assert Lower("") == "";
    assert !Contains("", "admin");
  }

  /** `setActiveTab(tab)`: only a permitted tab becomes active. */
  function SetActiveTab(st: Panel, tab: string): (r: Panel)
    ensures HasAccess(st.userRole, tab) ==> r == st.(activeTab := tab)
    ensures !HasAccess(st.userRole, tab) ==> r == st
  {
    if HasAccess(st.userRole, tab) then st.(activeTab := tab) else st
  }

  /** Whatever sequence of tab requests, the active tab is the initial one or a permitted one. */
  lemma {:induction false} ActiveTabStaysPermitted(st: Panel, tabs: seq<string>)
    requires st.activeTab == "overview" || HasAccess(st.userRole, st.activeTab)
    ensures var r := SetTabs(st, tabs);
      (r.activeTab == "overview" || HasAccess(r.userRole, r.activeTab)) && r.userRole == st.userRole
    decreases |tabs|
  {
    if |tabs| > 0 {
      ActiveTabStaysPermitted(SetActiveTab(st, tabs[0]), tabs[1..]);
    }
  }

  function SetTabs(st: Panel, tabs: seq<string>): Panel
    decreases |tabs|
  {
    if |tabs| == 0 then st else SetTabs(SetActiveTab(st, tabs[0]), tabs[1..])
  }

  /** Where `logout()` navigates: the storefront's root route. */
  const HomeRoute := "/"

  /**
   * `logout()`: the token is removed, the panel forgets the user and the
   * router is sent to the root route; the role it read stays as it was.
   */
  function Logout(st: Panel, store: AuthService.TokenStore): (r: (Panel, AuthService.TokenStore, string))
    ensures r.1.None?
    ensures r.0 == st.(isLoggedIn := false, userInfo := None)
    ensures r.2 == HomeRoute
  {
    (st.(isLoggedIn := false, userInfo := None), AuthService.Logout(store), HomeRoute)
  }

  /** After logout the session has neither a login nor user info, and the panel agrees. */
  lemma LogoutEndsSession(st: Panel, store: AuthService.TokenStore, decode: AuthService.Decoder, nowMs: int)
    ensures var (panel, stored, route) := Logout(st, store);
      && !panel.isLoggedIn && panel.userInfo.None? && route == HomeRoute
      && !AuthService.IsLoggedIn(stored, decode, nowMs) && AuthService.GetUserInfo(stored, decode).None?
  {
    AuthService.LogoutEndsSession(store, decode, nowMs);
  }
}
