/**
 * The application shell of frontend/src/App.js: which navigation entries a
 * role sees, which page a page id renders, the icon lookup with its
 * fallback, and the session state that decides between the login screen
 * and the application.
 */
module App {
  import opened Wrappers
  import opened Seqs
  import opened Users
  import AssignmentsExpenditures

  datatype NavItem = NavItem(id: string, name: string, icon: string, roles: seq<string>)

  /** `allItems` of `getNavItems`, in display order. */
  const AllNavItems: seq<NavItem> := [
    NavItem("dashboard", "Command Center", "chart", [Admin, BaseCommander, LogisticsOfficer]),
    NavItem("purchases", "Arsenal Procurement", "shopping", [Admin, BaseCommander, LogisticsOfficer]),
    NavItem("transfers", "Asset Deployment", "truck", [Admin, BaseCommander, LogisticsOfficer]),
    NavItem("assignments", "Unit Assignments", "users", [Admin, BaseCommander])
  ]

  predicate ShownTo(role: string, item: NavItem) {
    role in item.roles
  }

  function Grants(role: string): NavItem -> bool {
    item => ShownTo(role, item)
  }

  /** `getNavItems()` for a user with role `role`: entries of the full bar
      that list the role, and no more of them than the bar has. */
  function NavItems(role: string): (items: seq<NavItem>)
    ensures |items| <= |AllNavItems|
    ensures forall item :: item in items ==> item in AllNavItems && role in item.roles
  {
    FilterSpec(Grants(role), AllNavItems);
    Filter(Grants(role), AllNavItems)
  }

  function Ids(items: seq<NavItem>): (ids: seq<string>)
    ensures |ids| == |items|
    ensures forall i :: 0 <= i < |items| ==> ids[i] == items[i].id
  {
    if items == [] then [] else [items[0].id] + Ids(items[1..])
  }

  /** The entry as a one-element list when the role may see it. */
  function KeptFor(role: string, item: NavItem): seq<NavItem> {
    if ShownTo(role, item) then [item] else []
  }

  /** The filter over the four entries, one entry at a time. */
  lemma {:induction false} NavItemsUnfold(role: string)
    ensures var s := AllNavItems;
      NavItems(role) == KeptFor(role, s[0]) + KeptFor(role, s[1]) + KeptFor(role, s[2]) + KeptFor(role, s[3])
  {
    var s, p := AllNavItems, Grants(role);
    assert s == [s[0]] + [s[1]] + [s[2]] + [s[3]];
    FilterAppend(p, [s[0]] + [s[1]] + [s[2]], [s[3]]);
    FilterAppend(p, [s[0]] + [s[1]], [s[2]]);
    FilterAppend(p, [s[0]], [s[1]]);
    FilterSingleton(p, s[0]);
    FilterSingleton(p, s[1]);
    FilterSingleton(p, s[2]);
    FilterSingleton(p, s[3]);
  }

  /** The navigation bar by role: the full bar for admin and base
      commander, everything but assignments for a logistics officer, and
      nothing for any other role. */
  lemma NavItemsByRole(role: string)
    ensures role == Admin || role == BaseCommander ==>
      Ids(NavItems(role)) == ["dashboard", "purchases", "transfers", "assignments"]
    ensures role == LogisticsOfficer ==>
      Ids(NavItems(role)) == ["dashboard", "purchases", "transfers"]
    ensures role != Admin && role != BaseCommander && role != LogisticsOfficer ==>
      NavItems(role) == []
  {
    NavItemsUnfold(role);
  }

  /** The bar is the list of entries granted to the role, in order. */
  lemma NavItemsKeepOrder(role: string)
    ensures IsSubsequence(NavItems(role), AllNavItems)
    ensures forall item :: item in NavItems(role) <==> item in AllNavItems && role in item.roles
  {
    FilterSpec(Grants(role), AllNavItems);
  }

  /** Only admin and base commander get an entry for the assignments page. */
  lemma AssignmentsEntryOnlyForCommand(role: string)
    ensures "assignments" in Ids(NavItems(role)) <==> role == Admin || role == BaseCommander
  {
    NavItemsByRole(role);
  }

  /** A role sees a navigation bar exactly when the assignments page lets
      it manage assignments. */
  lemma NavigationMatchesManageRights(role: string)
    ensures NavItems(role) != [] <==> AssignmentsExpenditures.CanManageAssignments(role)
  {
    NavItemsByRole(role);
  }

  /** The assignments page lets a logistics officer manage assignments, but
      the bar never offers that role the page. */
  lemma ManageRightsWiderThanNavigation(role: string)
    ensures "assignments" in Ids(NavItems(role)) ==> AssignmentsExpenditures.CanManageAssignments(role)
    ensures AssignmentsExpenditures.CanManageAssignments(LogisticsOfficer)
      && "assignments" !in Ids(NavItems(LogisticsOfficer))
  {
    AssignmentsEntryOnlyForCommand(role);
    AssignmentsEntryOnlyForCommand(LogisticsOfficer);
  }

  // ---------------------------------------------------------------------
  // renderCurrentPage

  datatype Page = DashboardPage | PurchasesPage | TransfersPage | AssignmentsPage

  /** The page id that selects each page. */
  function PageId(p: Page): string {
    match p
    case DashboardPage => "dashboard"
    case PurchasesPage => "purchases"
    case TransfersPage => "transfers"
    case AssignmentsPage => "assignments"
  }

  /** `renderCurrentPage()`: the switch on the page id, with the dashboard
      as the default case; any other page is the one the id names. */
  function RenderedPage(currentPage: string): (p: Page)
    ensures p == DashboardPage || PageId(p) == currentPage
  {
    match currentPage
    case "dashboard" => DashboardPage
    case "purchases" => PurchasesPage
    case "transfers" => TransfersPage
    case "assignments" => AssignmentsPage
    case _ => DashboardPage
  }

  /** Every page is reached by its own id, and any other id falls back to
      the dashboard. */
  lemma RenderedPageSpec(currentPage: string)
    ensures forall p :: RenderedPage(PageId(p)) == p
    ensures (forall p :: currentPage != PageId(p)) ==> RenderedPage(currentPage) == DashboardPage
    ensures RenderedPage(currentPage) != DashboardPage ==> PageId(RenderedPage(currentPage)) == currentPage
  {
    if currentPage == "dashboard" {
      assert currentPage == PageId(DashboardPage);
    } else if currentPage == "purchases" {
      assert currentPage == PageId(PurchasesPage);
    } else if currentPage == "transfers" {
      assert currentPage == PageId(TransfersPage);
    } else if currentPage == "assignments" {
      assert currentPage == PageId(AssignmentsPage);
    }
  }

  // ---------------------------------------------------------------------
  // getIconPath

  /** The entries of the `icons` table. */
  datatype Icon = ChartIcon | ShoppingIcon | TruckIcon | UsersIcon | WeaponIcon

  /** The key of each icon in the table. */
  function IconName(icon: Icon): string {
    match icon
    case ChartIcon => "chart"
    case ShoppingIcon => "shopping"
    case TruckIcon => "truck"
    case UsersIcon => "users"
    case WeaponIcon => "weapon"
  }

  /** The icon a key selects, if any. */
  function IconNamed(name: string): Option<Icon> {
    match name
    case "chart" => Some(ChartIcon)
    case "shopping" => Some(ShoppingIcon)
    case "truck" => Some(TruckIcon)
    case "users" => Some(UsersIcon)
    case "weapon" => Some(WeaponIcon)
    case _ => None
  }

  /** The table is keyed by the icon names and by nothing else. */
  lemma IconNamedInverse(name: string, icon: Icon)
    ensures IconNamed(IconName(icon)) == Some(icon)
    ensures IconNamed(name) == Some(icon) <==> name == IconName(icon)
  {
  }

  /** `icons[iconType] || icons.chart`, as the table entry whose path is
      drawn: no stored path is empty, so the chart's path is the fallback
      exactly for names the table lacks. */
  function IconPath(iconType: string): (icon: Icon)
    ensures IconName(icon) == iconType || icon == ChartIcon
  {
    match IconNamed(iconType)
    case Some(icon) => icon
    case None => ChartIcon
  }

  /** A known icon name yields its own path, any other the chart's; every
      entry of the navigation bar names a known icon. */
  lemma IconPathSpec(iconType: string)
    ensures forall icon :: iconType == IconName(icon) ==> IconPath(iconType) == icon
    ensures (forall icon :: iconType != IconName(icon)) ==> IconPath(iconType) == ChartIcon
    ensures forall item :: item in AllNavItems ==> IconNamed(item.icon).Some?
  {
    if IconNamed(iconType).Some? {
      IconNamedInverse(iconType, IconNamed(iconType).value);
    }
  }

  // ---------------------------------------------------------------------
  // Session

  class Session {
    var currentUser: Option<User>
    var token: Option<string>
    var currentPage: string

    constructor ()
      ensures currentUser == None && token == None && currentPage == "dashboard"
    {
      currentUser := None;
      token := None;
      currentPage := "dashboard";
    }

    /** `!currentUser || !token`: the empty token is falsy too, so the
        application shows only with a user and a non-empty token. */
    predicate ShowsLogin()
      reads this
      ensures !ShowsLogin() ==> currentUser.Some? && token.Some? && |token.value| > 0
    {
      currentUser.None? || token.None? || token.value == ""
    }

    /** The page on screen when the login screen is not shown. */
    function Screen(): Option<Page>
      reads this
    {
      if ShowsLogin() then None else Some(RenderedPage(currentPage))
    }

    method HandleLogin(newToken: string, user: User)
      modifies this
      ensures currentUser == Some(user) && token == Some(newToken) && currentPage == "dashboard"
      ensures ShowsLogin() <==> newToken == ""
      ensures newToken != "" ==> Screen() == Some(DashboardPage)
    {
      currentUser := Some(user);
      token := Some(newToken);
      currentPage := "dashboard";
    }

    method HandleLogout()
      modifies this
      ensures currentUser == None && token == None && currentPage == "dashboard"
      ensures ShowsLogin() && Screen() == None
    {
      currentUser := None;
      token := None;
      currentPage := "dashboard";
    }

    /** `setCurrentPage`, as the navigation buttons and `onNavigate` call it. */
    method Navigate(page: string)
      modifies this
      ensures currentPage == page && currentUser == old(currentUser) && token == old(token)
    {
      currentPage := page;
    }
  }
}
