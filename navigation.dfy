/** The bottom navigation bar (components/BottomNavigation.tsx): the items offered to
    each role, which of them is highlighted, and where a click leads. */
module Navigation {
  import opened Types
  import opened App

  /** The bar's `role` prop: App passes 'admin' for an administrator, 'user' otherwise. */
  datatype BarRole = AdminBar | UserBar

  function BarRoleFor(role: Role): (b: BarRole)
    ensures b == AdminBar <==> role == Administrator
  {
    if role == Administrator then AdminBar else UserBar
  }

  datatype NavItem = NavItem(id: Page, caption: string)

  const UserNavItems: seq<NavItem> :=
    [NavItem(Home, "Home"), NavItem(Search, "Search"), NavItem(Wishlist, "Wishlist"), NavItem(Profile, "Profile")]

  const AdminNavItems: seq<NavItem> :=
    [NavItem(AdminDashboard, "Dashboard"), NavItem(Upload, "Upload")]

  function NavItems(bar: BarRole): (r: seq<NavItem>)
    ensures bar == AdminBar ==> |r| == 2 && r[0].id == AdminDashboard && r[1].id == Upload
    ensures bar == UserBar ==>
              |r| == 4 && r[0].id == Home && r[1].id == Search && r[2].id == Wishlist && r[3].id == Profile
  {
    if bar == AdminBar then AdminNavItems else UserNavItems
  }

  /** The highlight: the item of the active view, or the dashboard item while the
      active view is home. */
  predicate IsActive(item: NavItem, activeView: Page) {
    activeView == item.id || (activeView == Home && item.id == AdminDashboard)
  }

  /** Whatever the active view, at most one item of the bar is highlighted. */
  lemma AtMostOneActive(bar: BarRole, activeView: Page)
    ensures forall i, j :: 0 <= i < j < |NavItems(bar)| ==>
              !(IsActive(NavItems(bar)[i], activeView) && IsActive(NavItems(bar)[j], activeView))
  {
  }

  /** A click hands the item's view to the router; for the session the bar is drawn
      for, no item is ever turned away to home: each is shown, or asks for sign-in. */
  lemma ClicksAreNeverRedirected(role: Role, i: nat)
    requires i < |NavItems(BarRoleFor(role))|
    ensures var view := NavItems(BarRoleFor(role))[i].id;
            Route(view, role) == GoTo(view) || Route(view, role) == AskToSignIn
  {
  }
}
