/** The admin shell around every admin page: the sidebar with its five
    navigation items, the highlighting of the current one, and sign-out. */
module AdminLayout {
  import opened Browser
  import ProtectedRoute
  import AppRoutes

  datatype NavItem = NavItem(href: string, title: string)

  /** The sidebar entries, top to bottom. */
  function NavItems(): (items: seq<NavItem>)
    ensures |items| == 5
    ensures forall i :: 0 <= i < |items| ==> "/admin" <= items[i].href
    ensures forall i, j :: 0 <= i < j < |items| ==> items[i].href != items[j].href
  {
    [ NavItem("/admin", "Dashboard"),
      NavItem("/admin/customers", "Customers"),
      NavItem("/admin/budgets", "Budgets"),
      NavItem("/admin/invoices", "Invoices"),
      NavItem("/admin/settings", "Settings") ]
  }

  /** An item is highlighted when the current pathname equals its href
      exactly; there is no prefix match. */
  predicate IsActive(pathname: string, item: NavItem)
  {
    pathname == item.href
  }

  /** The indices of the highlighted items for `pathname`: at most one. */
  function ActiveItems(pathname: string): (active: set<nat>)
    ensures forall i: nat :: i in active <==> i < |NavItems()| && pathname == NavItems()[i].href
    ensures forall i, j :: i in active && j in active ==> i == j
  {
    set i: nat | i < |NavItems()| && IsActive(pathname, NavItems()[i])
  }

  /** The sidebar order is Dashboard, Customers, Budgets, Invoices, Settings. */
  lemma NavOrder()
    ensures |NavItems()| == 5
    ensures NavItems()[0].title == "Dashboard" && NavItems()[1].title == "Customers"
         && NavItems()[2].title == "Budgets" && NavItems()[3].title == "Invoices"
         && NavItems()[4].title == "Settings"
  {
  }

  /** A customer's detail page highlights no item, not even Customers. */
  lemma DetailPageHighlightsNothing()
    ensures ActiveItems("/admin/customers/1") == {}
  {
  }

  /** The Sign Out button: removes the session flag and nothing else, then
      pushes the login page. */
  method HandleSignOut(storage: LocalStorage) returns (nav: Navigation)
    modifies storage
    ensures storage.items == SignedOut(old(storage.items))
    ensures !ProtectedRoute.IsAuthenticated(storage.items)
    ensures nav == Navigation(ProtectedRoute.LoginPath, false)
  {
    storage.RemoveItem(ProtectedRoute.AuthKey);
    nav := Navigation(ProtectedRoute.LoginPath, false);
  }

  /** The store left behind by sign-out. */
  function SignedOut(items: map<string, string>): (r: map<string, string>)
    ensures r.Keys == items.Keys - {ProtectedRoute.AuthKey}
    ensures forall k :: k in r ==> r[k] == items[k]
  {
    items - {ProtectedRoute.AuthKey}
  }

  /** After sign-out the gate denies access, whatever was stored before. */
  lemma SignOutSpec(items: map<string, string>)
    ensures !ProtectedRoute.IsAuthenticated(SignedOut(items))
  {
  }

  /** Signing out with the flag already absent leaves the store unchanged,
      so signing out twice is signing out once. */
  lemma SignOutIdempotent(items: map<string, string>)
    ensures ProtectedRoute.AuthKey !in items ==> SignedOut(items) == items
    ensures SignedOut(SignedOut(items)) == SignedOut(items)
  {
  }

  /** After sign-out, no path renders a protected page, and every matched
      "/admin..." path redirects to the login page. */
  lemma SignOutLocksAdmin(items: map<string, string>, segs: seq<string>)
    ensures AppRoutes.Resolve(segs, SignedOut(items)).Render? ==>
              AppRoutes.Resolve(segs, SignedOut(items)).page in {AppRoutes.LoginPage, AppRoutes.NotFoundPage}
    ensures |segs| > 0 && segs[0] == "admin"
            && (exists i :: 0 <= i < |AppRoutes.RouteTable()| && AppRoutes.Matches(AppRoutes.RouteTable()[i].pattern, segs))
            ==> AppRoutes.Resolve(segs, SignedOut(items)) == AppRoutes.Navigate(Navigation(ProtectedRoute.LoginPath, true))
  {
    SignOutSpec(items);
    if |segs| > 0 && segs[0] == "admin"
       && exists i :: 0 <= i < |AppRoutes.RouteTable()| && AppRoutes.Matches(AppRoutes.RouteTable()[i].pattern, segs)
    {
      var i :| 0 <= i < |AppRoutes.RouteTable()| && AppRoutes.Matches(AppRoutes.RouteTable()[i].pattern, segs);
      AppRoutes.AdminRouteWithoutFlagRedirects(segs, SignedOut(items), i);
    }
  }
}
