/** The session gate wrapped around every admin page: one stored flag
    decides between the wrapped page and a redirect to the login page. */
module ProtectedRoute {
  import opened Browser

  /** The `localStorage` key holding the session flag. */
  const AuthKey: string := "isAuthenticated"

  /** Where a denied visitor is sent. */
  const LoginPath: string := "/login"

  /** What the gate renders: the wrapped children, or a navigation. */
  datatype Guarded<T> = Children(content: T) | Redirect(nav: Navigation)

  /** The flag check: the stored value is exactly the string "true". */
  predicate IsAuthenticated(items: map<string, string>)
    ensures IsAuthenticated(items) <==> AuthKey in items && items[AuthKey] == "true"
  {
    GetItem(items, AuthKey) == Some("true")
  }

  /** `ProtectedRoute`: the children unchanged when the flag is set, a
      replace-navigation to the login page otherwise. */
  function Guard<T>(items: map<string, string>, children: T): (r: Guarded<T>)
    ensures r.Children? <==> AuthKey in items && items[AuthKey] == "true"
    ensures r.Children? ==> r.content == children
    ensures r.Redirect? ==> r.nav == Navigation(LoginPath, true)
  {
    if IsAuthenticated(items) then Children(children) else Redirect(Navigation(LoginPath, true))
  }

  /** With no stored flag the gate redirects. */
  lemma AbsentFlagRedirects<T>(items: map<string, string>, children: T)
    requires AuthKey !in items
    ensures Guard(items, children) == Redirect(Navigation(LoginPath, true))
  {
  }

  /** Any stored value other than "true" is denied: the check is
      case-sensitive and fails closed. */
  lemma OtherValuesRedirect<T>(items: map<string, string>, v: string, children: T)
    requires v != "true"
    ensures Guard(items[AuthKey := v], children) == Redirect(Navigation(LoginPath, true))
  {
  }

  /** "True", "1" and "yes" are all denied. */
  lemma LookalikeValuesRedirect<T>(children: T)
    ensures Guard(map[AuthKey := "True"], children).Redirect?
    ensures Guard(map[AuthKey := "1"], children).Redirect?
    ensures Guard(map[AuthKey := "yes"], children).Redirect?
  {
    OtherValuesRedirect(map[], "True", children);
    OtherValuesRedirect(map[], "1", children);
    OtherValuesRedirect(map[], "yes", children);
  }

  /** The decision depends on the stored flag only, never on what is
      wrapped. */
  lemma DecisionIgnoresChildren<T, U>(items: map<string, string>, a: T, b: U)
    ensures Guard(items, a).Children? == Guard(items, b).Children?
  {
  }
}
