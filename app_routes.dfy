/** The application's route table: which outcome each browser path
    produces, given the stored session flag. */
module AppRoutes {
  import opened Browser
  import ProtectedRoute

  // ---------------------------------------------------------------------
  // Paths and segments

  /** A well-formed path segment: non-empty and free of '/'. */
  predicate IsSegment(s: string)
  {
    s != "" && '/' !in s
  }

  /** The segments of a path: the pieces between '/' characters, with empty
      pieces (a leading, trailing or doubled '/') dropped. */
  function Split(path: string): (segs: seq<string>)
    ensures forall k :: 0 <= k < |segs| ==> IsSegment(segs[k])
  {
    SplitFrom(path, "")
  }

  /** `cur` is the segment read so far, `p` the rest of the path. */
  function SplitFrom(p: string, cur: string): (segs: seq<string>)
    requires '/' !in cur
    ensures forall k :: 0 <= k < |segs| ==> IsSegment(segs[k])
    decreases |p|
  {
    if p == [] then Emit(cur)
    else if p[0] == '/' then Emit(cur) + SplitFrom(p[1..], "")
    else SplitFrom(p[1..], cur + [p[0]])
  }

  /** A finished segment, unless it is empty. */
  function Emit(cur: string): seq<string>
  {
    if cur == "" then [] else [cur]
  }

  /** The path whose segments are `segs`: "/" for none, "/a/b" otherwise. */
  function PathOf(segs: seq<string>): string
  {
    if segs == [] then "/" else Join(segs)
  }

  function Join(segs: seq<string>): string
  {
    if segs == [] then "" else "/" + segs[0] + Join(segs[1..])
  }

  /** Reading a run of non-'/' characters only extends the current segment. */
  lemma {:induction false} SplitWord(w: string, r: string, cur: string)
    requires '/' !in w && '/' !in cur
    ensures SplitFrom(w + r, cur) == SplitFrom(r, cur + w)
    decreases |w|
  {
    if w != [] {
      assert w[0] in w;
      assert (w + r)[0] == w[0] && (w + r)[1..] == w[1..] + r;
      assert cur + w == (cur + [w[0]]) + w[1..];
      assert forall c :: c in w[1..] ==> c in w;
      SplitWord(w[1..], r, cur + [w[0]]);
    } else {
      assert w + r == r && cur + w == cur;
    }
  }

  lemma {:induction false} SplitJoin(segs: seq<string>, cur: string)
    requires forall k :: 0 <= k < |segs| ==> IsSegment(segs[k])
    requires '/' !in cur
    ensures SplitFrom(Join(segs), cur) == Emit(cur) + segs
    decreases |segs|
  {
    if segs == [] {
      assert Join(segs) == [];
    } else {
      var w, rest := segs[0], segs[1..];
      var p := Join(segs);
      assert p == "/" + (w + Join(rest));
      assert p[0] == '/' && p[1..] == w + Join(rest);
      SplitWord(w, Join(rest), "");
      assert "" + w == w;
      SplitJoin(rest, w);
      assert segs == [w] + rest;
    }
  }

  /** Splitting the path of well-formed segments gives those segments back. */
  lemma SplitPathOf(segs: seq<string>)
    requires forall k :: 0 <= k < |segs| ==> IsSegment(segs[k])
    ensures Split(PathOf(segs)) == segs
  {
    if segs == [] {
      assert "/"[1..] == "";
      assert Split("/") == [] + SplitFrom("", "");
    } else {
      SplitJoin(segs, "");
    }
  }

  // ---------------------------------------------------------------------
  // The route table

  /** One segment of a route pattern: a literal, or a `:name` parameter. */
  datatype Segment = Literal(text: string) | Param(name: string)

  /** The pages the table can render. */
  datatype Page = LoginPage | DashboardPage | CustomersPage | CustomerDetailPage
                | NewBudgetPage | NotFoundPage

  /** A route's element: a redirect, a page shown to anyone, or a page
      wrapped in the session gate. */
  datatype Element = NavigateTo(target: string) | Public(page: Page) | Protected(page: Page)

  datatype Route = Route(pattern: seq<Segment>, element: Element)

  type Params = map<string, string>

  /** What the router produces for a path. */
  datatype Outcome = Navigate(nav: Navigation) | Render(page: Page, params: Params)

  /** The explicit routes, in declaration order; the catch-all `*` that
      renders NotFound follows them. */
  function RouteTable(): (routes: seq<Route>)
    ensures |routes| == 7
    ensures forall i :: 0 <= i < |routes| ==>
              (routes[i].element.Protected? <==>
                 |routes[i].pattern| > 0 && routes[i].pattern[0] == Literal("admin"))
    ensures forall i :: 0 <= i < |routes| && routes[i].element.Public? ==>
              routes[i].pattern == [Literal("login")]
  {
    [ Route([], NavigateTo("/admin")),
      Route([Literal("login")], Public(LoginPage)),
      Route([Literal("admin")], Protected(DashboardPage)),
      Route([Literal("admin"), Literal("customers")], Protected(CustomersPage)),
      Route([Literal("admin"), Literal("customers"), Param("id")], Protected(CustomerDetailPage)),
      Route([Literal("admin"), Literal("customers"), Param("id"), Literal("edit")],
            Protected(CustomerDetailPage)),
      Route([Literal("admin"), Literal("budgets"), Literal("new")], Protected(NewBudgetPage)) ]
  }

  predicate SegmentMatches(p: Segment, s: string)
  {
    match p
    case Literal(t) => s == t
    case Param(_) => s != ""
  }

  /** A pattern matches a path when it has as many segments and each one
      matches: a literal by equality, a parameter by any non-empty text. */
  predicate Matches(pattern: seq<Segment>, segs: seq<string>)
  {
    |pattern| == |segs| && forall k :: 0 <= k < |segs| ==> SegmentMatches(pattern[k], segs[k])
  }

  /** The parameters a matched pattern binds. */
  function Captures(pattern: seq<Segment>, segs: seq<string>): (params: Params)
    requires |pattern| == |segs|
    ensures forall n :: n in params ==> exists k :: 0 <= k < |pattern| && pattern[k] == Param(n)
    ensures forall k :: 0 <= k < |pattern| && pattern[k].Param? ==> pattern[k].name in params
    decreases |pattern|
  {
    if pattern == [] then map[]
    else
      var rest := Captures(pattern[1..], segs[1..]);
      match pattern[0]
      case Literal(_) => rest
      case Param(n) => rest[n := segs[0]]
  }

  /** The index of the first route at or after `from` that matches. */
  function FirstMatchFrom(segs: seq<string>, from: nat): (r: Option<nat>)
    ensures r.Some? ==> from <= r.value < |RouteTable()|
                        && Matches(RouteTable()[r.value].pattern, segs)
                        && forall j :: from <= j < r.value ==> !Matches(RouteTable()[j].pattern, segs)
    ensures r.None? ==> forall j :: from <= j < |RouteTable()| ==> !Matches(RouteTable()[j].pattern, segs)
    decreases |RouteTable()| - from
  {
    if from >= |RouteTable()| then None
    else if Matches(RouteTable()[from].pattern, segs) then Some(from)
    else FirstMatchFrom(segs, from + 1)
  }

  function FirstMatch(segs: seq<string>): Option<nat>
  {
    FirstMatchFrom(segs, 0)
  }

  /** The outcome of a route's element once matched. */
  function Apply(element: Element, params: Params, items: map<string, string>): Outcome
  {
    match element
    case NavigateTo(target) => Navigate(Navigation(target, true))
    case Public(page) => Render(page, params)
    case Protected(page) =>
      match ProtectedRoute.Guard(items, Render(page, params))
      case Children(outcome) => outcome
      case Redirect(nav) => Navigate(nav)
  }

  /** What the router shows for the path segments `segs` when the stored
      items are `items`. */
  function Resolve(segs: seq<string>, items: map<string, string>): (outcome: Outcome)
    ensures outcome == Render(NotFoundPage, map[])
            <==> forall j :: 0 <= j < |RouteTable()| ==> !Matches(RouteTable()[j].pattern, segs)
    ensures !ProtectedRoute.IsAuthenticated(items) && outcome.Render? ==>
              outcome.page == LoginPage || outcome.page == NotFoundPage
    ensures outcome.Render? && outcome.page == CustomerDetailPage ==> "id" in outcome.params
    ensures outcome.Navigate? ==> outcome.nav.replace
  {
    match FirstMatch(segs)
    case None => Render(NotFoundPage, map[])
    case Some(i) =>
      var route := RouteTable()[i];
      Apply(route.element, Captures(route.pattern, segs), items)
  }

  function ResolvePath(path: string, items: map<string, string>): (outcome: Outcome)
    ensures !ProtectedRoute.IsAuthenticated(items) && outcome.Render? ==>
              outcome.page == LoginPage || outcome.page == NotFoundPage
    ensures outcome.Render? && outcome.page == CustomerDetailPage ==> "id" in outcome.params
    ensures outcome.Navigate? ==> outcome.nav.replace
  {
    Resolve(Split(path), items)
  }

  // ---------------------------------------------------------------------
  // Properties of the table

  /** Apart from the catch-all, a path matches at most one route, so the
      first match is also the router's best-ranked match. */
  lemma AtMostOneMatch(segs: seq<string>, i: nat, j: nat)
    requires i < |RouteTable()| && j < |RouteTable()|
    requires Matches(RouteTable()[i].pattern, segs) && Matches(RouteTable()[j].pattern, segs)
    ensures i == j
  {
    var pi, pj := RouteTable()[i].pattern, RouteTable()[j].pattern;
    if |segs| == 1 {
      assert SegmentMatches(pi[0], segs[0]) && SegmentMatches(pj[0], segs[0]);
    } else if |segs| == 3 {
      assert SegmentMatches(pi[1], segs[1]) && SegmentMatches(pj[1], segs[1]);
    }
  }

  /** The route a path matches is the one the router picks. */
  lemma MatchedRouteIsChosen(segs: seq<string>, i: nat)
    requires i < |RouteTable()| && Matches(RouteTable()[i].pattern, segs)
    ensures FirstMatch(segs) == Some(i)
  {
    var r := FirstMatch(segs);
    if r.Some? {
      AtMostOneMatch(segs, i, r.value);
    }
  }

  /** Without a valid flag, every "/admin..." route redirects to the login
      page. */
  lemma AdminRouteWithoutFlagRedirects(segs: seq<string>, items: map<string, string>, i: nat)
    requires !ProtectedRoute.IsAuthenticated(items)
    requires i < |RouteTable()| && Matches(RouteTable()[i].pattern, segs)
    requires |segs| > 0 && segs[0] == "admin"
    ensures Resolve(segs, items) == Navigate(Navigation(ProtectedRoute.LoginPath, true))
  {
    MatchedRouteIsChosen(segs, i);
    assert SegmentMatches(RouteTable()[i].pattern[0], segs[0]);
  }

  /** Resolving the path of well-formed segments is resolving the segments. */
  lemma ResolvePathOf(segs: seq<string>, items: map<string, string>)
    requires forall k :: 0 <= k < |segs| ==> IsSegment(segs[k])
    ensures ResolvePath(PathOf(segs), items) == Resolve(segs, items)
  {
    SplitPathOf(segs);
  }

  lemma JoinCons(s: string, rest: seq<string>)
    ensures Join([s] + rest) == "/" + s + Join(rest)
  {
    assert ([s] + rest)[1..] == rest;
  }

  /** "/" redirects to "/admin", replacing the history entry. */
  lemma RootRedirectsToAdmin(items: map<string, string>)
    ensures ResolvePath("/", items) == Navigate(Navigation("/admin", true))
  {
    ResolvePathOf([], items);
    MatchedRouteIsChosen([], 0);
  }

  /** "/login" renders the login page whatever is stored. */
  lemma LoginPageIsPublic(items: map<string, string>)
    ensures ResolvePath("/login", items) == Render(LoginPage, map[])
  {
    PathOfOne("login");
    ResolvePathOf(["login"], items);
    MatchedRouteIsChosen(["login"], 1);
  }

  /** "/admin/customers/X" and "/admin/customers/X/edit", for any single
      non-empty segment X, both render the customer detail page with id X. */
  lemma CustomerDetailPaths(x: string, items: map<string, string>)
    requires IsSegment(x)
    requires ProtectedRoute.IsAuthenticated(items)
    ensures ResolvePath("/admin/customers/" + x, items) == Render(CustomerDetailPage, map["id" := x])
    ensures ResolvePath("/admin/customers/" + x + "/edit", items) == Render(CustomerDetailPage, map["id" := x])
  {
    DetailPathOf(x);
    ResolvePathOf(["admin", "customers", x], items);
    ResolveDetail(x, items);
    EditPathOf(x);
    ResolvePathOf(["admin", "customers", x, "edit"], items);
    ResolveEdit(x, items);
  }

  lemma ResolveDetail(x: string, items: map<string, string>)
    requires IsSegment(x)
    requires ProtectedRoute.IsAuthenticated(items)
    ensures Resolve(["admin", "customers", x], items) == Render(CustomerDetailPage, map["id" := x])
  {
    var segs := ["admin", "customers", x];
    MatchedRouteIsChosen(segs, 4);
    var pattern := RouteTable()[4].pattern;
    assert pattern[1..][1..] == [Param("id")] && segs[1..][1..] == [x];
    assert Captures(pattern, segs) == map["id" := x];
  }

  lemma ResolveEdit(x: string, items: map<string, string>)
    requires IsSegment(x)
    requires ProtectedRoute.IsAuthenticated(items)
    ensures Resolve(["admin", "customers", x, "edit"], items) == Render(CustomerDetailPage, map["id" := x])
  {
    var segs := ["admin", "customers", x, "edit"];
    MatchedRouteIsChosen(segs, 5);
    var pattern := RouteTable()[5].pattern;
    assert pattern[1..][1..] == [Param("id"), Literal("edit")] && segs[1..][1..] == [x, "edit"];
    assert pattern[1..][1..][1..] == [Literal("edit")] && segs[1..][1..][1..] == ["edit"];
    assert Captures(pattern[1..][1..][1..], segs[1..][1..][1..]) == map[];
    assert Captures(pattern, segs) == map["id" := x];
  }

  lemma DetailPathOf(x: string)
    ensures PathOf(["admin", "customers", x]) == "/admin/customers/" + x
  {
    PathOfThree("admin", "customers", x);
    assert "/" + "admin" + "/" + "customers" + "/" == "/admin/customers/";
  }

  lemma EditPathOf(x: string)
    ensures PathOf(["admin", "customers", x, "edit"]) == "/admin/customers/" + x + "/edit"
  {
    PathOfFour("admin", "customers", x, "edit");
    assert "/" + "admin" + "/" + "customers" + "/" == "/admin/customers/";
  }

  lemma PathOfOne(a: string)
    ensures PathOf([a]) == "/" + a
  {
    JoinCons(a, []);
    assert [a] == [a] + [];
  }

  lemma PathOfTwo(a: string, b: string)
    ensures PathOf([a, b]) == "/" + a + "/" + b
  {
    PathOfOne(b);
    JoinCons(a, [b]);
    assert [a, b] == [a] + [b];
  }

  lemma PathOfThree(a: string, b: string, c: string)
    ensures PathOf([a, b, c]) == "/" + a + "/" + b + "/" + c
  {
    PathOfTwo(b, c);
    JoinCons(a, [b, c]);
    assert [a, b, c] == [a] + [b, c];
  }

  lemma PathOfFour(a: string, b: string, c: string, d: string)
    ensures PathOf([a, b, c, d]) == "/" + a + "/" + b + "/" + c + "/" + d
  {
    PathOfThree(b, c, d);
    JoinCons(a, [b, c, d]);
    assert [a, b, c, d] == [a] + [b, c, d];
  }

  /** The dashboard's "Add New Customer" link opens the detail page with id
      "new": there is no creation route. */
  lemma NewCustomerLinkOpensDetail(items: map<string, string>)
    requires ProtectedRoute.IsAuthenticated(items)
    ensures ResolvePath("/admin/customers/new", items) == Render(CustomerDetailPage, map["id" := "new"])
  {
    assert "/admin/customers/" + "new" == "/admin/customers/new";
    CustomerDetailPaths("new", items);
  }

  /** The sidebar's Budgets, Invoices and Settings links have no route and
      render NotFound, signed in or not. */
  lemma SidebarLinksNotFound(items: map<string, string>)
    ensures ResolvePath("/admin/budgets", items) == Render(NotFoundPage, map[])
    ensures ResolvePath("/admin/invoices", items) == Render(NotFoundPage, map[])
    ensures ResolvePath("/admin/settings", items) == Render(NotFoundPage, map[])
  {
    assert "/admin/" + "budgets" == "/admin/budgets";
    UnmatchedSecondSegment("budgets", items);
    assert "/admin/" + "invoices" == "/admin/invoices";
    UnmatchedSecondSegment("invoices", items);
    assert "/admin/" + "settings" == "/admin/settings";
    UnmatchedSecondSegment("settings", items);
  }

  /** "/admin/N" has no route for any segment N other than "customers". */
  lemma UnmatchedSecondSegment(name: string, items: map<string, string>)
    requires IsSegment(name) && name != "customers"
    ensures ResolvePath("/admin/" + name, items) == Render(NotFoundPage, map[])
  {
    var segs := ["admin", name];
    PathOfTwo("admin", name);
    assert "/" + "admin" + "/" == "/admin/";
    ResolvePathOf(segs, items);
    forall j | 0 <= j < |RouteTable()|
      ensures !Matches(RouteTable()[j].pattern, segs)
    {
      if j == 3 {
        assert !SegmentMatches(RouteTable()[j].pattern[1], segs[1]);
      }
    }
  }

  /** A pattern of literals only binds no parameter. */
  lemma {:induction false} CapturesOfLiterals(pattern: seq<Segment>, segs: seq<string>)
    requires |pattern| == |segs|
    requires forall k :: 0 <= k < |pattern| ==> pattern[k].Literal?
    ensures Captures(pattern, segs) == map[]
    decreases |pattern|
  {
    if pattern != [] {
      CapturesOfLiterals(pattern[1..], segs[1..]);
    }
  }

  /** Signed in, a path matched by a route whose pattern is all literals
      renders that route's page with no parameters. */
  lemma ResolveLiteralRoute(segs: seq<string>, i: nat, items: map<string, string>)
    requires ProtectedRoute.IsAuthenticated(items)
    requires i < |RouteTable()| && Matches(RouteTable()[i].pattern, segs)
    requires forall k :: 0 <= k < |segs| ==> RouteTable()[i].pattern[k].Literal?
    requires RouteTable()[i].element.Protected?
    ensures Resolve(segs, items) == Render(RouteTable()[i].element.page, map[])
  {
    MatchedRouteIsChosen(segs, i);
    CapturesOfLiterals(RouteTable()[i].pattern, segs);
  }

  /** Signed in, the dashboard's links to "/admin", "/admin/customers" and
      "/admin/budgets/new" open the dashboard, the customer list and the
      budget form. */
  lemma AdminPagesWhenSignedIn(items: map<string, string>)
    requires ProtectedRoute.IsAuthenticated(items)
    ensures ResolvePath("/admin", items) == Render(DashboardPage, map[])
    ensures ResolvePath("/admin/customers", items) == Render(CustomersPage, map[])
    ensures ResolvePath("/admin/budgets/new", items) == Render(NewBudgetPage, map[])
  {
    DashboardPath(items);
    CustomersPath(items);
    NewBudgetPath(items);
  }

  lemma DashboardPath(items: map<string, string>)
    requires ProtectedRoute.IsAuthenticated(items)
    ensures ResolvePath("/admin", items) == Render(DashboardPage, map[])
  {
    PathOfOne("admin");
    ResolvePathOf(["admin"], items);
    ResolveLiteralRoute(["admin"], 2, items);
  }

  lemma CustomersPath(items: map<string, string>)
    requires ProtectedRoute.IsAuthenticated(items)
    ensures ResolvePath("/admin/customers", items) == Render(CustomersPage, map[])
  {
    PathOfTwo("admin", "customers");
    assert "/" + "admin" + "/" + "customers" == "/admin/customers";
    ResolvePathOf(["admin", "customers"], items);
    ResolveLiteralRoute(["admin", "customers"], 3, items);
  }

  lemma NewBudgetPath(items: map<string, string>)
    requires ProtectedRoute.IsAuthenticated(items)
    ensures ResolvePath("/admin/budgets/new", items) == Render(NewBudgetPage, map[])
  {
    PathOfThree("admin", "budgets", "new");
    assert "/" + "admin" + "/" + "budgets" + "/" + "new" == "/admin/budgets/new";
    ResolvePathOf(["admin", "budgets", "new"], items);
    NewBudgetSegments(items);
  }

  lemma NewBudgetSegments(items: map<string, string>)
    requires ProtectedRoute.IsAuthenticated(items)
    ensures Resolve(["admin", "budgets", "new"], items) == Render(NewBudgetPage, map[])
  {
    var segs := ["admin", "budgets", "new"];
    var pattern := RouteTable()[6].pattern;
    assert pattern == [Literal("admin"), Literal("budgets"), Literal("new")];
    assert Matches(pattern, segs);
    ResolveLiteralRoute(segs, 6, items);
  }
}
