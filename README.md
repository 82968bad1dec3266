# Admin console: customer list, session gate and routes

A model of the logic inside a small browser-based admin console for an
LLM-gateway billing system. The console is mostly presentation over mock
data; what it decides is modelled here:

- **Customer list** (`CustomersPage`). The page holds the loaded customers and
  a search term. The search box keeps a row when its lower-cased name or
  lower-cased email includes the lower-cased term. The delete button replaces
  the list with the records whose id differs. Each row shows "No budget" or
  its two thresholds, and a "Blocked"/"Active" badge.
- **Session gate** (`ProtectedRoute`). One `localStorage` entry,
  `isAuthenticated`, decides everything. Exactly the string `"true"` shows the
  wrapped page. Anything else, including no entry at all, gives a
  replace-navigation to `/login`.
- **Route table** (`AppRoutes`). Seven explicit routes: `/` redirects to
  `/admin`, `/login` is public, five `/admin…` routes sit behind the gate, and
  a catch-all renders NotFound. `:id` matches one non-empty segment. A path
  string is split into its non-empty `/`-separated segments, and
  `Split(PathOf(segs)) == segs` is proved for well-formed segments. No path
  matches two routes, so taking the first match agrees with the router's
  ranking.
- **Admin shell** (`AdminLayout`). Five sidebar items, highlighted by exact
  equality of pathname and href. Sign-out removes the flag and pushes `/login`.
- **Budget form** (`NewBudget`). Eight raw-text fields, all empty except
  `api_base`. A change handler replaces one field. Submit, Back and Cancel all
  go to `/admin/customers` without storing anything.

Supporting modules: `Browser` holds `Option`, navigation requests and
`localStorage` as a string-to-string map. `Text` holds ASCII `toLowerCase` and
`String.prototype.includes`. `Sequences` holds `Array.prototype.filter` with
its subsequence, membership and idempotence lemmas. The page's search and
delete are both instances of that one filter.

Outcomes of the model that the code shows plainly:

- The sidebar links to `/admin/budgets`, `/admin/invoices` and
  `/admin/settings` have no route, so they render NotFound.
- The dashboard's "Add New Customer" link, `/admin/customers/new`, opens the
  customer detail page with id `"new"`.
- A customer's detail page highlights no sidebar item.
- Deleting an id that no row has is silently a no-op. Submitting the budget
  form stores nothing. The code has no store with `get`/`create`/`update`, no
  NotFound error on delete and no validation, and the model follows the code.

## Model

| member | source | states |
|---|---|---|
| CustomersPage.SeedCustomers | src/app/admin/customers/page.tsx:43-80 | the loaded list has three records with pairwise distinct ids |
| Text.Lower | src/app/admin/customers/page.tsx:94-95 | ASCII lower-casing keeps the length and lower-cases each letter A-Z, leaving every other character |
| Text.Contains | src/app/admin/customers/page.tsx:94-95 | `includes`: the empty string is included in every string, and an included string is no longer than the one that includes it |
| Text.ContainsPrefix | src/app/admin/customers/page.tsx:94-95 | a string includes each of its prefixes |
| Sequences.Filter | src/app/admin/customers/page.tsx:86 | `filter` returns no more elements than its input, and every element it returns satisfies the predicate |
| Sequences.FilterCount | src/app/admin/customers/page.tsx:86 | `filter` keeps each element that passes exactly as many times as it occurs, and no copy of one that fails |
| Sequences.FilterIsSubsequence | src/app/admin/customers/page.tsx:86 | `filter` returns an order-preserving subsequence of its input |
| Sequences.FilterMembership | src/app/admin/customers/page.tsx:93-96 | an element is in the filtered list iff it is in the input and satisfies the predicate |
| Sequences.FilterKeepsAll | src/app/admin/customers/page.tsx:86 | when every element passes, `filter` returns the input unchanged |
| Sequences.FilterIdempotent | src/app/admin/customers/page.tsx:86 | filtering twice by one predicate equals filtering once |
| Sequences.FilterCongruent | src/app/admin/customers/page.tsx:93-96 | predicates that agree on every element give the same filtered list |
| CustomersPage.MatchesSearch | src/app/admin/customers/page.tsx:93-96 | an empty term matches every row; a term whose lower-case form begins the lower-cased name or email matches; a matching term is no longer than the name or the email |
| CustomersPage.Search | src/app/admin/customers/page.tsx:93-96 | the rows shown are an order-preserving subsequence of the customers, and every one of them matches the term |
| CustomersPage.DeleteById | src/app/admin/customers/page.tsx:86 | the remaining list is an order-preserving subsequence of the old one, and no record in it has the deleted id |
| CustomersPage.SearchSpec | src/app/admin/customers/page.tsx:93-96 | the search result is an order-preserving subsequence of the customers; a customer is in it iff its lower-cased name or email includes the lower-cased term; a matching customer appears as many times as in the input |
| CustomersPage.SearchEmptyTermKeepsAll | src/app/admin/customers/page.tsx:93-96 | an empty term returns every customer in the original order |
| CustomersPage.SearchCaseInsensitive | src/app/admin/customers/page.tsx:94-95 | two terms that lower-case alike select the same rows |
| CustomersPage.SearchUpperAcmeIsLowerAcme | src/app/admin/customers/page.tsx:94-95 | "ACME" and "acme" select the same rows of any list |
| CustomersPage.SearchAcmeOnSeed | src/app/admin/customers/page.tsx:43-96 | on the loaded list, searching "acme" yields exactly the Acme Corporation record |
| CustomersPage.DeleteSpec | src/app/admin/customers/page.tsx:85-86 | after deleting an id no record has it; every other record remains as many times as before, in its original relative order |
| CustomersPage.DeleteAbsentIsNoOp | src/app/admin/customers/page.tsx:86 | deleting an id no record has leaves the list unchanged, with no error |
| CustomersPage.DeleteTwiceIsOnce | src/app/admin/customers/page.tsx:86 | deleting the same id twice equals deleting it once |
| CustomersPage.BudgetCellOf | src/app/admin/customers/page.tsx:159-170 | a row shows "No budget" iff it has no budget table, otherwise that table's soft and hard budgets |
| CustomersPage.StatusLabel | src/app/admin/customers/page.tsx:173-174 | the badge reads "Blocked" iff the customer is blocked and "Active" iff not |
| CustomersPage.CustomerList.constructor | src/app/admin/customers/page.tsx:34-83 | once loaded, the page holds the seed list and an empty search term |
| CustomersPage.CustomerList.Visible | src/app/admin/customers/page.tsx:93-96 | the rows on screen are an order-preserving subsequence of the state's customers holding exactly those matching the term; computing them changes nothing |
| CustomersPage.CustomerList.SetSearchTerm | src/app/admin/customers/page.tsx:124-129 | typing sets the term and leaves the customers unchanged |
| CustomersPage.CustomerList.HandleDelete | src/app/admin/customers/page.tsx:85-91 | the new list is the old one without the id; no record keeps the id, every other old record stays, order is kept, the term is unchanged |
| Browser.GetItem | src/components/ProtectedRoute.tsx:5 | `getItem` returns a value iff the key is stored, and then the stored value |
| Browser.LocalStorage.RemoveItem | src/components/AdminLayout.tsx:23 | `removeItem` deletes exactly the given key and leaves every other entry as it was |
| ProtectedRoute.IsAuthenticated | src/components/ProtectedRoute.tsx:5 | the session counts as signed in iff `isAuthenticated` is stored and its value is exactly "true" |
| ProtectedRoute.Guard | src/components/ProtectedRoute.tsx:4-11 | the children are returned unchanged iff the stored `isAuthenticated` is exactly "true"; otherwise the result is a replace-navigation to /login |
| ProtectedRoute.AbsentFlagRedirects | src/components/ProtectedRoute.tsx:5-8 | with no stored flag the gate redirects to /login |
| ProtectedRoute.OtherValuesRedirect | src/components/ProtectedRoute.tsx:5-8 | any stored value other than "true" is denied |
| ProtectedRoute.LookalikeValuesRedirect | src/components/ProtectedRoute.tsx:5-8 | "True", "1" and "yes" are denied: the check is case-sensitive and fails closed |
| ProtectedRoute.DecisionIgnoresChildren | src/components/ProtectedRoute.tsx:4-11 | whether access is granted does not depend on the wrapped children |
| AppRoutes.Split | src/App.tsx:23-53 | every segment of a split path is non-empty and free of '/' |
| AppRoutes.SplitPathOf | src/App.tsx:23-53 | splitting the path built from well-formed segments gives back those segments |
| AppRoutes.RouteTable | src/App.tsx:24-52 | seven explicit routes; a route is wrapped in the gate iff its first segment is "admin", and the only public page is /login |
| AppRoutes.Resolve | src/App.tsx:24-52 | NotFound is rendered iff no explicit route matches; without a valid flag only the login page or NotFound is rendered; the detail page always receives an `id` parameter; every redirect replaces the history entry |
| AppRoutes.ResolvePath | src/App.tsx:22-53 | for any path string: without a valid flag only the login page or NotFound is rendered; the detail page always receives an `id`; every redirect replaces the history entry |
| AppRoutes.Captures | src/App.tsx:36-45 | a matched pattern binds exactly the names that occur as `:name` parameters in it |
| AppRoutes.FirstMatchFrom | src/App.tsx:23-53 | the route picked is the first that matches, none before it matches, and no route matches when none is picked |
| AppRoutes.AtMostOneMatch | src/App.tsx:24-50 | no path matches two explicit routes |
| AppRoutes.MatchedRouteIsChosen | src/App.tsx:24-52 | the route a path matches is the route the table picks |
| AppRoutes.AdminRouteWithoutFlagRedirects | src/App.tsx:26-50 | without a valid flag, every matched /admin path yields a replace-navigation to /login |
| AppRoutes.RootRedirectsToAdmin | src/App.tsx:24 | "/" is a replace-navigation to /admin |
| AppRoutes.LoginPageIsPublic | src/App.tsx:25 | "/login" renders the login page whatever is stored |
| AppRoutes.CustomerDetailPaths | src/App.tsx:36-45 | signed in, /admin/customers/X and /admin/customers/X/edit both render the detail page with id X, for any non-empty segment X |
| AppRoutes.NewCustomerLinkOpensDetail | src/App.tsx:36-40 | signed in, /admin/customers/new renders the detail page with id "new" |
| AppRoutes.SidebarLinksNotFound | src/App.tsx:52 | /admin/budgets, /admin/invoices and /admin/settings render NotFound, signed in or not |
| AppRoutes.UnmatchedSecondSegment | src/App.tsx:24-52 | under the model's case-sensitive segment matching, /admin/N renders NotFound for every segment N other than "customers" |
| AppRoutes.CapturesOfLiterals | src/App.tsx:24-50 | a pattern of literals binds no parameter |
| AppRoutes.AdminPagesWhenSignedIn | src/App.tsx:26-50 | signed in, /admin, /admin/customers and /admin/budgets/new render the dashboard, the customer list and the budget form |
| AdminLayout.ActiveItems | src/components/AdminLayout.tsx:71-77 | an item is highlighted iff the pathname equals its href exactly, and at most one item is highlighted |
| AdminLayout.NavItems | src/components/AdminLayout.tsx:31-57 | five items, every href lies under /admin, and the hrefs are pairwise distinct |
| AdminLayout.NavOrder | src/components/AdminLayout.tsx:31-57 | the items are Dashboard, Customers, Budgets, Invoices, Settings in that order |
| AdminLayout.DetailPageHighlightsNothing | src/components/AdminLayout.tsx:77 | /admin/customers/1 highlights no item: there is no prefix match |

| AdminLayout.HandleSignOut | src/components/AdminLayout.tsx:22-29 | the new storage is the signed-out store of the old one, the gate is closed, and /login is pushed |
| AdminLayout.SignedOut | src/components/AdminLayout.tsx:23 | the signed-out store holds every key but `isAuthenticated`, each with its old value |
| AdminLayout.SignOutSpec | src/components/AdminLayout.tsx:23 | after sign-out the gate denies access, whatever was stored before |
| AdminLayout.SignOutIdempotent | src/components/AdminLayout.tsx:23 | signing out with the flag absent leaves storage unchanged; signing out twice equals once |
| AdminLayout.SignOutLocksAdmin | src/components/AdminLayout.tsx:22-29 | after sign-out no path renders anything but the login page or NotFound, and every matched /admin path redirects to /login |
| NewBudget.InitialFormData | src/pages/admin/NewBudget.tsx:15-24 | the form has exactly the eight fields, all empty except api_base, which is https://api.litellm.ai |
| NewBudget.Changed | src/pages/admin/NewBudget.tsx:38-43 | a change sets the named field to the value and leaves every other field unchanged |
| NewBudget.ChangeIdempotent | src/pages/admin/NewBudget.tsx:38-43 | applying the same change twice equals applying it once |
| NewBudget.ChangesCommute | src/pages/admin/NewBudget.tsx:38-43 | changes to two different fields commute |
| NewBudget.BudgetOrderNotChecked | src/pages/admin/NewBudget.tsx:19-43 | budget fields keep their raw text; a hard budget below the soft budget is accepted |
| NewBudget.BudgetForm.constructor | src/pages/admin/NewBudget.tsx:15-24 | the form starts at the initial defaults |
| NewBudget.BudgetForm.HandleChange | src/pages/admin/NewBudget.tsx:38-43 | the state becomes the old form with one field replaced |
| NewBudget.BudgetForm.HandleSubmit | src/pages/admin/NewBudget.tsx:26-36 | submit changes no state and always pushes /admin/customers; the Back and Cancel buttons (lines 53 and 215) push the same navigation |

## Left out

- Rendering is not modelled. Markup, styling, icons, cards and tables are presentation. Only the choices a row makes (budget cell, status badge) are kept.
- Toast notifications are not modelled. They are foreign UI side effects of delete, sign-out and submit.
- The simulated one-second load and its spinner are not modelled. This is timing; the model starts from the loaded seed list.
- Framework hooks (`useState`, `useEffect`, routers, `QueryClient`) are not modelled. Navigation is an output value, and `localStorage` is a string-to-string map.
- The login page, which sets the flag, is not part of this model. Sign-in is therefore not modelled.
- The customer detail and edit pages are not part of this model. They only supply the page reached by the `:id` routes.
- AppRoutes.Resolve: the router's own matching code is not visible. The model uses literal, case-sensitive segment equality, with `:id` matching one non-empty segment. The router's default case-insensitive matching, URL decoding of parameters, query strings and fragments are left out, and doubled slashes are collapsed ("//admin" is treated as "/admin"), where the router would render NotFound.
- Components defined in files outside this model (NotFound, Login, Customers, CustomerDetail) are represented by name only. Index is imported by the route table but routed nowhere.
- Text.Lower: only ASCII letters are lower-cased; JavaScript's Unicode case mapping is not modelled.
- CustomersPage.BudgetTable: budget figures are integers rather than JavaScript floating-point numbers. Nothing computes on them.
- The browser's form constraints (`required`, `min="0"`, `type="email"`) are not validation in code and are not modelled.
