/** The application's route table: two public pages, nine pages wrapped in
    the route guard and the dashboard layout, and a catch-all that sends
    every other address to the login page. A path is looked up exactly
    (no case folding, no ranking); the paths are pairwise distinct, so the
    first match is the only one. */
module App {
  import opened Common
  import opened RouteGuard
  import ListEdits

  datatype Route = Route(path: string, element: Element)

  /** A page behind the guard and inside the dashboard layout. */
  function Guarded(isAuthenticated: Option<bool>, page: Element): Element {
    Guard(isAuthenticated, Layout(page))
  }

  const PublicPaths := ["/register", "/login"]
  const PublicPages := [Component("Register"), Component("Login")]

  /** The guarded paths other than `/`, each with the page it shows. */
  const DashboardPaths := ["/edit-header", "/banner-edit", "/Hero-Text-edit", "/Edit-modal",
                           "/create-new", "/edit-footer", "/admin-accounts", "/enquiries"]
  const DashboardPages := ["EditHeader", "BannerEdit", "HeroTextEdit", "ModalEdit",
                           "CreateNew", "EditFooter", "AdminAccounts", "EnquiryList"]

  /** `/` holds a redirect to the landing page inside the layout. */
  const GuardedPaths := ["/"] + DashboardPaths

  /** The table in the order it is written, with the prop given to every
      `ProtectedRoute` as a parameter. */
  function RouteTable(isAuthenticated: Option<bool>): (t: seq<Route>)
    ensures |t| == |PublicPaths| + |GuardedPaths|
  {
    seq(|PublicPaths|, i requires 0 <= i < |PublicPaths| => Route(PublicPaths[i], PublicPages[i]))
    + [Route("/", Guarded(isAuthenticated, Navigate(LandingPath, true)))]
    + seq(|DashboardPaths|, i requires 0 <= i < |DashboardPaths| =>
          Route(DashboardPaths[i], Guarded(isAuthenticated, Component(DashboardPages[i]))))
  }

  /** `App` never passes `isAuthenticated` to `ProtectedRoute`. */
  const Routes := RouteTable(None)

  /** `<Route path="*" element={<Navigate to="/login" replace />} />` */
  const CatchAll := Navigate(LoginPath, true)

  predicate DistinctPaths(routes: seq<Route>) {
    forall i, j :: 0 <= i < j < |routes| ==> routes[i].path != routes[j].path
  }

  /** The element a path resolves to in a table: the route with that path,
      or the catch-all when there is none. */
  function ResolveIn(routes: seq<Route>, path: string): Element {
    match ListEdits.Find(routes, (r: Route) => r.path == path)
    case Some(route) => route.element
    case None => CatchAll
  }

  function Resolve(path: string): Element {
    ResolveIn(Routes, path)
  }

  /** The table lists the public pages unguarded and every guarded page
      behind the guard and inside the layout, and no path twice. */
  lemma TableShape(isAuthenticated: Option<bool>)
    ensures forall i :: 0 <= i < |PublicPaths| ==>
      RouteTable(isAuthenticated)[i] == Route(PublicPaths[i], PublicPages[i])
    ensures RouteTable(isAuthenticated)[|PublicPaths|] ==
      Route("/", Guarded(isAuthenticated, Navigate(LandingPath, true)))
    ensures forall i :: 0 <= i < |DashboardPaths| ==>
      RouteTable(isAuthenticated)[|PublicPaths| + 1 + i] ==
      Route(DashboardPaths[i], Guarded(isAuthenticated, Component(DashboardPages[i])))
    ensures DistinctPaths(RouteTable(isAuthenticated))
  {
    var t := RouteTable(isAuthenticated);
    var paths := PublicPaths + GuardedPaths;
    assert forall i :: 0 <= i < |t| ==> t[i].path == paths[i];
    forall i, j | 0 <= i < j < |paths| ensures paths[i] != paths[j] {
      var a, b := paths[i], paths[j];
      if |a| == |b| && |a| > 6 {
        assert a[1] != b[1] || a[6] != b[6];
      }
    }
  }

  /** With distinct paths, every route's own path resolves to its element. */
  lemma {:induction false} ResolveAt(routes: seq<Route>, i: nat)
    requires DistinctPaths(routes)
    requires i < |routes|
    ensures ResolveIn(routes, routes[i].path) == routes[i].element
  {
    var path := routes[i].path;
    var matches := (r: Route) => r.path == path;
    assert matches(routes[i]);
    var found := ListEdits.Find(routes, matches);
    assert found.Some?;
    var k :| 0 <= k < |routes| && routes[k] == found.value && matches(routes[k])
      && forall j :: 0 <= j < k ==> !matches(routes[j]);
  }

  /** A path that is in no route resolves to the catch-all redirect. */
  lemma UnknownPathRedirects(path: string)
    requires path !in PublicPaths && path !in GuardedPaths
    ensures Resolve(path) == CatchAll
    ensures Render(Resolve(path)) == Redirect(LoginPath, true)
  {
    TableShape(None);
    forall i | 0 <= i < |Routes| ensures Routes[i].path != path {
      if i < |PublicPaths| {
        assert Routes[i].path == PublicPaths[i];
      } else {
        assert Routes[i].path == GuardedPaths[i - |PublicPaths|];
      }
    }
  }

  /** The public pages render without any guard. */
  lemma PublicPagesUnguarded()
    ensures Resolve("/register") == Component("Register")
    ensures Resolve("/login") == Component("Login")
  {
    TableShape(None);
    ResolveAt(Routes, 0);
    ResolveAt(Routes, 1);
  }

  /** Every guarded path resolves to a guard with no prop around the
      dashboard layout, and so renders as the replacing redirect to the
      login page. */
  lemma GuardedPathsRedirect(i: nat)
    requires i < |GuardedPaths|
    ensures Resolve(GuardedPaths[i]).Guard?
    ensures Resolve(GuardedPaths[i]).isAuthenticated.None?
    ensures Resolve(GuardedPaths[i]).child.Layout?
    ensures Render(Resolve(GuardedPaths[i])) == Redirect(LoginPath, true)
  {
    TableShape(None);
    ResolveAt(Routes, |PublicPaths| + i);
    FalsyGuardRedirects(None, Routes[|PublicPaths| + i].element.child);
  }

  /** As the application is written, no address ever shows a dashboard
      page: every path ends at the login page or the registration page. */
  lemma NoDashboardPageEverShows(path: string)
    ensures Render(Resolve(path)) in {Redirect(LoginPath, true), Show("Register", false), Show("Login", false)}
  {
    TableShape(None);
    var found := ListEdits.Find(Routes, (r: Route) => r.path == path);
    if found.Some? {
      var k :| 0 <= k < |Routes| && Routes[k] == found.value;
      if k >= |PublicPaths| {
        FalsyGuardRedirects(None, Routes[k].element.child);
      }
    }
  }

  /** Were the prop passed truthy, the guard would step aside: `/` would
      redirect to the landing page... */
  lemma AuthenticatedRootRedirectsToLanding()
    ensures Render(ResolveIn(RouteTable(Some(true)), "/")) == Redirect(LandingPath, true)
  {
    var table := RouteTable(Some(true));
    TableShape(Some(true));
    ResolveAt(table, |PublicPaths|);
  }

  /** ...and every other guarded path would show its page inside the
      dashboard layout. */
  lemma AuthenticatedPagesShow(i: nat)
    requires i < |DashboardPaths|
    ensures Render(ResolveIn(RouteTable(Some(true)), DashboardPaths[i])) == Show(DashboardPages[i], true)
  {
    var table := RouteTable(Some(true));
    TableShape(Some(true));
    var route := table[|PublicPaths| + 1 + i];
    ResolveAt(table, |PublicPaths| + 1 + i);
    assert route.path == DashboardPaths[i];
    var page := Component(DashboardPages[i]);
    assert route.element == Guard(Some(true), Layout(page));
    TruthyGuardTransparent(Some(true), Layout(page));
    assert Render(Layout(page)) == Show(DashboardPages[i], true);
  }
}
