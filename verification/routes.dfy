/** The application's route table and how a URL is resolved against it: path matching with
    `:param` segments, full-match redirects re-matched at their own level, one level of child
    routes, and the route's guards run in order. */
module Routes {
  import opened Wrappers
  import opened Seqs
  import opened Domain
  import opened Guards

  /** A guard named in a route's `canActivate`. */
  datatype Guard = AuthCheck | RoleCheck

  /** What a route does once matched: redirect (relative to its level) or show a page. */
  datatype Target = Redirect(to: seq<string>) | Page(component: string)

  /** A child route; the children in this table carry no guards and no parameters. */
  datatype ChildRoute = ChildRoute(path: seq<string>, target: Target)

  /** A top-level route: its path split into segments, its guards and the role in its `data`. */
  datatype Route = Route(path: seq<string>, target: Target, guards: seq<Guard>, role: Option<Role>, children: seq<ChildRoute>)

  /** The route table (`routes`), in declaration order. */
  const AppRoutes: seq<Route> := [
    Route([], Redirect(["auth", "login"]), [], None, []),
    Route(["auth", "login"], Page("LoginPage"), [], None, []),
    Route(["auth", "register"], Page("RegisterPage"), [], None, []),
    Route(["tabs"], Page("TabsPage"), [AuthCheck, RoleCheck], Some(Resident), [
      ChildRoute(["home"], Page("HomePage")),
      ChildRoute(["search"], Page("SearchPage")),
      ChildRoute(["profile"], Page("ProfilePage")),
      ChildRoute([], Redirect(["home"]))]),
    Route(["home"], Redirect(["tabs", "home"]), [], None, []),
    Route(["announcement", ":id"], Page("AnnouncementDetailPage"), [AuthCheck], None, []),
    Route(["official-dashboard"], Page("DashboardPage"), [AuthCheck, RoleCheck], Some(Official), []),
    Route(["announcement-form"], Page("AnnouncementFormPage"), [AuthCheck, RoleCheck], Some(Official), [])
  ]

  /** Bound on the redirects followed while resolving one URL. */
  const RedirectLimit: nat := 4

  /** A URL's path segments: split on '/', empty pieces kept (`"a//b"` gives `"a"`, `""`, `"b"`). */
  function SplitSlash(s: string): (r: seq<string>)
    ensures |r| >= 1
    decreases |s|
  {
    if s == [] then [""]
    else
      var rest := SplitSlash(s[1..]);
      if s[0] == '/' then [""] + rest else [[s[0]] + rest[0]] + rest[1..]
  }

  /** The segments of an absolute URL: the path after the leading '/', split on '/'; the root has none. */
  function UrlSegments(url: string): seq<string> {
    var path := if url != [] && url[0] == '/' then url[1..] else url;
    if path == [] then [] else SplitSlash(path)
  }

  predicate IsParam(segment: string) {
    |segment| > 0 && segment[0] == ':'
  }

  /** The pattern matches the first `|pattern|` segments of `url`; parameters match anything. */
  predicate PrefixMatches(pattern: seq<string>, url: seq<string>) {
    |pattern| <= |url| && forall i :: 0 <= i < |pattern| ==> IsParam(pattern[i]) || pattern[i] == url[i]
  }

  /** The route parameters bound by matching `pattern` against `url`. */
  function Params(pattern: seq<string>, url: seq<string>): (r: map<string, string>)
    requires PrefixMatches(pattern, url)
    ensures forall i :: 0 <= i < |pattern| && IsParam(pattern[i]) ==> pattern[i][1..] in r
    decreases |pattern|
  {
    if pattern == [] then map[]
    else
      var rest := Params(pattern[1..], url[1..]);
      if IsParam(pattern[0]) then rest[pattern[0][1..] := url[0]] else rest
  }

  /** The outcome of matching a URL: the final URL after redirects, the pages shown (parent
      first), the guards to run, the route's required role and its parameters. */
  datatype Resolved = Resolved(url: seq<string>, pages: seq<string>, guards: seq<Guard>, role: Option<Role>,
                               params: map<string, string>)

  /** Matching `url` against `children`, trying them in order from index `i`; a redirect
      restarts at the first child. Returns the child's URL and page. */
  function MatchChildren(children: seq<ChildRoute>, i: nat, url: seq<string>, fuel: nat): (r: Option<(seq<string>, string)>)
    ensures r.Some? ==> exists k :: 0 <= k < |children| && children[k].target == Page(r.value.1)
    decreases fuel, |children| - i
  {
    if i >= |children| then None
    else
      var c := children[i];
      if c.path != url then MatchChildren(children, i + 1, url, fuel)
      else match c.target
        case Page(p) => Some((url, p))
        case Redirect(to) => if fuel == 0 then None else MatchChildren(children, 0, to, fuel - 1)
  }

  /** Matching `url` against `routes` from index `i`. A redirect must match the whole URL (all
      redirects of the table are `pathMatch: 'full'`) and restarts at the first route; a page
      without children must match the whole URL; a page with children passes the rest of the
      URL to them. */
  function MatchAt(routes: seq<Route>, i: nat, url: seq<string>, fuel: nat): (r: Option<Resolved>)
    ensures r.Some? ==> |r.value.pages| >= 1
    ensures r.Some? ==> exists k :: 0 <= k < |routes| && routes[k].target == Page(r.value.pages[0])
                                    && routes[k].guards == r.value.guards && routes[k].role == r.value.role
    decreases fuel, |routes| - i
  {
    if i >= |routes| then None
    else
      var route := routes[i];
      if !PrefixMatches(route.path, url) then MatchAt(routes, i + 1, url, fuel)
      else
        var rest := url[|route.path|..];
        match route.target
        case Redirect(to) =>
          if rest != [] then MatchAt(routes, i + 1, url, fuel)
          else if fuel == 0 then None
          else MatchAt(routes, 0, to, fuel - 1)
        case Page(p) =>
          if route.children == [] then
            if rest == [] then Some(Resolved(url, [p], route.guards, route.role, Params(route.path, url)))
            else MatchAt(routes, i + 1, url, fuel)
          else
            match MatchChildren(route.children, 0, rest, fuel)
            case None => MatchAt(routes, i + 1, url, fuel)
            case Some((childUrl, childPage)) =>
              Some(Resolved(url[..|route.path|] + childUrl, [p, childPage], route.guards, route.role,
                            Params(route.path, url)))
  }

  /** The route an absolute URL resolves to in the application's table. */
  function Resolve(url: string): (r: Option<Resolved>)
    ensures r.Some? ==> |r.value.pages| >= 1
    ensures r.Some? ==> exists k :: 0 <= k < |AppRoutes| && AppRoutes[k].target == Page(r.value.pages[0])
                                    && AppRoutes[k].guards == r.value.guards && AppRoutes[k].role == r.value.role
  {
    MatchAt(AppRoutes, 0, UrlSegments(url), RedirectLimit)
  }

  /** The verdict of one guard of a route for the current authentication streams. */
  function RunGuard(g: Guard, role: Option<Role>, authStates: seq<Option<User>>, profiles: seq<Option<UserProfile>>)
    : GuardResult
  {
    match g
    case AuthCheck => AuthGuard(authStates)
    case RoleCheck => RoleGuard(role, profiles)
  }

  /** The guards' combined verdict: in declaration order, the first verdict that is not
      `Allow` decides; a guard still waiting holds up the ones after it. */
  function RunGuards(guards: seq<Guard>, role: Option<Role>, authStates: seq<Option<User>>,
                     profiles: seq<Option<UserProfile>>): (r: GuardResult)
    ensures r == Allow <==> forall i :: 0 <= i < |guards| ==> RunGuard(guards[i], role, authStates, profiles) == Allow
    ensures r != Allow ==> exists i :: 0 <= i < |guards| && r == RunGuard(guards[i], role, authStates, profiles)
    decreases |guards|
  {
    if guards == [] then Allow
    else
      var first := RunGuard(guards[0], role, authStates, profiles);
      if first != Allow then first
      else
        var r := RunGuards(guards[1..], role, authStates, profiles);
        assert forall i :: 1 <= i < |guards| ==> guards[i] == guards[1..][i - 1];
        r
  }

  /** What the user ends up with after navigating to a URL. */
  datatype Outcome = Shown(resolved: Resolved) | Redirected(nav: Navigation) | Waiting | NoRoute

  function Visit(url: string, authStates: seq<Option<User>>, profiles: seq<Option<UserProfile>>): (r: Outcome)
    ensures r.Shown? ==> Resolve(url) == Some(r.resolved)
                         && RunGuards(r.resolved.guards, r.resolved.role, authStates, profiles) == Allow
  {
    match Resolve(url)
    case None => NoRoute
    case Some(res) =>
      match RunGuards(res.guards, res.role, authStates, profiles)
      case Allow => Shown(res)
      case Deny(nav) => Redirected(nav)
      case Pending => Waiting
  }

  /** Someone signed in whose first loaded profile is `p`. */
  predicate SignedInAs(authStates: seq<Option<User>>, profiles: seq<Option<UserProfile>>, p: UserProfile) {
    authStates != [] && authStates[0].Some? && FirstSome(profiles) == Some(p)
  }

  /** A path without '/' is a single piece. */
  lemma {:induction false} SplitSlashPlain(s: string)
    requires forall i :: 0 <= i < |s| ==> s[i] != '/'
    ensures SplitSlash(s) == [s]
    decreases |s|
  {
    if s != [] {
      SplitSlashPlain(s[1..]);
      assert [s[0]] + s[1..] == s;
    }
  }

  /** A first character other than '/' joins the first piece. */
  lemma SplitSlashCons(c: char, s: string)
    requires c != '/'
    ensures SplitSlash([c] + s) == [[c] + SplitSlash(s)[0]] + SplitSlash(s)[1..]
  {
    assert ([c] + s)[1..] == s;
  }

  /** Splitting `w + t`, where `w` has no '/' and `t` starts with one, puts `w` in front. */
  lemma {:induction false} SplitSlashSuffix(w: string, t: string)
    requires forall i :: 0 <= i < |w| ==> w[i] != '/'
    requires t != [] && t[0] == '/'
    ensures SplitSlash(w + t) == [w + SplitSlash(t)[0]] + SplitSlash(t)[1..]
    decreases |w|
  {
    if w != [] {
      assert forall i :: 0 <= i < |w[1..]| ==> w[1..][i] == w[i + 1];
      SplitSlashSuffix(w[1..], t);
      SplitSlashSuffixStep(w, t);
    } else {
      var st := SplitSlash(t);
      assert w + t == t;
      assert w + st[0] == st[0];
      assert st == [st[0]] + st[1..];
    }
  }

  /** The inductive step: one more character in front of the first piece. */
  lemma SplitSlashSuffixStep(w: string, t: string)
    requires w != [] && w[0] != '/'
    requires SplitSlash(w[1..] + t) == [w[1..] + SplitSlash(t)[0]] + SplitSlash(t)[1..]
    ensures SplitSlash(w + t) == [w + SplitSlash(t)[0]] + SplitSlash(t)[1..]
  {
    var st := SplitSlash(t);
    var u := w[1..] + t;
    var r := SplitSlash(u);
    assert r[0] == w[1..] + st[0];
    assert r[1..] == st[1..];
    HeadTail(w, t);
    SplitSlashCons(w[0], u);
    HeadTail(w, st[0]);
  }

  lemma HeadTail<T>(w: seq<T>, x: seq<T>)
    requires w != []
    ensures w + x == [w[0]] + (w[1..] + x)
  {
  }

  /** `/name` has the one segment `name`. */
  lemma OneSegmentUrl(name: string)
    requires name != ""
    requires forall i :: 0 <= i < |name| ==> name[i] != '/'
    ensures UrlSegments("/" + name) == [name]
  {
    SplitSlashPlain(name);
    assert ("/" + name)[1..] == name;
  }

  /** `/first/second` has the segments `first` and `second`. */
  lemma TwoSegmentUrl(first: string, second: string)
    requires first != "" && second != ""
    requires forall i :: 0 <= i < |first| ==> first[i] != '/'
    requires forall i :: 0 <= i < |second| ==> second[i] != '/'
    ensures UrlSegments("/" + first + "/" + second) == [first, second]
  {
    SplitSlashPlain(second);
    var tail := "/" + second;
    assert tail[1..] == second;
    assert SplitSlash(tail) == ["", second];
    SplitSlashSuffix(first, tail);
    assert first + SplitSlash(tail)[0] == first;
    assert ("/" + first + "/" + second)[1..] == first + tail;
  }

  const TabsChildren: seq<ChildRoute> := AppRoutes[3].children

  /** Where the resident tabs land: the home tab, behind both guards, for residents. */
  const ResidentHome := Resolved(["tabs", "home"], ["TabsPage", "HomePage"], [AuthCheck, RoleCheck], Some(Resident), map[])

  const OfficialHome := Resolved(["official-dashboard"], ["DashboardPage"], [AuthCheck, RoleCheck], Some(Official), map[])

  /** The empty path redirects to the login screen, which carries no guards. */
  lemma EntryRoute()
    ensures MatchAt(AppRoutes, 0, [], RedirectLimit) == Some(Resolved(["auth", "login"], ["LoginPage"], [], None, map[]))
  {
    var login: seq<string> := ["auth", "login"];
    assert login[2..] == [] && Params(login, login) == map[];
    assert MatchAt(AppRoutes, 1, login, RedirectLimit - 1) == Some(Resolved(login, ["LoginPage"], [], None, map[]));
    assert |AppRoutes[0].path| == 0 && login[0..] != [];
    assert MatchAt(AppRoutes, 0, login, RedirectLimit - 1) == Some(Resolved(login, ["LoginPage"], [], None, map[]));
  }

  /** Registration carries no guards. */
  lemma RegisterRoute()
    ensures MatchAt(AppRoutes, 0, ["auth", "register"], RedirectLimit)
            == Some(Resolved(["auth", "register"], ["RegisterPage"], [], None, map[]))
  {
    var register: seq<string> := ["auth", "register"];
    var r := Resolved(register, ["RegisterPage"], [], None, map[]);
    assert register[2..] == [] && Params(register, register) == map[];
    assert MatchAt(AppRoutes, 2, register, RedirectLimit) == Some(r);
    assert AppRoutes[1].path[1] != register[1];
    assert MatchAt(AppRoutes, 1, register, RedirectLimit) == Some(r);
    assert register[0..] != [];
  }

  /** `/tabs/home` is the resident home tab. */
  lemma {:induction false} TabsHomeRoute(fuel: nat)
    requires fuel >= 1
    ensures MatchAt(AppRoutes, 0, ["tabs", "home"], fuel) == Some(ResidentHome)
  {
    var u: seq<string> := ["tabs", "home"];
    assert AppRoutes[1].path[0] != u[0] && !IsParam(AppRoutes[1].path[0]);
    assert AppRoutes[2].path[0] != u[0] && !IsParam(AppRoutes[2].path[0]);
    assert Params(["tabs"], u) == map[];
    assert u[1..] == ["home"] && u[..1] == ["tabs"];
    assert MatchChildren(TabsChildren, 0, ["home"], fuel) == Some((["home"], "HomePage"));
    assert PrefixMatches(AppRoutes[3].path, u) && AppRoutes[3].path == ["tabs"];
    assert u[..1] + ["home"] == u;
    assert MatchAt(AppRoutes, 3, u, fuel) == Some(ResidentHome);
    assert MatchAt(AppRoutes, 2, u, fuel) == Some(ResidentHome);
    assert MatchAt(AppRoutes, 1, u, fuel) == Some(ResidentHome);
    assert u[|AppRoutes[0].path|..] != [];
  }

  /** `/tabs` lands, through its empty child path, on the home tab. */
  lemma TabsRoute()
    ensures MatchAt(AppRoutes, 0, ["tabs"], RedirectLimit) == Some(ResidentHome)
  {
    var tabs: seq<string> := ["tabs"];
    TabsChildLanding();
    assert tabs[1..] == [] && tabs[..1] == tabs;
    assert Params(["tabs"], tabs) == map[];
    assert tabs[..1] + ["home"] == ["tabs", "home"];
    assert MatchAt(AppRoutes, 3, tabs, RedirectLimit) == Some(ResidentHome);
    assert |AppRoutes[2].path| > |tabs| && |AppRoutes[1].path| > |tabs|;
    assert MatchAt(AppRoutes, 1, tabs, RedirectLimit) == Some(ResidentHome);
    assert tabs[0..] != [];
  }

  /** The empty child path of the tabs redirects to the home tab. */
  lemma TabsChildLanding()
    ensures MatchChildren(TabsChildren, 0, [], RedirectLimit) == Some((["home"], "HomePage"))
  {
    assert MatchChildren(TabsChildren, 0, ["home"], RedirectLimit - 1) == Some((["home"], "HomePage"));
    assert MatchChildren(TabsChildren, 3, [], RedirectLimit) == Some((["home"], "HomePage"));
  }

  /** The top-level `/home` path redirects to the home tab. */
  lemma HomeRedirectRoute()
    ensures MatchAt(AppRoutes, 0, ["home"], RedirectLimit) == Some(ResidentHome)
  {
    var home: seq<string> := ["home"];
    HomeAtThree();
    assert |AppRoutes[2].path| > |home| && |AppRoutes[1].path| > |home|;
    assert MatchAt(AppRoutes, 1, home, RedirectLimit) == Some(ResidentHome);
    assert home[0..] != [];
  }

  lemma HomeAtThree()
    ensures MatchAt(AppRoutes, 3, ["home"], RedirectLimit) == Some(ResidentHome)
  {
    var home: seq<string> := ["home"];
    TabsHomeRoute(RedirectLimit - 1);
    assert home[1..] == [] && AppRoutes[4].path == home;
    assert MatchAt(AppRoutes, 4, home, RedirectLimit) == Some(ResidentHome);
    assert AppRoutes[3].path[0] != home[0];
  }

  /** `/tabs/search` is the search tab, also resident-only. */
  lemma SearchTabRoute()
    ensures MatchAt(AppRoutes, 0, ["tabs", "search"], RedirectLimit)
            == Some(Resolved(["tabs", "search"], ["TabsPage", "SearchPage"], [AuthCheck, RoleCheck], Some(Resident), map[]))
  {
    var u: seq<string> := ["tabs", "search"];
    assert AppRoutes[1].path[0] != u[0] && !IsParam(AppRoutes[1].path[0]);
    assert AppRoutes[2].path[0] != u[0] && !IsParam(AppRoutes[2].path[0]);
    assert Params(["tabs"], u) == map[];
    assert u[1..] == ["search"] && u[..1] == ["tabs"];
    assert TabsChildren[0].path[0] != "search"[..];
    assert MatchChildren(TabsChildren, 1, ["search"], RedirectLimit) == Some((["search"], "SearchPage"));
    assert MatchChildren(TabsChildren, 0, ["search"], RedirectLimit) == Some((["search"], "SearchPage"));
    var r := Resolved(["tabs", "search"], ["TabsPage", "SearchPage"], [AuthCheck, RoleCheck], Some(Resident), map[]);
    assert PrefixMatches(AppRoutes[3].path, u) && AppRoutes[3].path == ["tabs"];
    assert u[..1] + ["search"] == u;
    assert MatchAt(AppRoutes, 3, u, RedirectLimit) == Some(r);
    assert MatchAt(AppRoutes, 2, u, RedirectLimit) == Some(r);
    assert MatchAt(AppRoutes, 1, u, RedirectLimit) == Some(r);
    assert u[|AppRoutes[0].path|..] != [];
  }

  function DetailPage(id: string): Resolved {
    Resolved(["announcement", id], ["AnnouncementDetailPage"], [AuthCheck], None, map["id" := id])
  }

  /** An announcement's detail page needs only a signed-in user, of either role, and binds `id`. */
  lemma DetailRoute(id: string)
    requires id != ""
    ensures MatchAt(AppRoutes, 0, ["announcement", id], RedirectLimit) == Some(DetailPage(id))
  {
    var u: seq<string> := ["announcement", id];
    DetailFromFour(id);
    assert !PrefixMatches(AppRoutes[3].path, u) by { assert |AppRoutes[3].path[0]| != |u[0]|; }
    assert MatchAt(AppRoutes, 3, u, RedirectLimit) == Some(DetailPage(id));
    assert AppRoutes[2].path[0] != u[0] by { assert |AppRoutes[2].path[0]| != |u[0]|; }
    assert AppRoutes[1].path[0] != u[0] by { assert |AppRoutes[1].path[0]| != |u[0]|; }
    assert MatchAt(AppRoutes, 1, u, RedirectLimit) == Some(DetailPage(id));
    assert u[0..] != [];
  }

  lemma DetailFromFour(id: string)
    requires id != ""
    ensures MatchAt(AppRoutes, 4, ["announcement", id], RedirectLimit) == Some(DetailPage(id))
  {
    var u: seq<string> := ["announcement", id];
    assert u[2..] == [];
    assert IsParam(":id") && ":id"[1..] == "id";
    assert Params(["announcement", ":id"], u) == map["id" := id];
    assert MatchAt(AppRoutes, 5, u, RedirectLimit) == Some(DetailPage(id));
    assert !PrefixMatches(AppRoutes[4].path, u) by { assert |AppRoutes[4].path[0]| != |u[0]|; }
  }

  /** The dashboard needs both guards and the official role. */
  lemma DashboardRoute()
    ensures MatchAt(AppRoutes, 0, ["official-dashboard"], RedirectLimit) == Some(OfficialHome)
  {
    var d: seq<string> := ["official-dashboard"];
    DashboardFromFour();
    assert |AppRoutes[3].path[0]| != |d[0]|;
    assert MatchAt(AppRoutes, 3, d, RedirectLimit) == Some(OfficialHome);
    assert |AppRoutes[2].path| > |d| && |AppRoutes[1].path| > |d|;
    assert MatchAt(AppRoutes, 1, d, RedirectLimit) == Some(OfficialHome);
    assert d[0..] != [];
  }

  lemma DashboardFromFour()
    ensures MatchAt(AppRoutes, 4, ["official-dashboard"], RedirectLimit) == Some(OfficialHome)
  {
    var d: seq<string> := ["official-dashboard"];
    assert d[1..] == [] && Params(d, d) == map[];
    assert MatchAt(AppRoutes, 6, d, RedirectLimit) == Some(OfficialHome);
    assert |AppRoutes[5].path| > |d|;
    assert MatchAt(AppRoutes, 5, d, RedirectLimit) == Some(OfficialHome);
    assert |AppRoutes[4].path[0]| != |d[0]|;
  }

  const FormPage := Resolved(["announcement-form"], ["AnnouncementFormPage"], [AuthCheck, RoleCheck], Some(Official), map[])

  /** The announcement form needs both guards and the official role. */
  lemma FormRoute()
    ensures MatchAt(AppRoutes, 0, ["announcement-form"], RedirectLimit) == Some(FormPage)
  {
    var f: seq<string> := ["announcement-form"];
    FormFromFour();
    assert |AppRoutes[3].path[0]| != |f[0]|;
    assert MatchAt(AppRoutes, 3, f, RedirectLimit) == Some(FormPage);
    assert |AppRoutes[2].path| > |f| && |AppRoutes[1].path| > |f|;
    assert MatchAt(AppRoutes, 1, f, RedirectLimit) == Some(FormPage);
    assert f[0..] != [];
  }

  lemma FormFromFour()
    ensures MatchAt(AppRoutes, 4, ["announcement-form"], RedirectLimit) == Some(FormPage)
  {
    var f: seq<string> := ["announcement-form"];
    assert f[1..] == [] && Params(f, f) == map[];
    assert MatchAt(AppRoutes, 7, f, RedirectLimit) == Some(FormPage);
    assert |AppRoutes[6].path[0]| != |f[0]|;
    assert MatchAt(AppRoutes, 6, f, RedirectLimit) == Some(FormPage);
    assert |AppRoutes[5].path| > |f|;
    assert MatchAt(AppRoutes, 5, f, RedirectLimit) == Some(FormPage);
    assert |AppRoutes[4].path[0]| != |f[0]|;
  }

  /** `/official-dashboard` is the dashboard route. */
  lemma OfficialStartRoute()
    ensures Resolve("/official-dashboard") == Some(OfficialHome)
  {
    OfficialStartSegments();
    DashboardRoute();
  }

  lemma OfficialStartSegments()
    ensures UrlSegments("/official-dashboard") == ["official-dashboard"]
  {
    var url := "/official-dashboard";
    assert url[0] == '/' && url[1..] == "official-dashboard";
    SplitSlashPlain("official-dashboard");
  }

  /** `/home` is the resident home tab. */
  lemma ResidentStartRoute()
    ensures Resolve("/home") == Some(ResidentHome)
  {
    OneSegmentUrl("home");
    assert "/" + "home" == "/home";
    HomeRedirectRoute();
  }

  /** The start page of each role resolves to a route that requires exactly that role. */
  lemma RoleHomeRoute(role: Role)
    ensures Resolve(RoleHome(role)) == Some(if role == Official then OfficialHome else ResidentHome)
  {
    match role
    case Official => OfficialStartRoute();
    case Resident => ResidentStartRoute();
  }

  /** `/tabs/home`, where residents land after startup and login, is the resident home tab. */
  lemma ResidentLandingRoute()
    ensures Resolve("/tabs/home") == Some(ResidentHome)
  {
    TwoSegmentUrl("tabs", "home");
    assert "/" + "tabs" + "/" + "home" == "/tabs/home";
    TabsHomeRoute(RedirectLimit);
  }

  /** A signed-in user who reaches their own role's start page is let in. */
  lemma RoleHomeOpens(authStates: seq<Option<User>>, profiles: seq<Option<UserProfile>>, p: UserProfile)
    requires SignedInAs(authStates, profiles, p)
    ensures Visit(RoleHome(p.role), authStates, profiles).Shown?
  {
    RoleHomeRoute(p.role);
    var res := Resolve(RoleHome(p.role)).value;
    assert RunGuard(AuthCheck, res.role, authStates, profiles) == Allow;
    assert RunGuard(RoleCheck, res.role, authStates, profiles) == Allow;
    assert forall i :: 0 <= i < |res.guards| ==> RunGuard(res.guards[i], res.role, authStates, profiles) == Allow;
  }

  /** No redirect loop: whatever URL a signed-in user is turned away from, the page they are sent
      to lets them in. */
  lemma NoRedirectLoop(url: string, authStates: seq<Option<User>>, profiles: seq<Option<UserProfile>>, p: UserProfile)
    requires SignedInAs(authStates, profiles, p)
    ensures Visit(url, authStates, profiles).Redirected? ==>
              Visit(url, authStates, profiles).nav == Navigation(RoleHome(p.role), false)
              && Visit(Visit(url, authStates, profiles).nav.url, authStates, profiles).Shown?
  {
    if Visit(url, authStates, profiles).Redirected? {
      var res := Resolve(url).value;
      var verdict := RunGuards(res.guards, res.role, authStates, profiles);
      var i :| 0 <= i < |res.guards| && verdict == RunGuard(res.guards[i], res.role, authStates, profiles);
      RoleHomeOpens(authStates, profiles, p);
    }
  }

  /** A page whose route names a role is shown only to a signed-in user of that role. */
  lemma RolePagesNeedRole(url: string, authStates: seq<Option<User>>, profiles: seq<Option<UserProfile>>)
    requires Visit(url, authStates, profiles).Shown?
    ensures var res := Visit(url, authStates, profiles).resolved;
            RoleCheck in res.guards ==> FirstSome(profiles).Some? && res.role == Some(FirstSome(profiles).value.role)
    ensures var res := Visit(url, authStates, profiles).resolved;
            AuthCheck in res.guards ==> authStates != [] && authStates[0].Some?
  {
    var res := Visit(url, authStates, profiles).resolved;
    if RoleCheck in res.guards {
      var i :| 0 <= i < |res.guards| && res.guards[i] == RoleCheck;
      assert RunGuard(res.guards[i], res.role, authStates, profiles) == Allow;
    }
    if AuthCheck in res.guards {
      var i :| 0 <= i < |res.guards| && res.guards[i] == AuthCheck;
      assert RunGuard(res.guards[i], res.role, authStates, profiles) == Allow;
    }
  }

  /** The top-level pages of the table with the guards and role of the route showing each. */
  lemma RouteOfPage(k: nat, p: string)
    requires k < |AppRoutes| && AppRoutes[k].target == Page(p)
    ensures p != "LoginPage" && p != "RegisterPage" ==>
              AppRoutes[k].guards != [] && AppRoutes[k].guards[0] == AuthCheck
    ensures p == "TabsPage" ==> k == 3 && AppRoutes[k].role == Some(Resident) && RoleCheck in AppRoutes[k].guards
    ensures p == "DashboardPage" || p == "AnnouncementFormPage" ==>
              AppRoutes[k].role == Some(Official) && RoleCheck in AppRoutes[k].guards
  {
    // The page names differ in length, which tells them apart.
    if k == 0 || k == 4 {
      assert false;
    } else if k == 1 {
      assert p == "LoginPage";
    } else if k == 2 {
      assert p == "RegisterPage";
    } else if k == 3 {
      assert p == "TabsPage";
    } else if k == 5 {
      assert p == "AnnouncementDetailPage";
    } else if k == 6 {
      assert p == "DashboardPage";
    } else {
      assert p == "AnnouncementFormPage";
    }
  }

  /** Which pages require what, read off the table: only the login and registration screens are
      public. */
  lemma OnlyEntryPagesArePublic(url: string, authStates: seq<Option<User>>, profiles: seq<Option<UserProfile>>)
    requires Visit(url, authStates, profiles).Shown?
    ensures var page := Visit(url, authStates, profiles).resolved.pages[0];
            page != "LoginPage" && page != "RegisterPage" ==> authStates != [] && authStates[0].Some?
  {
    var res := Visit(url, authStates, profiles).resolved;
    RolePagesNeedRole(url, authStates, profiles);
    var k :| 0 <= k < |AppRoutes| && AppRoutes[k].target == Page(res.pages[0])
             && AppRoutes[k].guards == res.guards && AppRoutes[k].role == res.role;
    RouteOfPage(k, res.pages[0]);
    if res.pages[0] != "LoginPage" && res.pages[0] != "RegisterPage" {
      assert AuthCheck in res.guards;
    }
  }

  /** The tabs are shown only to residents. */
  lemma TabsAreForResidents(url: string, authStates: seq<Option<User>>, profiles: seq<Option<UserProfile>>)
    requires Visit(url, authStates, profiles).Shown?
    ensures var page := Visit(url, authStates, profiles).resolved.pages[0];
            page == "TabsPage" ==> FirstSome(profiles).Some? && FirstSome(profiles).value.role == Resident
  {
    var res := Visit(url, authStates, profiles).resolved;
    RolePagesNeedRole(url, authStates, profiles);
    var k :| 0 <= k < |AppRoutes| && AppRoutes[k].target == Page(res.pages[0])
             && AppRoutes[k].guards == res.guards && AppRoutes[k].role == res.role;
    RouteOfPage(k, res.pages[0]);
  }

  /** The dashboard and the announcement form are shown only to officials. */
  lemma OfficialPagesAreForOfficials(url: string, authStates: seq<Option<User>>, profiles: seq<Option<UserProfile>>)
    requires Visit(url, authStates, profiles).Shown?
    ensures var page := Visit(url, authStates, profiles).resolved.pages[0];
            page == "DashboardPage" || page == "AnnouncementFormPage" ==>
              FirstSome(profiles).Some? && FirstSome(profiles).value.role == Official
  {
    var res := Visit(url, authStates, profiles).resolved;
    RolePagesNeedRole(url, authStates, profiles);
    var k :| 0 <= k < |AppRoutes| && AppRoutes[k].target == Page(res.pages[0])
             && AppRoutes[k].guards == res.guards && AppRoutes[k].role == res.role;
    RouteOfPage(k, res.pages[0]);
  }
}
