/** Application start-up: the first profile emission decides where a returning user lands.
    Also relates every landing decision (start-up, login, registration) to the route table. */
module AppComponent {
  import opened Wrappers
  import opened Domain
  import opened Guards
  import opened Routes
  import LoginPage
  import RegisterPage

  /** `ngOnInit`: only the first emission counts; without a profile the login screen stays. */
  function StartupNavigation(profiles: seq<Option<UserProfile>>): (r: Option<Navigation>)
    ensures r.None? <==> profiles == [] || profiles[0].None?
    ensures r.Some? ==> r.value.replaceUrl
    ensures r.Some? ==> (r.value.url == "/official-dashboard" <==> profiles[0].value.role == Official)
    ensures r.Some? && profiles[0].value.role != Official ==> r.value.url == "/tabs/home"
  {
    assert "/official-dashboard"[1] != "/tabs/home"[1];
    if profiles == [] then None
    else match profiles[0]
      case None => None
      case Some(p) => Some(if p.role == Official then Navigation("/official-dashboard", true) else Navigation("/tabs/home", true))
  }

  /** Emissions after the first never change the start-up decision. */
  lemma StartupFirstOnly(profiles: seq<Option<UserProfile>>, later: seq<Option<UserProfile>>)
    requires profiles != []
    ensures StartupNavigation(profiles + later) == StartupNavigation(profiles)
  {
    assert (profiles + later)[0] == profiles[0];
  }

  /** Start-up and login agree on where a user with a profile lands. */
  lemma StartupMatchesLogin(p: UserProfile, later: seq<Option<UserProfile>>)
    ensures StartupNavigation([Some(p)] + later) == Some(LoginPage.Landing(Some(p)))
  {
  }

  /** The page a signed-in user is sent to after login lets them in. */
  lemma LoginLandingOpens(authStates: seq<Option<User>>, profiles: seq<Option<UserProfile>>, p: UserProfile)
    requires SignedInAs(authStates, profiles, p)
    ensures Visit(LoginPage.Landing(Some(p)).url, authStates, profiles).Shown?
  {
    match p.role
    case Official =>
      assert LoginPage.Landing(Some(p)).url == RoleHome(p.role);
      RoleHomeOpens(authStates, profiles, p);
    case Resident =>
      ResidentLandingRoute();
      var res := ResidentHome;
      assert RunGuard(AuthCheck, res.role, authStates, profiles) == Allow;
      assert RunGuard(RoleCheck, res.role, authStates, profiles) == Allow;
      assert forall i :: 0 <= i < |res.guards| ==> RunGuard(res.guards[i], res.role, authStates, profiles) == Allow;
  }

  /** The page start-up sends a returning user to lets them in. */
  lemma StartupLandingOpens(authStates: seq<Option<User>>, profiles: seq<Option<UserProfile>>, p: UserProfile)
    requires SignedInAs(authStates, profiles, p) && profiles[0] == Some(p)
    ensures StartupNavigation(profiles).Some?
    ensures Visit(StartupNavigation(profiles).value.url, authStates, profiles).Shown?
  {
    assert profiles == [Some(p)] + profiles[1..];
    StartupMatchesLogin(p, profiles[1..]);
    LoginLandingOpens(authStates, profiles, p);
  }

  /** A freshly registered user whose profile has loaded is let into the page registration sends
      them to. */
  lemma RegisterLandingOpens(authStates: seq<Option<User>>, profiles: seq<Option<UserProfile>>, p: UserProfile)
    requires SignedInAs(authStates, profiles, p)
    ensures Visit(RegisterPage.Landing(p.role).url, authStates, profiles).Shown?
  {
    RoleHomeOpens(authStates, profiles, p);
  }

  /** Signed in without a profile document, a login lands on the resident tabs, where the role
      guard waits for a profile that never comes. */
  lemma MissingProfileWaits(authStates: seq<Option<User>>, n: nat)
    requires authStates != [] && authStates[0].Some?
    ensures Visit(LoginPage.Landing(None).url, authStates, seq(n, _ => None)) == Waiting
  {
    ResidentLandingRoute();
    var profiles: seq<Option<UserProfile>> := seq(n, _ => None);
    assert RoleGuard(Some(Resident), profiles) == Pending;
    assert RunGuard(ResidentHome.guards[0], ResidentHome.role, authStates, profiles) == Allow;
    assert ResidentHome.guards[1..] == [RoleCheck];
  }
}
