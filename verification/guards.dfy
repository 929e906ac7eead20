/** The two route guards. Each reads an authentication stream, modelled as the sequence of
    values it has emitted so far; a guard that is still waiting for a value is `Pending`. */
module Guards {
  import opened Wrappers
  import opened Domain

  /** A signed-in user of the identity provider (`authState$`). */
  datatype User = User(uid: string)

  /** A guard's verdict: let the navigation through, refuse it after redirecting, or not yet decided. */
  datatype GuardResult = Allow | Deny(redirect: Navigation) | Pending

  const LoginNavigation := Navigation("/auth/login", false)

  /** `authGuard`: decides on the first authentication state only; a signed-out state redirects
      to the login screen. */
  function AuthGuard(authStates: seq<Option<User>>): (r: GuardResult)
    ensures r == Pending <==> authStates == []
    ensures r == Allow <==> authStates != [] && authStates[0].Some?
    ensures r.Deny? ==> r == Deny(LoginNavigation)
  {
    if authStates == [] then Pending
    else if authStates[0].Some? then Allow
    else Deny(LoginNavigation)
  }

  /** Later authentication states never change `authGuard`'s verdict. */
  lemma AuthGuardFirstOnly(authStates: seq<Option<User>>, later: seq<Option<User>>)
    requires authStates != []
    ensures AuthGuard(authStates + later) == AuthGuard(authStates)
  {
    assert (authStates + later)[0] == authStates[0];
  }

  /** The body of `roleGuard`'s `map`: a missing profile goes to the login screen, the
      required role is let through, any other role is sent to its own start page.
      `required` is `None` when the route carries no role. */
  function DecideRole(profile: Option<UserProfile>, required: Option<Role>): (r: GuardResult)
    ensures profile.None? ==> r == Deny(LoginNavigation)
    ensures profile.Some? ==> (r == Allow <==> required == Some(profile.value.role))
    ensures profile.Some? && r != Allow ==> r == Deny(Navigation(RoleHome(profile.value.role), false))
  {
    match profile
    case None => Deny(LoginNavigation)
    case Some(p) =>
      if required == Some(p.role) then Allow
      else Deny(Navigation(RoleHome(p.role), false))
  }

  /** `roleGuard`: waits for the first profile that is not `null` and decides on it alone. */
  function RoleGuard(required: Option<Role>, profiles: seq<Option<UserProfile>>): (r: GuardResult)
    ensures r == Pending <==> forall i :: 0 <= i < |profiles| ==> profiles[i].None?
    ensures r != Pending ==> exists i :: 0 <= i < |profiles| && profiles[i].Some?
                                         && (forall j :: 0 <= j < i ==> profiles[j].None?)
                                         && r == DecideRole(profiles[i], required)
  {
    match FirstSome(profiles)
    case None => Pending
    case Some(p) => DecideRole(Some(p), required)
  }

  /** The `!profile` branch of `roleGuard` is dead: the guard never sends anyone to the login screen. */
  lemma RoleGuardNeverToLogin(required: Option<Role>, profiles: seq<Option<UserProfile>>)
    ensures RoleGuard(required, profiles) != Deny(LoginNavigation)
  {
    if RoleGuard(required, profiles).Deny? {
      var p := FirstSome(profiles).value;
      assert RoleHome(p.role)[1] != LoginNavigation.url[1];
    }
  }

  /** Profiles that are still `null` are skipped. */
  lemma RoleGuardSkipsNull(required: Option<Role>, profiles: seq<Option<UserProfile>>)
    ensures RoleGuard(required, [None] + profiles) == RoleGuard(required, profiles)
  {
    assert ([None] + profiles)[1..] == profiles;
  }

  /** A user of the wrong role is sent to the start page of the role they have. */
  lemma RoleGuardMismatch(required: Role, p: UserProfile, later: seq<Option<UserProfile>>)
    requires p.role != required
    ensures RoleGuard(Some(required), [Some(p)] + later) == Deny(Navigation(RoleHome(p.role), false))
  {
  }
}
