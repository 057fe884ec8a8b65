/**
 * The route guard of src/routes/PrivateRoute.tsx: it reads the session and
 * either renders the protected subtree or redirects to the login page,
 * replacing the history entry.
 */
module PrivateRoute {
  import opened Optional
  import opened AuthStore

  const LoginPath := "/login"

  datatype Route = Outlet | Redirect(to: string, replace: bool)

  /** Admit when `isAuthenticated` holds and the token is a non-empty string; otherwise redirect. */
  function Guard(s: Session): (r: Route)
    ensures r.Outlet? <==> s.isAuthenticated && s.token.Some? && s.token.value != ""
    ensures r.Redirect? ==> r.to == LoginPath && r.replace
  {
    if !s.isAuthenticated || !HasToken(s) then Redirect(LoginPath, true) else Outlet
  }

  /** An empty token is refused even when the session claims to be authenticated. */
  lemma EmptyTokenRejected(u: Option<UserInfo>)
    ensures Guard(Session(Some(""), u, true)) == Redirect(LoginPath, true)
  {
  }

  lemma GuardAfterSignOut(s: Session)
    ensures Guard(Apply(s, SignOut)) == Redirect(LoginPath, true)
  {
  }

  lemma GuardAfterSignIn(s: Session, t: string, u: UserInfo)
    requires t != ""
    ensures Guard(Apply(s, SignIn(t, u))) == Outlet
  {
  }

  /**
   * On every state the store can reach, the flag is redundant: the guard
   * admits exactly when a non-empty token is held.
   */
  lemma {:induction false} GuardOnReachable(acts: seq<Action>)
    ensures Guard(Run(Initial(), acts)) == Outlet <==> HasToken(Run(Initial(), acts))
  {
    ReachableConsistent(acts);
  }
}
