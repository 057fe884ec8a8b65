/**
 * The sign-in form of src/pages/auth/Login.tsx. A submission clears the
 * error and sets loading, refuses blank credentials before any request,
 * otherwise posts them to the login or register endpoint and either signs
 * the user in and goes home or shows the server's message (or a fixed
 * fallback). Loading is cleared on every path. The server's reply is a
 * parameter.
 */
module Login {
  import opened Optional
  import Text
  import opened AuthStore
  import PrivateRoute

  const RequiredMessage := "Email and password are required."
  const FallbackMessage := "Something went wrong. Please try again."
  const LoginEndpoint := "https://reqres.in/api/login"
  const RegisterEndpoint := "https://reqres.in/api/register"
  const HomePath := "/"
  const DefaultEmail := "eve.holt@reqres.in"
  const DefaultPassword := "pistol"

  /** The reply to the credentials post: a token, or a rejection whose body may carry an `error` field. */
  datatype AuthReply = Accepted(token: string) | Refused(errorField: Option<string>)

  datatype AuthRequest = AuthRequest(url: string, email: string, password: string)

  function Endpoint(isRegistering: bool): (url: string)
    ensures url == RegisterEndpoint <==> isRegistering
    ensures url == LoginEndpoint <==> !isRegistering
  {
    if isRegistering then RegisterEndpoint else LoginEndpoint
  }

  /** `apiRequest`'s error: the server's `error` field when it is a non-empty string, the fallback otherwise. */
  function FailureMessage(errorField: Option<string>): (m: string)
    ensures m != ""
    ensures errorField.Some? && errorField.value != "" ==> m == errorField.value
    ensures errorField.None? || errorField.value == "" ==> m == FallbackMessage
  {
    if errorField.Some? && errorField.value != "" then errorField.value else FallbackMessage
  }

  /**
   * `!email.trim() || !password.trim()`: a field that is empty after
   * trimming, which is exactly a field made of whitespace only.
   */
  function MissingCredentials(email: string, password: string): (missing: bool)
    ensures missing <==> Text.AllWhitespace(email) || Text.AllWhitespace(password)
  {
    Text.Trim(email) == "" || Text.Trim(password) == ""
  }

  /** The effect that sends an already signed-in visitor home. */
  function RedirectWhenSignedIn(s: Session): (to: Option<string>)
    ensures to.Some? <==> s.isAuthenticated
    ensures to.Some? ==> to.value == HomePath
  {
    if s.isAuthenticated then Some(HomePath) else None
  }

  /**
   * A reply that accepts with an empty token signs the session in, so the
   * sign-in page sends the visitor home, yet the guarded pages refuse the
   * empty token and send them back to sign in: the two redirects alternate.
   */
  lemma EmptyTokenBounces(s: Session, u: UserInfo)
    ensures RedirectWhenSignedIn(Apply(s, SignIn("", u))) == Some(HomePath)
    ensures PrivateRoute.Guard(Apply(s, SignIn("", u))) == PrivateRoute.Redirect(PrivateRoute.LoginPath, true)
  {
  }

  class LoginForm {
    const store: Store
    var isRegistering: bool
    var email: string
    var password: string
    var loading: bool
    var error: Option<string>

    constructor (store: Store)
      ensures this.store == store
      ensures !isRegistering && email == DefaultEmail && password == DefaultPassword
      ensures !loading && error == None
    {
      this.store := store;
      isRegistering := false;
      email, password := DefaultEmail, DefaultPassword;
      loading, error := false, None;
    }

    method EditEmail(e: string)
      modifies this
      ensures email == e
      ensures password == old(password) && isRegistering == old(isRegistering)
      ensures loading == old(loading) && error == old(error)
    {
      email := e;
    }

    method EditPassword(p: string)
      modifies this
      ensures password == p
      ensures email == old(email) && isRegistering == old(isRegistering)
      ensures loading == old(loading) && error == old(error)
    {
      password := p;
    }

    /** The link under the form: switches between signing in and registering. */
    method ToggleMode()
      modifies this
      ensures isRegistering == !old(isRegistering)
      ensures email == old(email) && password == old(password)
      ensures loading == old(loading) && error == old(error)
    {
      isRegistering := !isRegistering;
    }

    /** `handleSubmit` up to the request: the error is cleared and the form shows it is busy. */
    method BeginSubmit()
      modifies this
      ensures loading && error == None
      ensures email == old(email) && password == old(password) && isRegistering == old(isRegistering)
    {
      error := None;
      loading := true;
    }

    /**
     * The rest of `handleSubmit`, with the server's reply as a parameter.
     * Returns the request that was sent, if any, and where the page
     * navigated, if anywhere.
     */
    method FinishSubmit(reply: AuthReply) returns (request: Option<AuthRequest>, navigateTo: Option<string>)
      requires store.Valid()
      modifies this, store
      ensures store.Valid() && !loading
      ensures email == old(email) && password == old(password) && isRegistering == old(isRegistering)
      ensures MissingCredentials(email, password) ==>
        && request == None && navigateTo == None
        && error == Some(RequiredMessage)
        && store.State() == old(store.State()) && store.history == old(store.history)
      ensures !MissingCredentials(email, password) ==>
        request == Some(AuthRequest(Endpoint(isRegistering), email, password))
      ensures !MissingCredentials(email, password) && reply.Accepted? ==>
        && error == old(error) && navigateTo == Some(HomePath)
        && store.history == old(store.history) + [SignIn(reply.token, UserInfo(email))]
        && store.State() == Apply(old(store.State()), SignIn(reply.token, UserInfo(email)))
      ensures !MissingCredentials(email, password) && reply.Refused? ==>
        && error == Some(FailureMessage(reply.errorField)) && navigateTo == None
        && store.State() == old(store.State()) && store.history == old(store.history)
    {
      request, navigateTo := None, None;

      if MissingCredentials(email, password) {
        error := Some(RequiredMessage);
        loading := false;
        return;
      }

      request := Some(AuthRequest(Endpoint(isRegistering), email, password));
      match reply {
        case Accepted(token) =>
          store.Login(token, UserInfo(email));
          navigateTo := Some(HomePath);
        case Refused(errorField) =>
          error := Some(FailureMessage(errorField));
      }
      loading := false;
    }
  }

  /** Two toggles restore the original mode. */
  method ToggleTwice(form: LoginForm)
    modifies form
    ensures form.isRegistering == old(form.isRegistering)
  {
    form.ToggleMode();
    form.ToggleMode();
  }

  /**
   * From a fresh store: the guard redirects to the login page; a submission
   * the server accepts with a non-empty token signs in and goes home, after
   * which the guard admits.
   */
  method SignInScenario(token: string) returns (before: PrivateRoute.Route, after: PrivateRoute.Route)
    requires token != ""
    ensures before == PrivateRoute.Redirect(PrivateRoute.LoginPath, true)
    ensures after == PrivateRoute.Outlet
  {
    var store := new Store();
    before := PrivateRoute.Guard(store.State());
    var form := new LoginForm(store);
    assert Text.Trim(DefaultEmail) != "" by {
      assert !Text.IsWhitespace(DefaultEmail[0]);
    }
    assert Text.Trim(DefaultPassword) != "" by {
      assert !Text.IsWhitespace(DefaultPassword[0]);
    }
    form.BeginSubmit();
    var request, navigateTo := form.FinishSubmit(Accepted(token));
    assert navigateTo == Some(HomePath) && form.error == None;
    after := PrivateRoute.Guard(store.State());
  }
}
