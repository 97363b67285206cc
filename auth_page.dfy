/**
 * The login page (src/pages/Auth.tsx): where to return after signing in, the
 * submit handler's error and loading sequence, and the redirect for a visitor
 * who is already signed in.
 */
module AuthPage {
  import opened Common
  import opened AuthContext

  /** `location.state?.from?.pathname || '/'`: the requested path, unless absent or empty. */
  function ReturnPath(fromPathname: Option<string>): (r: string)
    ensures r != ""
    ensures fromPathname.Some? && fromPathname.value != "" ==> r == fromPathname.value
    ensures fromPathname.None? || fromPathname.value == "" ==> r == "/"
  {
    if fromPathname.Some? && fromPathname.value != "" then fromPathname.value else "/"
  }

  const FailedToLogin: string := "Failed to login."

  /** The text shown for whatever `login` threw. */
  function ErrorText(t: Thrown): string {
    match t
    case ErrorObject(message) => message
    case OtherValue => FailedToLogin
  }

  datatype View = NavigateHome | LoginForm

  /** A signed-in visitor is sent to `/` and the form is not rendered. */
  function ViewFor(isAuthenticated: bool): (v: View)
    ensures v == NavigateHome <==> isAuthenticated
  {
    if isAuthenticated then NavigateHome else LoginForm
  }

  class LoginPage {
    var email: string
    var password: string
    var isLoading: bool
    var error: string

    constructor ()
      ensures email == "" && password == "" && !isLoading && error == ""
    {
      email, password, isLoading, error := "", "", false, "";
    }

    /** The submit handler's first two steps, before `login` is awaited: clear the error, show loading. */
    method BeginSubmit()
      modifies this
      ensures error == "" && isLoading
      ensures email == old(email) && password == old(password)
    {
      error := "";
      isLoading := true;
    }

    /**
     * The rest of the handler once `login` has settled with `outcome`: on success
     * navigate to `from`; on failure show the thrown message, or "Failed to
     * login." for a thrown value that is not an `Error`; in both cases stop loading.
     */
    method FinishSubmit(outcome: Outcome, from: string) returns (navigatedTo: Option<string>)
      modifies this
      ensures !isLoading
      ensures email == old(email) && password == old(password)
      ensures outcome.Resolved? ==> navigatedTo == Some(from) && error == old(error)
      ensures outcome.Rejected? && outcome.reason.ErrorObject? ==>
        navigatedTo == None && error == outcome.reason.message
      ensures outcome.Rejected? && outcome.reason.OtherValue? ==> navigatedTo == None && error == FailedToLogin
    {
      if outcome.Resolved? {
        navigatedTo := Some(from);
      } else {
        error := ErrorText(outcome.reason);
        navigatedTo := None;
      }
      isLoading := false;
    }

    /** The form's submit handler against the session store; returns where it navigated, if anywhere. */
    method HandleSubmit(auth: AuthProvider, from: string) returns (navigatedTo: Option<string>)
      modifies this, auth
      ensures auth.State() == LoginStep(old(auth.State()), old(email), old(password)).0
      ensures email == old(email) && password == old(password)
      ensures !isLoading
      ensures HasMatch(old(email), old(password)) ==> navigatedTo == Some(from) && error == ""
      ensures !HasMatch(old(email), old(password)) ==> navigatedTo == None && error == InvalidCredentials
    {
      BeginSubmit();
      var outcome := auth.Login(email, password);
      LoginResolvesIff(old(auth.State()), email, password);
      if outcome.Rejected? {
        LoginFailure(old(auth.State()), email, password);
      }
      navigatedTo := FinishSubmit(outcome, from);
    }
  }
}
