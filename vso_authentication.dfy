/**
 * VsoAuthenticationProvider: the Azure AD session kept for cloud accounts.
 * Its whole state is one nullable AuthenticationResult. The AAD library's
 * token refresh and its sign-in callback are foreign; their answers are
 * supplied as inputs.
 */
module VsoAuthentication {
  import opened Common

  /** The AAD library's token, opaque to the provider. */
  datatype AuthenticationResult = AuthenticationResult(accessToken: string, refreshToken: string)

  /**
   * What refreshAadAccessToken does with a stored result: it returns a
   * (possibly null) result or throws an IOException with the given message.
   */
  datatype Refresh =
    | Refreshed(result: Option<AuthenticationResult>)
    | RefreshFailed(ioMessage: string)

  /**
   * How getAadAccessTokenAsync ends: its callback's onSuccess or onFailure
   * (with any throwable), or an IOException with the given message when
   * starting.
   */
  datatype SignIn =
    | CallbackSuccess(result: Option<AuthenticationResult>)
    | CallbackFailure(throwable: Throwable)
    | StartFailed(ioMessage: string)

  /**
   * The stored result after isAuthenticated: nothing stored stays nothing
   * (no refresh is made); otherwise the refreshed result, or nothing when the
   * refresh fails.
   */
  function AfterCheck(stored: Option<AuthenticationResult>, refresh: Refresh): Option<AuthenticationResult>
  {
    if stored.None? then None
    else if refresh.RefreshFailed? then None
    else refresh.result
  }

  /** The stored result after authenticateAsync: kept only from a non-null success callback. */
  function AfterSignIn(signIn: SignIn): Option<AuthenticationResult>
  {
    if signIn.CallbackSuccess? then signIn.result else None
  }

  /** What the listener hears after onAuthenticating. */
  function SignInReport(signIn: SignIn): ListenerEvent
  {
    match signIn
    case CallbackSuccess(result) => if result.Some? then OnSuccess else OnFailure(None)
    case CallbackFailure(throwable) => OnFailure(Some(throwable))
    case StartFailed(ioMessage) => OnFailure(Some(IOException(ioMessage)))
  }

  /** Success is reported exactly when a result is stored, and then it is the callback's result. */
  lemma SignInSuccessIffStored(signIn: SignIn)
    ensures SignInReport(signIn) == OnSuccess <==> AfterSignIn(signIn).Some?
    ensures AfterSignIn(signIn).Some? ==> signIn == CallbackSuccess(AfterSignIn(signIn))
  {
  }

  /** Every failure clears the session, and a null success result is a failure with no error. */
  lemma SignInFailureClears(signIn: SignIn)
    ensures SignInReport(signIn).OnFailure? ==> AfterSignIn(signIn) == None
    ensures signIn == CallbackSuccess(None) ==> SignInReport(signIn) == OnFailure(None)
    ensures !signIn.CallbackSuccess? ==> SignInReport(signIn) == OnFailure(Some(
              if signIn.CallbackFailure? then signIn.throwable else IOException(signIn.ioMessage)))
  {
  }

  /**
   * A session check keeps no result that the AAD library did not just hand
   * back: a result still stored after the check is the refreshed one.
   */
  lemma CheckKeepsOnlyRefreshed(stored: Option<AuthenticationResult>, refresh: Refresh)
    ensures AfterCheck(stored, refresh).Some? ==> stored.Some? && refresh == Refreshed(AfterCheck(stored, refresh))
  {
  }

  /**
   * One call on the provider, with the answers of the AAD library it needs.
   * Used to state what holds over a whole session.
   */
  datatype Call =
    | Check(refresh: Refresh)
    | Clear
    | Authenticate(signIn: SignIn)

  /** The stored result after a sequence of calls, starting from `stored`. */
  function Session(stored: Option<AuthenticationResult>, calls: seq<Call>): Option<AuthenticationResult>
    decreases |calls|
  {
    if calls == [] then stored
    else
      var next := match calls[0]
        case Check(refresh) => AfterCheck(stored, refresh)
        case Clear => None
        case Authenticate(signIn) => AfterSignIn(signIn);
      Session(next, calls[1..])
  }

  /** A call that can put a result into an empty session. */
  predicate Restores(c: Call)
  {
    c.Authenticate? && c.signIn.CallbackSuccess? && c.signIn.result.Some?
  }

  /**
   * Once the session is empty, no check can bring it back: without a
   * successful sign-in among the calls, it stays empty, whatever the
   * refreshes would have answered.
   */
  lemma {:induction false} EmptySessionStaysEmpty(calls: seq<Call>)
    requires forall i :: 0 <= i < |calls| ==> !Restores(calls[i])
    ensures Session(None, calls) == None
    decreases |calls|
  {
    if calls != [] {
      assert forall i :: 0 <= i < |calls[1..]| ==> !Restores(calls[1..][i]) by {
        forall i | 0 <= i < |calls[1..]| ensures !Restores(calls[1..][i]) {
          assert calls[1..][i] == calls[i + 1];
        }
      }
      EmptySessionStaysEmpty(calls[1..]);
    }
  }

  class VsoAuthenticationProvider {
    /** The AAD session; None when signed out, cleared, or after a failed refresh. */
    var authenticationResult: Option<AuthenticationResult>

    /** The single provider, before any sign-in. */
    constructor ()
      ensures authenticationResult == None
    {
      authenticationResult := None;
    }

    function GetAuthenticationResult(): Option<AuthenticationResult>
      reads this
    {
      authenticationResult
    }

    /** A cloud provider never hands out TFS-style credentials. */
    function GetAuthenticationInfo(): (info: Option<AuthenticationInfo>)
      ensures info == None
    {
      None
    }

    /**
     * Checks the session, refreshing a stored result first: `refresh` is
     * what the AAD library answers if asked. Returns whether the session is
     * valid and whether the refresh was asked for.
     */
    method IsAuthenticated(refresh: Refresh) returns (authenticated: bool, refreshed: bool)
      modifies this
      ensures refreshed <==> old(authenticationResult).Some?
      ensures authenticationResult == AfterCheck(old(authenticationResult), refresh)
      ensures authenticated <==> authenticationResult.Some?
      ensures authenticated ==> refresh.Refreshed? && authenticationResult == refresh.result
    {
      refreshed := false;
      if authenticationResult.Some? {
        refreshed := true;
        match refresh
        case Refreshed(result) =>
          authenticationResult := result;
        case RefreshFailed(_) =>
          authenticationResult := None;
      }
      authenticated := authenticationResult.Some?;
    }

    method ClearAuthenticationDetails()
      modifies this
      ensures authenticationResult == None
    {
      authenticationResult := None;
    }

    /**
     * Signs in through the AAD library; `signIn` is how that ends. Returns
     * the calls made on the listener.
     */
    method AuthenticateAsync(serverUri: string, signIn: SignIn) returns (events: seq<ListenerEvent>)
      modifies this
      ensures WellFormedTrace(events)
      ensures events[1] == SignInReport(signIn)
      ensures authenticationResult == AfterSignIn(signIn)
    {
      events := [OnAuthenticating];
      match signIn
      case StartFailed(ioMessage) =>
        ClearAuthenticationDetails();
        events := events + [OnFailure(Some(IOException(ioMessage)))];
      case CallbackFailure(throwable) =>
        ClearAuthenticationDetails();
        events := events + [OnFailure(Some(throwable))];
      case CallbackSuccess(result) =>
        if result.None? {
          // the user closed the browser window without signing in
          ClearAuthenticationDetails();
          events := events + [OnFailure(None)];
        } else {
          authenticationResult := result;
          events := events + [OnSuccess];
        }
    }
  }
}
