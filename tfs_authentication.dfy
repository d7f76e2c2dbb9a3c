/**
 * TfsAuthenticationProvider: credential negotiation against an on-premises
 * TFS server. The credential prompt and the server probe are foreign calls;
 * their answers for successive attempts are supplied as a sequence of
 * Attempt values.
 */
module TfsAuthentication {
  import opened Common

  /** The retry loop makes at most this many prompts and probes. */
  const MaxAttempts: nat := 4

  /** The HTTP status that makes the loop prompt again. */
  const Unauthorized: int := 401

  /**
   * What one pass of the retry loop meets: the prompt was cancelled (no
   * credentials), or credentials were entered and building the info and
   * probing the server's project collections either went through or threw a
   * RuntimeException with the given message and cause.
   */
  datatype Attempt =
    | Cancelled
    | Probed(info: AuthenticationInfo)
    | Threw(message: string, cause: Option<Throwable>)

  /** The runtime exception thrown by a failed probe is caused by an HTTP 401 response. */
  predicate IsUnauthorized(a: Attempt)
  {
    a.Threw? && a.cause.Some? && a.cause.value.HttpResponseException?
    && a.cause.value.statusCode == Unauthorized
  }

  /** How the retry loop ends, and how many prompts it made. */
  datatype Negotiation =
    | Succeeded(info: AuthenticationInfo, prompts: nat)
    | Failed(error: Option<Throwable>, prompts: nat)

  /** What the listener is told once the loop is over. */
  function Report(n: Negotiation): ListenerEvent
  {
    if n.Succeeded? then OnSuccess else OnFailure(n.error)
  }

  /** The stored info once the loop is over: the probed info, or cleared. */
  function InfoAfter(n: Negotiation): Option<AuthenticationInfo>
  {
    if n.Succeeded? then Some(n.info) else None
  }

  /**
   * The retry loop from pass `retry` on: a cancelled prompt fails with no
   * error, a successful probe succeeds, a 401 goes round again and any other
   * runtime exception fails carrying it; four passes without a decision fail
   * with no error.
   */
  function Negotiate(outcomes: seq<Attempt>, retry: nat): (n: Negotiation)
    requires retry <= MaxAttempts <= |outcomes|
    ensures retry <= n.prompts <= MaxAttempts
    ensures n.prompts == retry ==> retry == MaxAttempts && n == Failed(None, retry)
    decreases MaxAttempts - retry
  {
    if retry == MaxAttempts then Failed(None, retry)
    else
      match outcomes[retry]
      case Cancelled => Failed(None, retry + 1)
      case Probed(info) => Succeeded(info, retry + 1)
      case Threw(message, cause) =>
        if IsUnauthorized(outcomes[retry]) then Negotiate(outcomes, retry + 1)
        else Failed(Some(RuntimeException(message, cause)), retry + 1)
  }

  /** Every pass before `k` was answered by a 401. */
  ghost predicate RetriedBefore(outcomes: seq<Attempt>, k: nat)
    requires k <= |outcomes|
  {
    forall j :: 0 <= j < k ==> IsUnauthorized(outcomes[j])
  }

  /**
   * The decision taken at pass `k`, the first pass not answered by a 401
   * (or MaxAttempts when all four were): a reference definition of the loop
   * with no recursion.
   */
  function Decision(outcomes: seq<Attempt>, k: nat): (n: Negotiation)
    requires k <= MaxAttempts <= |outcomes|
  {
    if k == MaxAttempts then Failed(None, MaxAttempts)
    else
      match outcomes[k]
      case Cancelled => Failed(None, k + 1)
      case Probed(info) => Succeeded(info, k + 1)
      case Threw(message, cause) => Failed(Some(RuntimeException(message, cause)), k + 1)
  }

  /**
   * The loop agrees with its reference definition: if every pass before `k`
   * got a 401 and pass `k` did not (or k is the last), the outcome is the
   * decision taken at `k`.
   */
  lemma {:induction false} NegotiateDecidedAt(outcomes: seq<Attempt>, k: nat, retry: nat)
    requires retry <= k <= MaxAttempts <= |outcomes|
    requires forall j :: retry <= j < k ==> IsUnauthorized(outcomes[j])
    requires k < MaxAttempts ==> !IsUnauthorized(outcomes[k])
    ensures Negotiate(outcomes, retry) == Decision(outcomes, k)
    decreases k - retry
  {
    if retry < k {
      NegotiateDecidedAt(outcomes, k, retry + 1);
    }
  }

  /**
   * Conversely, the outcome says why each extra prompt was made: every pass
   * before the last one that was prompted got a 401.
   */
  lemma {:induction false} PromptsOnlyAfterUnauthorized(outcomes: seq<Attempt>, retry: nat)
    requires retry <= MaxAttempts <= |outcomes|
    ensures forall j :: retry <= j < Negotiate(outcomes, retry).prompts - 1 ==> IsUnauthorized(outcomes[j])
    ensures var n := Negotiate(outcomes, retry);
            n.prompts < MaxAttempts ==> n.prompts > retry && !IsUnauthorized(outcomes[n.prompts - 1])
    decreases MaxAttempts - retry
  {
    if retry < MaxAttempts && IsUnauthorized(outcomes[retry]) {
      PromptsOnlyAfterUnauthorized(outcomes, retry + 1);
    }
  }

  /** A cancelled prompt, after any number of 401s, ends the loop in failure with no error. */
  lemma CancelledPromptFails(outcomes: seq<Attempt>, k: nat)
    requires k < MaxAttempts <= |outcomes|
    requires RetriedBefore(outcomes, k) && outcomes[k] == Cancelled
    ensures Negotiate(outcomes, 0) == Failed(None, k + 1)
  {
    NegotiateDecidedAt(outcomes, k, 0);
  }

  /** Four 401s in a row end in failure with no error after four prompts. */
  lemma UnauthorizedFourTimesFails(outcomes: seq<Attempt>)
    requires MaxAttempts <= |outcomes| && RetriedBefore(outcomes, MaxAttempts)
    ensures Negotiate(outcomes, 0) == Failed(None, MaxAttempts)
  {
    NegotiateDecidedAt(outcomes, MaxAttempts, 0);
  }

  /**
   * Any other runtime exception (no cause, a cause of another type, or a
   * status other than 401) stops the loop and is reported as the error.
   */
  lemma OtherErrorStops(outcomes: seq<Attempt>, k: nat)
    requires k < MaxAttempts <= |outcomes|
    requires RetriedBefore(outcomes, k)
    requires outcomes[k].Threw? && !IsUnauthorized(outcomes[k])
    ensures Negotiate(outcomes, 0)
         == Failed(Some(RuntimeException(outcomes[k].message, outcomes[k].cause)), k + 1)
  {
    NegotiateDecidedAt(outcomes, k, 0);
  }

  /** A successful probe, after any number of 401s, succeeds with the info built in that pass. */
  lemma ProbeSucceeds(outcomes: seq<Attempt>, k: nat)
    requires k < MaxAttempts <= |outcomes|
    requires RetriedBefore(outcomes, k) && outcomes[k].Probed?
    ensures Negotiate(outcomes, 0) == Succeeded(outcomes[k].info, k + 1)
  {
    NegotiateDecidedAt(outcomes, k, 0);
  }

  /** Success is reported exactly when some pass's probe went through after 401s only. */
  lemma SucceedsIffProbed(outcomes: seq<Attempt>)
    requires MaxAttempts <= |outcomes|
    ensures Negotiate(outcomes, 0).Succeeded?
        <==> exists k :: 0 <= k < MaxAttempts && RetriedBefore(outcomes, k) && outcomes[k].Probed?
  {
    var n := Negotiate(outcomes, 0);
    PromptsOnlyAfterUnauthorized(outcomes, 0);
    if n.Succeeded? {
      var k := n.prompts - 1;
      assert RetriedBefore(outcomes, k);
      NegotiateDecidedAt(outcomes, k, 0);
      assert outcomes[k].Probed?;
    }
    if exists k :: 0 <= k < MaxAttempts && RetriedBefore(outcomes, k) && outcomes[k].Probed? {
      var k :| 0 <= k < MaxAttempts && RetriedBefore(outcomes, k) && outcomes[k].Probed?;
      ProbeSucceeds(outcomes, k);
    }
  }

  class TfsAuthenticationProvider {
    /** The credentials the server last accepted; None once cleared or after a failure. */
    var authenticationInfo: Option<AuthenticationInfo>

    /** A provider that has not authenticated yet. */
    constructor ()
      ensures !IsAuthenticated() && GetAuthenticationInfo() == None
    {
      authenticationInfo := None;
    }

    /** A provider that starts out with known credentials. */
    constructor WithInfo(info: AuthenticationInfo)
      ensures IsAuthenticated() && GetAuthenticationInfo() == Some(info)
    {
      authenticationInfo := Some(info);
    }

    function GetAuthenticationInfo(): Option<AuthenticationInfo>
      reads this
    {
      authenticationInfo
    }

    /** Authenticated exactly when there is info to hand out. */
    function IsAuthenticated(): (authenticated: bool)
      reads this
      ensures authenticated <==> GetAuthenticationInfo() != None
    {
      authenticationInfo.Some?
    }

    method ClearAuthenticationDetails()
      modifies this
      ensures authenticationInfo == None && !IsAuthenticated()
    {
      authenticationInfo := None;
    }

    /**
     * Negotiates credentials for `serverUrl`. `syntaxError` is the reason
     * `new URI(serverUrl)` gives when it rejects the URL; `outcomes[i]` is
     * what the prompt and the probe answer in pass i. Returns the calls made
     * on the listener and the number of prompts shown.
     */
    method AuthenticateAsync(serverUrl: string, syntaxError: Option<string>, outcomes: seq<Attempt>)
      returns (events: seq<ListenerEvent>, prompts: nat)
      requires MaxAttempts <= |outcomes|
      modifies this
      ensures WellFormedTrace(events) && prompts <= MaxAttempts
      ensures syntaxError.Some? ==>
        && events[1] == OnFailure(Some(URISyntaxException(serverUrl, syntaxError.value)))
        && prompts == 0
        && authenticationInfo == old(authenticationInfo)
      ensures syntaxError.None? ==>
        var n := Negotiate(outcomes, 0);
        && events[1] == Report(n)
        && prompts == n.prompts
        && authenticationInfo == InfoAfter(n)
        && (IsAuthenticated() <==> events[1] == OnSuccess)
    {
      events := [OnAuthenticating];
      prompts := 0;
      if syntaxError.Some? {
        events := events + [OnFailure(Some(URISyntaxException(serverUrl, syntaxError.value)))];
        return;
      }

      var newAuthenticationInfo: Option<AuthenticationInfo> := None;
      var result := false;
      var error: Option<Throwable> := None;
      var retry := 0;
      while retry < MaxAttempts
        invariant retry <= MaxAttempts && prompts == retry
        invariant !result && error == None
        invariant Negotiate(outcomes, retry) == Negotiate(outcomes, 0)
      {
        // the prompt for this pass
        prompts := prompts + 1;
        var attempt := outcomes[retry];
        if attempt.Cancelled? {
          result := false;
          break;
        }
        if attempt.Probed? {
          newAuthenticationInfo := Some(attempt.info);
          result := true;
          break;
        }
        if IsUnauthorized(attempt) {
          retry := retry + 1;
          continue;
        }
        error := Some(RuntimeException(attempt.message, attempt.cause));
        result := false;
        break;
      }

      if !result {
        ClearAuthenticationDetails();
        events := events + [OnFailure(error)];
      } else {
        authenticationInfo := newAuthenticationInfo;
        events := events + [OnSuccess];
      }
    }
  }
}
