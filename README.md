# TFS / Azure DevOps plugin core: authentication and reactive-client decisions

This project models the decision and state-transition logic of three classes of
the IntelliJ plugin for Team Foundation Server and Azure DevOps, and proves what
they promise.

- **TfsAuthenticationProvider** (module `TfsAuthentication`). Credentials for an
  on-premises TFS server are negotiated in a retry loop. The loop makes at most
  four passes. In each pass the user is prompted for credentials and the server
  is probed with them. A cancelled prompt ends in failure. A successful probe
  stores the new `AuthenticationInfo`. A `RuntimeException` caused by an HTTP 401
  goes round again. Any other runtime exception ends in failure and is reported.
  The listener hears `onAuthenticating`, then exactly one of `onSuccess` or
  `onFailure`. The provider is a class whose single field holds the stored info.
  `AuthenticateAsync` is a `while` loop with `break` and `continue`, proved
  against the specification function `Negotiate`. `Negotiate` is in turn proved
  equal to a non-recursive reference definition, `Decision`.
- **VsoAuthenticationProvider** (module `VsoAuthentication`). The Azure AD
  session is one nullable `AuthenticationResult`. `isAuthenticated` refreshes a
  stored result and drops it if the refresh fails. `clearAuthenticationDetails`
  empties the session. `authenticateAsync` stores the result of a non-null
  success callback and clears the session on every other outcome.
- **ReactiveTfClient** (module `ReactiveTfClient`, with `Paths` and `Decimal`).
  `notifyFileChange` decides which IDE file events make the external TF client
  invalidate a path. The listener built by `addFileSystemListener` fans each
  event out to `notifyFileChange`. `checkVersion` accepts every version.
  `getPendingChangesAsync` converts local paths on the way out and pending
  changes on the way back. Java's `Path` is modelled on a Unix file system: a
  root flag and name components, as `Paths.get` parses them. `startsWith`
  compares whole components, so `/a/bc` does not start with `/a/b`. Java's
  `Integer.toString` is modelled as a decimal numeral, and a round-trip lemma
  shows it reads back as the same number.

Foreign calls become inputs the caller supplies:

- the credential prompt and the server probe: a sequence of `Attempt` values, one per pass;
- `new URI(serverUrl)`: the reason it rejects the URL, if it does;
- the AAD token refresh: a `Refresh` value;
- the AAD sign-in callback: a `SignIn` value;
- the collection's mapped paths: an `Option`, where `None` means they are not known yet;
- the connector's pending changes: a sequence of `TfsPendingChange`;
- `ServerStatusType.from`: a function parameter.

Listener calls are returned as a trace of `ListenerEvent`s. The `prompts` output
of `AuthenticateAsync` counts the credential prompts shown. The `refreshed`
output of the AAD `IsAuthenticated` says whether the AAD library was asked for
a refresh.

## Model

| member | source | states |
|---|---|---|
| `TfsAuthentication.Negotiate` | plugin/src/com/microsoft/alm/plugin/authentication/TfsAuthenticationProvider.java:56-85 | the retry loop never prompts more than four times; it stops before the fourth pass only on a decision, and when it runs all four passes without one it fails with a null error |
| `TfsAuthentication.NegotiateDecidedAt` | plugin/src/com/microsoft/alm/plugin/authentication/TfsAuthenticationProvider.java:56-85 | when every pass before `k` got a 401 and pass `k` did not, or `k` is four, the loop's outcome is the decision taken at pass `k` (the reference definition `Decision`) |
| `TfsAuthentication.PromptsOnlyAfterUnauthorized` | plugin/src/com/microsoft/alm/plugin/authentication/TfsAuthenticationProvider.java:74-78 | every pass before the last prompted one ended in a 401; a loop that stops early stops on an answer that is not a 401 |
| `TfsAuthentication.CancelledPromptFails` | plugin/src/com/microsoft/alm/plugin/authentication/TfsAuthenticationProvider.java:59-62 | a cancelled prompt after any number of 401s ends in failure with a null error, having prompted `k + 1` times |
| `TfsAuthentication.UnauthorizedFourTimesFails` | plugin/src/com/microsoft/alm/plugin/authentication/TfsAuthenticationProvider.java:74-78 | four 401s in a row end in failure with a null error after four prompts |
| `TfsAuthentication.OtherErrorStops` | plugin/src/com/microsoft/alm/plugin/authentication/TfsAuthenticationProvider.java:73-83 | a runtime exception with no cause, a cause of another type or a status other than 401 stops the loop at once and is the reported error |
| `TfsAuthentication.ProbeSucceeds` | plugin/src/com/microsoft/alm/plugin/authentication/TfsAuthenticationProvider.java:65-72 | a successful probe after any number of 401s succeeds with the info built in that pass |
| `TfsAuthentication.SucceedsIffProbed` | plugin/src/com/microsoft/alm/plugin/authentication/TfsAuthenticationProvider.java:56-94 | negotiation succeeds if and only if some pass's probe went through with only 401s before it |
| `TfsAuthentication.TfsAuthenticationProvider.constructor` | plugin/src/com/microsoft/alm/plugin/authentication/TfsAuthenticationProvider.java:25-26 | a new provider is not authenticated and has no info |
| `TfsAuthentication.TfsAuthenticationProvider.WithInfo` | plugin/src/com/microsoft/alm/plugin/authentication/TfsAuthenticationProvider.java:28-36 | a provider built with info is authenticated and returns that info |
| `TfsAuthentication.TfsAuthenticationProvider.IsAuthenticated` | plugin/src/com/microsoft/alm/plugin/authentication/TfsAuthenticationProvider.java:102-105 | authenticated exactly when `getAuthenticationInfo` is not null |
| `TfsAuthentication.TfsAuthenticationProvider.ClearAuthenticationDetails` | plugin/src/com/microsoft/alm/plugin/authentication/TfsAuthenticationProvider.java:97-100 | the info is gone and the provider is no longer authenticated |
| `TfsAuthentication.TfsAuthenticationProvider.AuthenticateAsync` | plugin/src/com/microsoft/alm/plugin/authentication/TfsAuthenticationProvider.java:38-95 | the listener hears `onAuthenticating` and then exactly one of `onSuccess` or `onFailure`; a malformed URL fails with its `URISyntaxException`, shows no prompt and leaves the info as it was; otherwise the outcome, prompt count and stored info are those of `Negotiate`: the probed info on success, none on failure; after the call the provider is authenticated exactly when success was reported |
| `VsoAuthentication.SignInSuccessIffStored` | plugin/src/com/microsoft/alm/plugin/authentication/VsoAuthenticationProvider.java:96-106 | success is reported if and only if a result is stored, and the stored result is the one the success callback delivered |
| `VsoAuthentication.SignInFailureClears` | plugin/src/com/microsoft/alm/plugin/authentication/VsoAuthenticationProvider.java:96-117 | every reported failure leaves the session empty; a null success result is a failure with a null error; a failure callback or an `IOException` at start is reported with that throwable |
| `VsoAuthentication.CheckKeepsOnlyRefreshed` | plugin/src/com/microsoft/alm/plugin/authentication/VsoAuthenticationProvider.java:69-80 | a result still stored after a check was stored before it and is exactly what the refresh returned |
| `VsoAuthentication.EmptySessionStaysEmpty` | plugin/src/com/microsoft/alm/plugin/authentication/VsoAuthenticationProvider.java:67-87 | from an empty session, no sequence of checks, clears and failed sign-ins can make a result appear; only a successful sign-in can |
| `VsoAuthentication.VsoAuthenticationProvider.constructor` | plugin/src/com/microsoft/alm/plugin/authentication/VsoAuthenticationProvider.java:47-56 | the single provider starts with no session |
| `VsoAuthentication.VsoAuthenticationProvider.GetAuthenticationInfo` | plugin/src/com/microsoft/alm/plugin/authentication/VsoAuthenticationProvider.java:62-65 | always null: the cloud provider hands out no TFS credentials |
| `VsoAuthentication.VsoAuthenticationProvider.IsAuthenticated` | plugin/src/com/microsoft/alm/plugin/authentication/VsoAuthenticationProvider.java:67-82 | a refresh is asked for exactly when a result is stored; the stored result becomes the refreshed one, or none if the refresh fails; the answer is true exactly when a result remains, and then it is the refreshed result |
| `VsoAuthentication.VsoAuthenticationProvider.ClearAuthenticationDetails` | plugin/src/com/microsoft/alm/plugin/authentication/VsoAuthenticationProvider.java:84-87 | the stored result becomes null |
| `VsoAuthentication.VsoAuthenticationProvider.AuthenticateAsync` | plugin/src/com/microsoft/alm/plugin/authentication/VsoAuthenticationProvider.java:89-118 | the listener hears `onAuthenticating` and then one outcome; the session becomes the callback's result when that is non-null and success is reported, and is cleared with the matching failure report otherwise |
| `Paths.Names` | plugin/src/com/microsoft/alm/plugin/external/reactive/ReactiveTfClient.java:160 | every name component parsed from a path string is non-empty and free of separators |
| `Paths.Parse` | plugin/src/com/microsoft/alm/plugin/external/reactive/ReactiveTfClient.java:160 | `Paths.get` yields a well-formed path |
| `Paths.ParseRender` | plugin/src/com/microsoft/alm/plugin/external/reactive/ReactiveTfClient.java:105 | `Path.toString` followed by `Paths.get` gives back the same path |
| `Paths.RenderNormalizes` | plugin/src/com/microsoft/alm/plugin/external/reactive/ReactiveTfClient.java:105 | rendering a parsed path gives a normal form that parses to the same path |
| `Paths.NamesKeepEveryCharacter` | plugin/src/com/microsoft/alm/plugin/external/reactive/ReactiveTfClient.java:160 | the parsed names, written one after the other, are the path string with its separators removed: no character but a separator is lost or reordered |
| `Paths.StartsWithWholeComponents` | plugin/src/com/microsoft/alm/plugin/external/reactive/ReactiveTfClient.java:165 | `/a/bc` does not start with `/a/b`, while `/a/b/c` does |
| `Decimal.NatToString` | plugin/src/com/microsoft/alm/plugin/external/reactive/ReactiveTfClient.java:112 | the numeral is non-empty, all digits, and has no leading zero |
| `Decimal.ToStringRoundTrip` | plugin/src/com/microsoft/alm/plugin/external/reactive/ReactiveTfClient.java:112 | `Integer.toString` writes a numeral with a '-' exactly for negatives, with no leading zero, which reads back as the same number |
| `Decimal.ToStringInjective` | plugin/src/com/microsoft/alm/plugin/external/reactive/ReactiveTfClient.java:112 | different versions are rendered as different strings |
| `ReactiveTfClient.AnyMappingContains` | plugin/src/com/microsoft/alm/plugin/external/reactive/ReactiveTfClient.java:165 | true exactly when some mapped path is a component-wise prefix of the file's path |
| `ReactiveTfClient.NotifyFileChange` | plugin/src/com/microsoft/alm/plugin/external/reactive/ReactiveTfClient.java:158-170 | with the mapped paths unknown no invalidation is sent; otherwise one is sent exactly when some mapped path contains the file, and it names the file's own path string |
| `ReactiveTfClient.Invalidations` | plugin/src/com/microsoft/alm/plugin/external/reactive/ReactiveTfClient.java:172-205 | notifying files one by one sends at most one request per file, none while the mapped paths are unknown, and each request is one a notified file's `notifyFileChange` sends |
| `ReactiveTfClient.MoveNotifiesParents` | plugin/src/com/microsoft/alm/plugin/external/reactive/ReactiveTfClient.java:194-198 | a move event notifies the old parent and then the new parent |
| `ReactiveTfClient.OtherEventsNotifyFile` | plugin/src/com/microsoft/alm/plugin/external/reactive/ReactiveTfClient.java:174-203 | every other event kind notifies the event's own file once, so it sends at most one request |
| `ReactiveTfClient.EventRequestsAreMapped` | plugin/src/com/microsoft/alm/plugin/external/reactive/ReactiveTfClient.java:158-205 | for any event, each request names a notified file's own path and that file lies under a mapped path; with unknown mapped paths there is no request |
| `ReactiveTfClient.CheckVersion` | plugin/src/com/microsoft/alm/plugin/external/reactive/ReactiveTfClient.java:140-143 | every version is accepted |
| `ReactiveTfClient.ToLocalPaths` | plugin/src/com/microsoft/alm/plugin/external/reactive/ReactiveTfClient.java:105-106 | one `TfsLocalPath` per local path, in order, holding that path's string form |
| `ReactiveTfClient.LocalPathRoundTrip` | plugin/src/com/microsoft/alm/plugin/external/reactive/ReactiveTfClient.java:105-106 | each converted path string reads back as the path it came from |
| `ReactiveTfClient.MapChangeTypes` | plugin/src/com/microsoft/alm/plugin/external/reactive/ReactiveTfClient.java:116 | change types are mapped element by element, in order |
| `ReactiveTfClient.ConvertPendingChanges` | plugin/src/com/microsoft/alm/plugin/external/reactive/ReactiveTfClient.java:109-120 | one plugin pending change per connector pending change, in order |
| `ReactiveTfClient.PendingChangesPreserved` | plugin/src/com/microsoft/alm/plugin/external/reactive/ReactiveTfClient.java:109-120 | conversion keeps count and order and copies every other field unchanged; the version becomes a numeral that reads back as the same number; the change types are mapped element-wise |

## Left out

- The credential prompt (`getCredentials`, including the `user.name` property and the Windows user-name lookup for NTLM) is foreign UI. Building the `AuthenticationInfo` and probing the server's project collections are foreign calls too. Each pass's combined answer is an `Attempt` input. A `RuntimeException` thrown while building the info and one thrown by the probe are not told apart; the source catches both in the same `try`.
- `TfsAuthentication.TfsAuthenticationProvider.AuthenticateAsync` requires at least four `Attempt` answers. The prompt in the source always answers, and at most four answers are read.
- The foreign calls are assumed to throw only what the source catches: a `RuntimeException` while building the TFS credential info or probing the server, and an `IOException` from the AAD token refresh or from starting the AAD sign-in. Any other exception, including one from the TFS credential prompt, which runs outside the `try`, escapes `authenticateAsync`; the listener then hears only `onAuthenticating`.
- Parsing by `java.net.URI` is not modelled. Whether it rejects the URL, and with what reason, is an input.
- The listener may be null in the source, where `AuthenticationListener.Helper` ignores it. The trace is what a non-null listener receives.
- The AAD library (`AzureAuthenticatorImpl`, token refresh and acquisition), its connection constants, the lazy singleton holders, `synchronized` in `isAuthenticated`, and all logging are left out. The static `authenticationResult` is the field of the one provider object, and `getAuthenticationResult` reads it.
- The AAD sign-in callback runs asynchronously in the source. The model runs it to completion inside `AuthenticateAsync`. The order of listener calls is the same.
- `ReactiveTfClient.create`, `startAsync`, `createProcessListener`, `initializeStartedConnection`, `healthCheckAsync` and `getReadyCollectionAsync` are left out: they are process and connection plumbing and `CompletableFuture` composition. `checkVersionAsync` only wraps `checkVersion` in a future. The error swallowing in `exceptionally` and the registration of the file listener with `VirtualFileManager` and a lifetime are left out too.
- Paths follow Unix `java.nio` rules only. Windows paths and their drive letters are not modelled. Java's empty path `""` has one empty name; here it is a relative path with no names. So `Parse("")` is a prefix of every relative path here, while Java's `Paths.get("a/b").startsWith("")` is false. This does not affect `notifyFileChange`, whose file paths from the IDE are absolute.
- `ServerStatusType.from` is not part of this model. It is passed in as a function.
- The fields of `VersionNumber`, `AuthenticationInfo`, `AuthenticationResult` and the pending-change records are only those the model needs. They are never inspected beyond what the source does.
