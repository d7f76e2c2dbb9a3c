/**
 * Values shared by the two authentication providers: Java's nullable
 * references as Option, the exceptions the providers see or report, the
 * credentials a TFS provider keeps, and what an AuthenticationListener is told.
 */
module Common {

  /** A nullable reference: None stands for Java's null. */
  datatype Option<+T> = None | Some(value: T)

  /** The throwables that reach a provider or its listener. */
  datatype Throwable =
    | URISyntaxException(input: string, reason: string)
    | HttpResponseException(statusCode: int, message: string)
    | RuntimeException(message: string, cause: Option<Throwable>)
    | IOException(message: string)
    | OtherThrowable(message: string)

  /** The credentials a TFS provider remembers once the server accepted them. */
  datatype AuthenticationInfo = AuthenticationInfo(userName: string, password: string, serverUri: string)

  /** One call on an AuthenticationListener (through its null-safe Helper). */
  datatype ListenerEvent =
    | OnAuthenticating
    | OnSuccess
    | OnFailure(error: Option<Throwable>)

  /**
   * What every authenticateAsync call promises its listener: onAuthenticating
   * first, then exactly one of onSuccess or onFailure, and nothing else.
   */
  predicate WellFormedTrace(events: seq<ListenerEvent>)
  {
    |events| == 2 && events[0] == OnAuthenticating && !events[1].OnAuthenticating?
  }
}
