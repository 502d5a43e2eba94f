/**
 * The join screen's view model: the invite code is trimmed and sent, and the network
 * service's answer becomes the joined session or an error message. `BeginJoin` is the part
 * of `joinSession` before its `await`, `CompleteJoin` the part after it.
 */
module JoinSession {
  import opened Wrappers
  import opened SwiftStrings
  import opened Models

  /** The errors `joinSession` on the network service throws. */
  datatype JoinError =
    | SessionAlreadyMatched
    | SessionClosed
    | AlreadyJoined
    | SessionFull
    | NotFound
      /** Any other `NetworkError`, with its localized description. */
    | OtherNetworkError(description: string)
      /** An error that is not a `NetworkError`. */
    | OtherError(description: string)

  datatype JoinOutcome<P, C> = Joined(session: Session<P, C>) | JoinFailed(error: JoinError)

  const EmptyCodeMessage := "Please enter an invite code"
  const FailurePrefix := "Failed to join session: "

  function IsFixedError(e: JoinError): bool {
    !e.OtherNetworkError? && !e.OtherError?
  }

  /** The message each error is shown with. */
  function JoinErrorMessage(e: JoinError): (m: string)
    ensures !IsFixedError(e) ==> m == FailurePrefix + e.description
  {
    match e
    case SessionAlreadyMatched => "This session already has a match"
    case SessionClosed => "This session is closed"
    case AlreadyJoined => "You have already joined this session"
    case SessionFull => "This session is full"
    case NotFound => "Invalid invite code"
    case OtherNetworkError(d) => FailurePrefix + d
    case OtherError(d) => FailurePrefix + d
  }

  /** Only the prefixed messages begin with 'F'. */
  lemma MessageInitial(e: JoinError)
    ensures JoinErrorMessage(e) != "" && (JoinErrorMessage(e)[0] == 'F' <==> !IsFixedError(e))
  {
  }

  /**
   * Each message names its error: the five fixed ones differ from each other and from
   * every prefixed one, and a prefixed one carries the description it was made from.
   */
  lemma JoinErrorMessageDistinguishes(e1: JoinError, e2: JoinError)
    requires JoinErrorMessage(e1) == JoinErrorMessage(e2)
    ensures IsFixedError(e1) || IsFixedError(e2) ==> e1 == e2
    ensures !IsFixedError(e1) && !IsFixedError(e2) ==> e1.description == e2.description
  {
    MessageInitial(e1);
    MessageInitial(e2);
    if !IsFixedError(e1) && !IsFixedError(e2) {
      assert e1.description == JoinErrorMessage(e1)[|FailurePrefix|..];
    }
  }

  /** The session service's current session. */
  class SessionStore<P, C> {
    var current: Option<Session<P, C>>

    constructor ()
      ensures current == None
    {
      current := None;
    }
  }

  class JoinSessionViewModel<P, C> {
    var inviteCode: string
    var isLoading: bool
    var errorMessage: Option<string>
    var joinedSession: Option<Session<P, C>>

    constructor ()
      ensures inviteCode == "" && !isLoading && errorMessage == None && joinedSession == None
    {
      inviteCode := "";
      isLoading := false;
      errorMessage := None;
      joinedSession := None;
    }

    /**
     * Up to the network call: returns the code to send, or nothing when the trimmed code is
     * empty, in which case only the error message changes.
     */
    method BeginJoin() returns (code: Option<string>)
      modifies this`isLoading, this`errorMessage
      ensures code.None? <==> Trim(inviteCode) == ""
      ensures code.None? ==> errorMessage == Some(EmptyCodeMessage) && isLoading == old(isLoading)
      ensures code.Some? ==> code.value == Trim(inviteCode) && isLoading && errorMessage == None
    {
      var trimmed := Trim(inviteCode);
      if trimmed == "" {
        errorMessage := Some(EmptyCodeMessage);
        return None;
      }
      isLoading := true;
      errorMessage := None;
      return Some(trimmed);
    }

    /** After the network call: the session joined and made current, or the error's message. */
    method CompleteJoin(outcome: JoinOutcome<P, C>, store: SessionStore<P, C>) returns (joined: bool)
      modifies this`isLoading, this`errorMessage, this`joinedSession, store
      ensures !isLoading
      ensures joined <==> outcome.Joined?
      ensures outcome.Joined? ==> joinedSession == Some(outcome.session) && store.current == Some(outcome.session)
                                  && errorMessage == old(errorMessage)
      ensures outcome.JoinFailed? ==> errorMessage == Some(JoinErrorMessage(outcome.error))
                                      && joinedSession == old(joinedSession) && store.current == old(store.current)
    {
      match outcome
      case Joined(session) =>
        joinedSession := Some(session);
        store.current := Some(session);
        isLoading := false;
        return true;
      case JoinFailed(e) =>
        isLoading := false;
        errorMessage := Some(JoinErrorMessage(e));
        return false;
    }
  }
}
