/** The message and chat-state records of the frontend, with the invariants
    the session manager keeps about them. */
module ChatTypes {
  import opened Wrappers

  datatype Role = User | Assistant | System

  /** A chat message. `timestamp` is the creation instant in milliseconds;
      `isStreaming` is absent on messages that never streamed (user
      messages), `Some(true)` while an assistant reply is arriving and
      `Some(false)` once it is settled. */
  datatype Message = Message(
    id: string,
    role: Role,
    content: string,
    timestamp: int,
    isStreaming: Option<bool>)

  /** The state the chat hook owns. `error` is `None` where the source has
      `null`. */
  datatype ChatState = ChatState(
    messages: seq<Message>,
    isLoading: bool,
    isConnected: bool,
    error: Option<string>)

  /** The state the hook starts in: no messages, not loading, assumed
      connected until the first probe says otherwise. */
  const InitialState: ChatState := ChatState([], false, true, None)

  /** Text written into the assistant message when a send fails. */
  const ApologyText: string :=
    "\U{26A0}\U{FE0F} Unable to connect to the AI server. Please try again later."

  /** Value of `error` after a failed send. */
  const BackendUnreachable: string := "Backend not reachable"

  predicate Streaming(m: Message) {
    m.isStreaming == Some(true)
  }

  /** No message is still streaming: the state between two sends. */
  predicate NoneStreaming(ms: seq<Message>) {
    forall i :: 0 <= i < |ms| ==> !Streaming(ms[i])
  }

  /** At most one message streams, and if one does it is the last message
      and an assistant message: the state during a send. */
  predicate OnlyLastStreams(ms: seq<Message>) {
    && (forall i :: 0 <= i < |ms| - 1 ==> !Streaming(ms[i]))
    && (|ms| > 0 && Streaming(ms[|ms| - 1]) ==> ms[|ms| - 1].role == Assistant)
  }

  /** Message ids are pairwise distinct. */
  predicate IdsUnique(ms: seq<Message>) {
    forall i, j :: 0 <= i < j < |ms| ==> ms[i].id != ms[j].id
  }

  /** Two message lists agree on everything but the content and the
      streaming flag: same length, and the same id, role and timestamp at
      every position. */
  predicate SameSkeleton(a: seq<Message>, b: seq<Message>) {
    && |a| == |b|
    && forall i :: 0 <= i < |a| ==>
         a[i].id == b[i].id && a[i].role == b[i].role && a[i].timestamp == b[i].timestamp
  }
}
