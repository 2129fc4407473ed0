/** The chat hook: the pure state updaters it hands to `setState`
    (`addMessage`, `updateLastAssistant`, the send, settle and clear
    updaters, the probe result), the persistence rules, and the session
    object whose methods run those steps in order.

    The network is an input: what `fetch` of `/chat/stream` produced
    (`Transport`) and what the `/health` probe produced (`Probe`). The
    random ids and clock readings are inputs too (`Fresh`). */
module ChatSession {
  import opened Wrappers
  import opened Text
  import opened ChatTypes
  import opened LineDecoder

  /** What the `/chat/stream` request produced: `fetch` rejected, or a
      response with its `ok` flag and its body, if any. */
  datatype Transport =
    | Unreachable
    | Responded(ok: bool, body: Option<Body>)

  /** A response body: its chunks in arrival order, already decoded to text,
      and whether the read after the last chunk rejects instead of reporting
      the end of the stream. */
  datatype Body = Body(chunks: seq<string>, readFails: bool)

  /** What the `/health` probe produced: it was rejected (network failure or
      the five-second timeout), or it answered with an HTTP status. */
  datatype Probe = ProbeFailed | ProbeAnswered(status: int)

  /** The values the source draws from `crypto.randomUUID()` and
      `new Date()` for the two messages a send creates. */
  datatype Fresh = Fresh(userId: string, replyId: string, userAt: int, replyAt: int)

  /** The persisted history entry: a message list written by the save
      effect, or stored text that `JSON.parse` rejects. */
  datatype StoredHistory = History(messages: seq<Message>) | Corrupt

  predicate LastIsAssistant(ms: seq<Message>) {
    |ms| > 0 && ms[|ms| - 1].role == Assistant
  }

  /** The message `addMessage('user', content)` creates: no `isStreaming`
      field, and the content exactly as given (the hook does not trim it). */
  function UserMessage(id: string, content: string, at: int): Message {
    Message(id, User, content, at, None)
  }

  /** The empty assistant message a send appends before the reply streams. */
  function Placeholder(id: string, at: int): Message {
    Message(id, Assistant, [], at, Some(true))
  }

  /** `addMessage`'s updater: appends one message and leaves the rest of the
      state alone. */
  function AddMessage(s: ChatState, m: Message): (r: ChatState)
    ensures |r.messages| == |s.messages| + 1
    ensures r.messages[..|s.messages|] == s.messages && r.messages[|s.messages|] == m
    ensures r.(messages := s.messages) == s
  {
    s.(messages := s.messages + [m])
  }

  /** `updateLastAssistant`'s updater. When the last message is an assistant
      message only its content and streaming flag change; otherwise nothing
      changes. Either way the length, every id, role and timestamp, every
      message but the last, and the flags are kept. */
  function UpdateLastAssistant(s: ChatState, content: string, streaming: bool): (r: ChatState)
    ensures SameSkeleton(s.messages, r.messages)
    ensures forall i :: 0 <= i < |s.messages| - 1 ==> r.messages[i] == s.messages[i]
    ensures LastIsAssistant(s.messages) ==>
              && r.messages[|r.messages| - 1].content == content
              && r.messages[|r.messages| - 1].isStreaming == Some(streaming)
    ensures !LastIsAssistant(s.messages) ==> r.messages == s.messages
    ensures r.(messages := s.messages) == s
  {
    var ms := s.messages;
    if LastIsAssistant(ms) then
      var last := ms[|ms| - 1];
      s.(messages := ms[|ms| - 1 := last.(content := content, isStreaming := Some(streaming))])
    else s
  }

  /** The guard of `sendMessage`: the content is not blank once trimmed, and
      no send is in flight. */
  predicate CanSend(s: ChatState, content: string) {
    JsTrim(content) != [] && !s.isLoading
  }

  /** The two updaters a send queues before the request: the user message,
      then the placeholder together with `isLoading = true` and
      `error = null`. */
  function BeginSend(s: ChatState, content: string, ids: Fresh): (r: ChatState)
    ensures r.messages == s.messages
              + [UserMessage(ids.userId, content, ids.userAt), Placeholder(ids.replyId, ids.replyAt)]
    ensures r.isLoading && r.error == None && r.isConnected == s.isConnected
  {
    var withUser := AddMessage(s, UserMessage(ids.userId, content, ids.userAt));
    AddMessage(withUser, Placeholder(ids.replyId, ids.replyAt)).(isLoading := true, error := None)
  }

  /** The `updateLastAssistant(fullContent, true)` calls of the streaming
      loop, applied in order. */
  function ApplyTotals(s: ChatState, totals: seq<string>): ChatState {
    if totals == [] then s
    else UpdateLastAssistant(ApplyTotals(s, totals[..|totals| - 1]), totals[|totals| - 1], true)
  }

  /** The success settle: the reply is finalised with the accumulated
      content, loading ends and the backend counts as connected. */
  function SettleSuccess(s: ChatState, content: string): ChatState {
    UpdateLastAssistant(s, content, false).(isLoading := false, isConnected := true)
  }

  /** The `catch` settle: the reply becomes the apology, loading ends, the
      backend counts as disconnected and the error is recorded. */
  function SettleFailure(s: ChatState): ChatState {
    UpdateLastAssistant(s, ApologyText, false)
      .(isLoading := false, isConnected := false, error := Some(BackendUnreachable))
  }

  /** The request reached a response that is `ok`, has a body, streamed to
      its end without a read error, and every complete line parsed. */
  predicate Succeeds(transport: Transport, parse: LineOracle) {
    && transport.Responded? && transport.ok && transport.body.Some?
    && !transport.body.value.readFails
    && StreamSpec(transport.body.value.chunks, parse).ok
  }

  /** The settle once the stream has been read: success only when every
      line parsed and the last read reported the end of the stream. */
  function SettleStream(shown: ChatState, d: Decode, readFails: bool): ChatState {
    if d.ok && !readFails then SettleSuccess(shown, d.content) else SettleFailure(shown)
  }

  /** The request, the stream and the settle, from the state `BeginSend`
      left. */
  function Exchange(s: ChatState, transport: Transport, parse: LineOracle): ChatState {
    if transport.Responded? && transport.ok && transport.body.Some? then
      var d := StreamSpec(transport.body.value.chunks, parse);
      SettleStream(ApplyTotals(s, d.totals), d, transport.body.value.readFails)
    else SettleFailure(s)
  }

  /** The state after one whole `sendMessage(content)`. */
  function SendSpec(s: ChatState, content: string, ids: Fresh, transport: Transport, parse: LineOracle): ChatState {
    if !CanSend(s, content) then s else Exchange(BeginSend(s, content, ids), transport, parse)
  }

  /** `clearChat`'s updater. */
  function ClearSpec(s: ChatState): (r: ChatState)
    ensures r.messages == [] && r.error == None
    ensures r.isLoading == s.isLoading && r.isConnected == s.isConnected
  {
    s.(messages := [], error := None)
  }

  /** `checkConnection`'s updaters: connected exactly when the probe
      answered with a status in 200..299 (`res.ok`). */
  function ProbeSpec(s: ChatState, probe: Probe): (r: ChatState)
    ensures r.isConnected <==> probe.ProbeAnswered? && 200 <= probe.status <= 299
    ensures r.(isConnected := s.isConnected) == s
  {
    s.(isConnected := probe.ProbeAnswered? && 200 <= probe.status <= 299)
  }

  /** The save effect: it writes only a non-empty message list. */
  function SaveEffect(store: Option<StoredHistory>, ms: seq<Message>): (r: Option<StoredHistory>)
    ensures |ms| > 0 ==> r == Some(History(ms))
    ensures |ms| == 0 ==> r == store
  {
    if |ms| > 0 then Some(History(ms)) else store
  }

  /** The load effect: a missing entry, or one whose text `JSON.parse`
      rejects, leaves the messages as they were; a message list replaces
      them. */
  function LoadSpec(s: ChatState, store: Option<StoredHistory>): (r: ChatState)
    ensures store.Some? && store.value.History? ==> r.messages == store.value.messages
    ensures store.None? || store == Some(Corrupt) ==> r.messages == s.messages
    ensures r.(messages := s.messages) == s
  {
    match store
    case Some(History(ms)) => s.(messages := ms)
    case _ => s
  }

  /** The streaming updates change only the last message, which stays the
      assistant reply: after at least one update it shows the latest total
      and is still streaming. */
  lemma {:induction false} ApplyTotalsShows(s: ChatState, totals: seq<string>)
    requires LastIsAssistant(s.messages)
    ensures var r := ApplyTotals(s, totals);
      && SameSkeleton(s.messages, r.messages)
      && LastIsAssistant(r.messages)
      && r.messages[..|s.messages| - 1] == s.messages[..|s.messages| - 1]
      && r.(messages := s.messages) == s
      && (totals != [] ==>
            && r.messages[|r.messages| - 1].content == totals[|totals| - 1]
            && Streaming(r.messages[|r.messages| - 1]))
      && (totals == [] ==> r == s)
    decreases |totals|
  {
    if totals != [] {
      var front := totals[..|totals| - 1];
      ApplyTotalsShows(s, front);
      var before := ApplyTotals(s, front);
      var r := ApplyTotals(s, totals);
      assert r == UpdateLastAssistant(before, totals[|totals| - 1], true);
      assert r.messages[..|s.messages| - 1] == before.messages[..|s.messages| - 1];
    }
  }

  /** A blank content or a send in flight makes `sendMessage` a no-op. */
  lemma {:induction false} SendGuard(s: ChatState, content: string, ids: Fresh, transport: Transport, parse: LineOracle)
    ensures !CanSend(s, content) ==> SendSpec(s, content, ids, transport, parse) == s
    ensures AllSpace(content, JsSpace) || s.isLoading ==> SendSpec(s, content, ids, transport, parse) == s
  {
  }

  /** Settling a reply keeps the skeleton and every message but the reply,
      marks the reply as no longer streaming and ends loading. */
  lemma {:induction false} SettleKeeps(b: ChatState, t: ChatState, d: Decode, readFails: bool)
    requires LastIsAssistant(b.messages) && SameSkeleton(b.messages, t.messages)
    requires t.messages[..|b.messages| - 1] == b.messages[..|b.messages| - 1]
    ensures var r := SettleStream(t, d, readFails);
      && SameSkeleton(b.messages, r.messages)
      && r.messages[..|b.messages| - 1] == b.messages[..|b.messages| - 1]
      && r.messages[|r.messages| - 1].isStreaming == Some(false)
      && !r.isLoading
  {
    var r := SettleStream(t, d, readFails);
    assert r.messages == UpdateLastAssistant(t, r.messages[|r.messages| - 1].content, false).messages;
    assert r.messages[..|b.messages| - 1] == t.messages[..|b.messages| - 1];
  }

  /** The exchange keeps the message skeleton and every message but the
      reply, and always ends with loading over and the reply settled. */
  lemma {:induction false} ExchangeSettlesReply(b: ChatState, transport: Transport, parse: LineOracle)
    requires LastIsAssistant(b.messages)
    ensures var r := Exchange(b, transport, parse);
      && SameSkeleton(b.messages, r.messages)
      && r.messages[..|b.messages| - 1] == b.messages[..|b.messages| - 1]
      && r.messages[|r.messages| - 1].isStreaming == Some(false)
      && !r.isLoading
  {
    if transport.Responded? && transport.ok && transport.body.Some? {
      var d := StreamSpec(transport.body.value.chunks, parse);
      ApplyTotalsShows(b, d.totals);
      SettleKeeps(b, ApplyTotals(b, d.totals), d, transport.body.value.readFails);
    } else {
      SettleKeeps(b, b, Decode([], [], false), false);
    }
  }

  /** An accepted send appends exactly two messages, a user message with the
      given content and then the assistant reply, leaves every earlier
      message alone, and always settles: loading is over and the reply no
      longer streams. */
  lemma {:induction false} SendAppendsTwo(s: ChatState, content: string, ids: Fresh, transport: Transport, parse: LineOracle)
    requires CanSend(s, content)
    ensures var r := SendSpec(s, content, ids, transport, parse);
      && |r.messages| == |s.messages| + 2
      && r.messages[..|s.messages|] == s.messages
      && r.messages[|s.messages|] == UserMessage(ids.userId, content, ids.userAt)
      && r.messages[|s.messages| + 1].id == ids.replyId
      && r.messages[|s.messages| + 1].role == Assistant
      && r.messages[|s.messages| + 1].timestamp == ids.replyAt
      && r.messages[|s.messages| + 1].isStreaming == Some(false)
      && !r.isLoading
  {
    var b := BeginSend(s, content, ids);
    var user := UserMessage(ids.userId, content, ids.userAt);
    assert b.messages[..|b.messages| - 1] == s.messages + [user];
    ExchangeSettlesReply(b, transport, parse);
    var r := Exchange(b, transport, parse);
    assert r.messages[..|s.messages| + 1] == s.messages + [user];
    assert r.messages[..|s.messages|] == (s.messages + [user])[..|s.messages|];
  }

  /** How an accepted send settles. On success the reply holds the
      accumulated `response` texts of the complete lines, the backend counts
      as connected and the cleared error stays cleared. On any failure (no
      response, a response that is not ok or has no body, a read error, a
      line that does not parse) the reply is the apology, the backend counts
      as disconnected and the error is recorded. */
  lemma {:induction false} SendSettles(s: ChatState, content: string, ids: Fresh, transport: Transport, parse: LineOracle)
    requires CanSend(s, content)
    ensures var r := SendSpec(s, content, ids, transport, parse);
      && |r.messages| == |s.messages| + 2
      && var reply := r.messages[|r.messages| - 1];
      && (r.isConnected <==> Succeeds(transport, parse))
      && (Succeeds(transport, parse) ==>
            && reply.content == Accumulated(CompleteLines(Concat(transport.body.value.chunks)), parse)
            && r.error == None)
      && (!Succeeds(transport, parse) ==>
            reply.content == ApologyText && r.error == Some(BackendUnreachable))
  {
    SendAppendsTwo(s, content, ids, transport, parse);
    var b := BeginSend(s, content, ids);
    if transport.Responded? && transport.ok && transport.body.Some? {
      var chunks := transport.body.value.chunks;
      ApplyTotalsShows(b, StreamSpec(chunks, parse).totals);
      StreamMeaning(chunks, parse);
    }
  }

  /** While a reply streams, only that reply is marked as streaming,
      provided no message was streaming before the send. */
  lemma {:induction false} StreamingOnlyLast(s: ChatState, content: string, ids: Fresh, totals: seq<string>)
    requires NoneStreaming(s.messages) && CanSend(s, content)
    ensures OnlyLastStreams(ApplyTotals(BeginSend(s, content, ids), totals).messages)
  {
    var b := BeginSend(s, content, ids);
    ApplyTotalsShows(b, totals);
    var shown := ApplyTotals(b, totals);
    var n := |s.messages|;
    assert |shown.messages| == n + 2;
    forall i | 0 <= i < n + 1 ensures !Streaming(shown.messages[i]) {
      assert shown.messages[i] == b.messages[..n + 1][i];
      if i < n {
        assert b.messages[i] == s.messages[i];
      }
    }
  }

  /** Two non-streaming messages appended to a list with no streaming
      message leave none streaming. */
  lemma {:induction false} NoneStreamingAppendTwo(ms: seq<Message>, r: seq<Message>)
    requires NoneStreaming(ms)
    requires |r| == |ms| + 2 && r[..|ms|] == ms
    requires !Streaming(r[|ms|]) && !Streaming(r[|ms| + 1])
    ensures NoneStreaming(r)
  {
    forall i | 0 <= i < |ms| ensures !Streaming(r[i]) {
      assert r[i] == r[..|ms|][i];
    }
  }

  /** Once a send settles no message is streaming, provided none was before
      it. */
  lemma {:induction false} SettledNoneStreaming(s: ChatState, content: string, ids: Fresh, transport: Transport, parse: LineOracle)
    requires NoneStreaming(s.messages) && CanSend(s, content)
    ensures NoneStreaming(SendSpec(s, content, ids, transport, parse).messages)
  {
    SendAppendsTwo(s, content, ids, transport, parse);
    NoneStreamingAppendTwo(s.messages, SendSpec(s, content, ids, transport, parse).messages);
  }

  /** Appending two messages with new, distinct ids keeps ids unique. */
  lemma {:induction false} IdsUniqueAppendTwo(ms: seq<Message>, r: seq<Message>, x: string, y: string)
    requires IdsUnique(ms) && x != y
    requires forall m :: m in ms ==> m.id != x && m.id != y
    requires |r| == |ms| + 2 && r[..|ms|] == ms && r[|ms|].id == x && r[|ms| + 1].id == y
    ensures IdsUnique(r)
  {
    var n := |ms|;
    forall i, j | 0 <= i < j < |r| ensures r[i].id != r[j].id {
      if j < n {
        assert r[i] == ms[i] && r[j] == ms[j];
      } else if i < n {
        assert r[i] == ms[i];
        assert ms[i] in ms;
      }
    }
  }

  /** Ids stay unique across a send when the two fresh ids are new and
      distinct. */
  lemma {:induction false} SendKeepsIdsUnique(s: ChatState, content: string, ids: Fresh, transport: Transport, parse: LineOracle)
    requires IdsUnique(s.messages)
    requires ids.userId != ids.replyId
    requires forall m :: m in s.messages ==> m.id != ids.userId && m.id != ids.replyId
    ensures IdsUnique(SendSpec(s, content, ids, transport, parse).messages)
  {
    if CanSend(s, content) {
      SendAppendsTwo(s, content, ids, transport, parse);
      IdsUniqueAppendTwo(s.messages, SendSpec(s, content, ids, transport, parse).messages, ids.userId, ids.replyId);
    }
  }

  /** The session: the chat state the hook keeps and the persisted entry. */
  class Session {
    var state: ChatState
    var store: Option<StoredHistory>

    /** The save effect has caught up: a non-empty history is what is
        stored. */
    ghost predicate Valid()
      reads this
    {
      |state.messages| > 0 ==> store == Some(History(state.messages))
    }

    /** The hook as it mounts, before its load and probe effects run. */
    constructor (saved: Option<StoredHistory>)
      ensures state == InitialState && store == saved && Valid()
    {
      state := InitialState;
      store := saved;
    }

    /** The save effect, run after every change of the message list. */
    method Save()
      modifies this`store
      ensures store == SaveEffect(old(store), state.messages) && Valid()
    {
      if |state.messages| > 0 {
        store := Some(History(state.messages));
      }
    }

    /** The load effect of the mount, followed by the save effect it
        triggers. */
    method LoadHistory()
      modifies this
      ensures state == LoadSpec(old(state), old(store))
      ensures store == SaveEffect(old(store), state.messages) && Valid()
    {
      match store {
        case Some(History(ms)) => state := state.(messages := ms);
        case _ =>
      }
      Save();
    }

    /** `sendMessage(content)`, run to its settle. */
    method SendMessage(content: string, ids: Fresh, transport: Transport, parse: LineOracle)
      requires Valid()
      modifies this
      ensures state == SendSpec(old(state), content, ids, transport, parse)
      ensures Valid()
      ensures !CanSend(old(state), content) ==> store == old(store)
    {
      if !CanSend(state, content) {
        return;
      }
      state := AddMessage(state, UserMessage(ids.userId, content, ids.userAt));
      Save();
      state := AddMessage(state, Placeholder(ids.replyId, ids.replyAt)).(isLoading := true, error := None);
      Save();
      RunExchange(transport, parse);
    }

    /** The request, the streaming loop and the settle of a send whose two
        messages are already in place. The decoder's totals are shown in the
        order it produced them. With no messages there is nothing to save,
        and the stored entry stays as it was. */
    method RunExchange(transport: Transport, parse: LineOracle)
      requires Valid()
      modifies this
      ensures state == Exchange(old(state), transport, parse)
      ensures Valid()
      ensures |old(state).messages| == 0 ==> store == old(store)
    {
      ghost var begun := state;
      if transport.Responded? && transport.ok && transport.body.Some? {
        var body := transport.body.value;
        var d, unread := ReadStream(body.chunks, parse);
        var k := 0;
        while k < |d.totals|
          invariant 0 <= k <= |d.totals|
          invariant state == ApplyTotals(begun, d.totals[..k])
          invariant Valid()
          invariant |state.messages| == |begun.messages|
          invariant |begun.messages| == 0 ==> store == old(store)
        {
          assert d.totals[..k + 1][..k] == d.totals[..k];
          state := UpdateLastAssistant(state, d.totals[k], true);
          Save();
          k := k + 1;
        }
        assert d.totals[..k] == d.totals;
        if d.ok && !body.readFails {
          state := UpdateLastAssistant(state, d.content, false);
          Save();
          state := state.(isLoading := false, isConnected := true);
          return;
        }
      }
      state := UpdateLastAssistant(state, ApologyText, false);
      Save();
      state := state.(isLoading := false, isConnected := false, error := Some(BackendUnreachable));
    }

    /** `clearChat()`: the messages and the error are cleared and the stored
        entry is removed, so a later load finds nothing. */
    method ClearChat()
      modifies this
      ensures state == ClearSpec(old(state))
      ensures store == None && Valid()
      ensures LoadSpec(state, store) == state
    {
      state := ClearSpec(state);
      store := None;
    }

    /** One `checkConnection()`: only `isConnected` changes. */
    method CheckConnection(probe: Probe)
      requires Valid()
      modifies this`state
      ensures state == ProbeSpec(old(state), probe) && Valid()
    {
      state := ProbeSpec(state, probe);
    }
  }
}
