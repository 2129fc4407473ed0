# DeepLLM chat: a Dafny model of the session hook, the stream decoder, the input box and the backend's decision logic

DeepLLM is a terminal-styled browser chat client for a language model served
through Ollama, with a small Flask and Celery backend. This project models the
parts of it that make decisions and proves what they promise.

- **The chat hook** (`useChat`). The frontend keeps a `ChatState`: the
  message list, `isLoading`, `isConnected` and `error`.
  - `sendMessage` refuses blank input and a send already in flight.
  - Otherwise it appends the user message and an empty, streaming assistant
    placeholder.
  - It then reads a newline-delimited JSON body chunk by chunk. A line buffer
    carries partial lines across chunks and skips blank lines. Each line's
    `response` text is added to a running total, and every total is shown in
    the placeholder as it grows.
  - It settles exactly once: on success with the final total, on any failure
    with a fixed apology and `error = 'Backend not reachable'`.
  - `clearChat`, the health probe and the history load/save effects are
    modelled too.
  - In `LineDecoder`, the decoder is an imperative method with the source's
    two nested loops. It is proved equal to a whole-body reference
    (`StreamSpec`), which fold-splits the concatenated body on newlines. Every
    property of the stream is then proved about that reference.
  - In `ChatSession`, the `setState` updaters are pure functions. A `Session`
    class runs them in the source's order over its `state` and `store`
    fields.
- **The input box** (`TerminalInput`).
  - The submit rule trims the input and sends it unless it is blank or a
    reply is loading.
  - The key dispatch maps Ctrl+`l` to clear, Enter without Shift to submit,
    and anything else to the textarea's default.
  - The send button is disabled exactly when a submit would do nothing.
- **The backend** (`Backend`). Four pure decisions over abstract inputs:
  - the `/chat` request validation;
  - the `/api/result` mapping from a task's Celery state to its reply;
  - the worker task's conversion of Ollama's answer into its result record;
  - the `/health` classification.

  Python's truthiness, `in`, `dict.get` and the exceptions that `.get` and
  `.strip` raise on a value of the wrong type are written out.

Supporting modules:

- `Text` has JavaScript's `trim`, Python's `strip` and JavaScript's
  `split`. Each is proved against an independent characterisation: a trim is
  the unique whitespace-free slice, and split and join are inverse.
- `ChatTypes` has the records and their invariants.
- `Wrappers` has `Option`.

Files: `wrappers.dfy`, `text.dfy`, `chat_types.dfy`, `line_decoder.dfy`,
`chat_session.dfy`, `terminal_input.dfy`, `backend.dfy`.

In these places the code behaves differently from what a reader might expect,
and the model follows the code:

- The decoder never flushes the partial line left in the buffer when the body
  ends (`LineDecoder.TrailingPartialDiscarded`).
- The user message is stored untrimmed. Only the guard trims.
- Only the newline-delimited JSON mode of `/chat/stream` exists. There is no
  raw-text mode.
- A stored history whose text `JSON.parse` rejects leaves the messages as
  they were. It does not reset them.

## Model

| member | source | states |
|---|---|---|
| Text.Trim | frontend/src/hooks/useChat.ts:127 | `trim` gives the empty string exactly when every character is whitespace |
| Text.TrimIsTrimOf | frontend/src/hooks/useChat.ts:127 | the result of `trim` is a slice whose cut-off ends are whitespace and which neither starts nor ends with whitespace |
| Text.TrimOfUnique | frontend/src/hooks/useChat.ts:127 | at most one such slice exists, so that characterisation defines `trim` |
| Text.TrimIdempotent | frontend/src/components/TerminalInput.tsx:16-17 | trimming an already trimmed text changes nothing |
| Text.Split | frontend/src/hooks/useChat.ts:123 | `split` always yields at least one piece |
| Text.SplitPiecesFree | frontend/src/hooks/useChat.ts:123 | no piece of a split contains the separator |
| Text.JoinSplit | frontend/src/hooks/useChat.ts:122-124 | joining the pieces of a split with the separator gives back the string |
| Text.SplitJoin | frontend/src/hooks/useChat.ts:123 | splitting a join of separator-free pieces gives back the pieces |
| Text.SplitAppend | frontend/src/hooks/useChat.ts:122-124 | splitting a concatenation equals splitting the first part, then re-splitting its last piece followed by the second part (chunk boundaries do not matter) |
| LineDecoder.Feed | frontend/src/hooks/useChat.ts:122-124 | after a chunk the buffer holds no newline, no complete line holds one, and the complete lines joined with newlines, followed by a newline and the new buffer, equal the old buffer followed by the chunk |
| LineDecoder.ReadStream | frontend/src/hooks/useChat.ts:118-135 | the chunk loop with its inner line loop computes the whole-body reference decode, whatever the chunk boundaries; when every line parses, the buffer left is the body's last, unterminated piece |
| LineDecoder.LineStepRules | frontend/src/hooks/useChat.ts:126-133 | blank lines and lines whose `response` is absent or empty change nothing; a non-empty `response` is appended to the content and the new total is reported; a non-blank line that does not parse stops the decode |
| LineDecoder.FoldLinesMeaning | frontend/src/hooks/useChat.ts:126-133 | a run of lines decodes without error exactly when each line parses, and the content then becomes the old content followed by the lines' texts in order |
| LineDecoder.FoldLinesGrows | frontend/src/hooks/useChat.ts:130-133 | decoding only extends: old content and old totals are prefixes of the new ones, and every total is a proper prefix of the next |
| LineDecoder.StreamMeaning | frontend/src/hooks/useChat.ts:118-137 | a whole body decodes without error exactly when every complete line parses; the final content is the accumulated texts of the complete lines; the shown totals grow by prefix and end at the final content |
| LineDecoder.TrailingPartialDiscarded | frontend/src/hooks/useChat.ts:118-124 | a last chunk without a newline changes nothing: the partial buffer is never flushed |
| ChatSession.AddMessage | frontend/src/hooks/useChat.ts:45-59 | the message is appended after all existing messages and nothing else changes |
| ChatSession.UpdateLastAssistant | frontend/src/hooks/useChat.ts:61-76 | length, ids, roles and timestamps are kept and only the last message can change; if it is an assistant message it gets the content and flag, otherwise nothing changes; the flags are untouched |
| ChatSession.BeginSend | frontend/src/hooks/useChat.ts:83-99 | the user message with the untrimmed content, then an empty streaming assistant placeholder, are appended; loading starts and the error is cleared |
| ChatSession.ApplyTotalsShows | frontend/src/hooks/useChat.ts:130-133 | the streaming updates keep the skeleton and every message but the reply, which shows the latest total and is still streaming |
| ChatSession.SendGuard | frontend/src/hooks/useChat.ts:81 | a blank content or a send in flight leaves the state exactly as it was |
| ChatSession.SettleKeeps | frontend/src/hooks/useChat.ts:137-152 | either settle keeps the skeleton and all earlier messages, ends loading and marks the reply as no longer streaming |
| ChatSession.ExchangeSettlesReply | frontend/src/hooks/useChat.ts:101-153 | whatever the request produced, the skeleton (length, ids, roles, timestamps) and every message before the reply are kept, the reply is no longer streaming, and loading has ended |
| ChatSession.SendAppendsTwo | frontend/src/hooks/useChat.ts:81-153 | an accepted send appends exactly two messages, the user message with the given content and then the assistant reply, keeps all earlier messages, and ends with loading over and the reply settled |
| ChatSession.SendSettles | frontend/src/hooks/useChat.ts:108-153 | connected afterwards exactly when the response was ok, had a body, read to its end and every line parsed; then the reply holds the accumulated texts and the error stays cleared, otherwise it is the apology and the error is `Backend not reachable` |
| ChatSession.StreamingOnlyLast | frontend/src/hooks/useChat.ts:85-133 | starting from no streaming message, only the last message, the assistant reply, streams while the totals are shown |
| ChatSession.SettledNoneStreaming | frontend/src/hooks/useChat.ts:137-145 | starting from no streaming message, no message streams once the send settles |
| ChatSession.IdsUniqueAppendTwo | frontend/src/hooks/useChat.ts:47 | appending two messages with new, distinct ids keeps ids unique |
| ChatSession.SendKeepsIdsUnique | frontend/src/hooks/useChat.ts:83-96 | with fresh distinct ids a send keeps message ids unique |
| ChatSession.ClearSpec | frontend/src/hooks/useChat.ts:159-164 | messages become empty and the error is cleared; `isLoading` and `isConnected` are kept |
| ChatSession.ProbeSpec | frontend/src/hooks/useChat.ts:169-180 | connected exactly when the probe answered with a 2xx status; nothing else changes |
| ChatSession.SaveEffect | frontend/src/hooks/useChat.ts:38-42 | a non-empty message list is written; an empty one leaves the store alone |
| ChatSession.LoadSpec | frontend/src/hooks/useChat.ts:19-35 | a stored message list replaces the messages; a missing entry, or one whose text `JSON.parse` rejects, leaves them unchanged; nothing else changes |
| ChatSession.Session.constructor | frontend/src/hooks/useChat.ts:11-16 | the hook starts with no messages, not loading, connected and no error |
| ChatSession.Session.Save | frontend/src/hooks/useChat.ts:38-42 | the store follows the save rule and afterwards holds every non-empty history |
| ChatSession.Session.LoadHistory | frontend/src/hooks/useChat.ts:19-35 | the state becomes the load result and the save effect it triggers runs |
| ChatSession.Session.SendMessage | frontend/src/hooks/useChat.ts:79-156 | the session state after a send is the send's reference result, and the store holds the resulting history |
| ChatSession.Session.RunExchange | frontend/src/hooks/useChat.ts:101-153 | the request, the loop showing each total in order, and the settle produce the exchange's reference result; the store keeps the history in step, and with no messages it stays as it was |
| ChatSession.Session.ClearChat | frontend/src/hooks/useChat.ts:159-166 | the state is cleared, the stored entry is removed, and a later load changes nothing |
| ChatSession.Session.CheckConnection | frontend/src/hooks/useChat.ts:169-180 | only `isConnected` changes, to the probe's outcome |
| TerminalInput.KeyDispatch | frontend/src/components/TerminalInput.tsx:25-41 | clear exactly on Ctrl+`l`; submit exactly on Enter without Shift; otherwise the key passes through |
| TerminalInput.KeyDispatchCases | frontend/src/components/TerminalInput.tsx:28-38 | Ctrl+`l` never submits; Ctrl+Shift+L (key `L`) and Shift+Enter do nothing; Enter alone submits and prevents the default |
| TerminalInput.SubmitDecision | frontend/src/components/TerminalInput.tsx:15-23 | a text is sent exactly when the button would be enabled (line 82), and it is the trimmed, non-empty input |
| TerminalInput.SubmittedTextIsTrimmed | frontend/src/components/TerminalInput.tsx:16-17 | the sent text is already trimmed and not blank, so the hook's guard accepts it for content |
| TerminalInput.InputBox.constructor | frontend/src/components/TerminalInput.tsx:12 | the box starts empty |
| TerminalInput.InputBox.Edit | frontend/src/components/TerminalInput.tsx:69-73 | the input takes the typed value, except while the textarea is disabled by loading |
| TerminalInput.InputBox.HandleSubmit | frontend/src/components/TerminalInput.tsx:15-23 | sends the submit decision and empties the box exactly when something was sent; otherwise the input is unchanged |
| TerminalInput.InputBox.HandleKeyDown | frontend/src/components/TerminalInput.tsx:25-41 | clears on Ctrl+`l` without submitting, submits on Enter without Shift, and prevents the default exactly when it acts |
| Backend.Get | backend/app.py:133-134 | `dict.get` yields the value under the key, or the default when the key is absent |
| Backend.ModelName | backend/app.py:23 | the configured model is `MODEL_NAME`, defaulting to `llama2` |
| Backend.Chat | backend/app.py:120-156 | a task is queued exactly when the reply is 202, and every reply is 202, 400 or 500 |
| Backend.ChatRejectsMissingMessage | backend/app.py:128-131 | a falsy body, or an object without `message`, gets 400 with the missing-field error and queues nothing |
| Backend.ChatRejectsBlankMessage | backend/app.py:133-139 | a `message` that is blank after `strip()` gets 400 with the empty-message error |
| Backend.ChatAccepts | backend/app.py:133-150 | 202 exactly when the body is an object whose `message` is a non-blank string and the task was queued; the task then gets the stripped message and the requested or configured model, and the reply has the task id and `PENDING` |
| Backend.ProcessRequest | backend/app.py:43-99 | the worker always returns a record with status `SUCCESS` or `FAILURE`; `SUCCESS` exactly when Ollama replied with a JSON object; a failure record has an error and no result |
| Backend.ProcessRequestResult | backend/app.py:72-87 | success carries Ollama's `response` (default `''`) and the model; a timeout carries the fixed timeout message |
| Backend.GetResult | backend/app.py:160-207 | every reply is 200 or 500 and has a `status` |
| Backend.GetResultEchoesState | backend/app.py:164-207 | every 200 reply echoes the task state as its status and has a `result` that is null unless the state is `SUCCESS`; every 500 reply has status `ERROR` |
| Backend.GetResultStates | backend/app.py:167-198 | `PENDING` and `PROCESSING` carry no result; `SUCCESS` carries the record's result and model with their defaults; `FAILURE` with an empty result reports `Task failed`, with a dictionary its `error` (default `Task failed`), and with a stored exception or other value answers 500 with the `AttributeError` text; any other state is echoed with `Task state: ` and the state |
| Backend.FailedTaskReportedAsSuccess | backend/app.py:179-185 | a task whose Ollama call failed is reported as `SUCCESS` with an empty result, and its error is lost |
| Backend.GetResultCorrected | backend/app.py:179-192 | a finished task whose record says `FAILURE` is reported as a failure with no result |
| Backend.CorrectedReportsTaskOutcome | backend/app.py:179-192 | with the correction, `SUCCESS` is reported exactly when the Ollama call succeeded, a failure carries the task's own error, and successful tasks are answered as before |
| Backend.HealthCheck | backend/app.py:103-116 | always HTTP 200 with status `running` and the configured model; `healthy` exactly when the probe answered 200, otherwise `unhealthy` |

## Left out

- The network is an input and is not modelled:
  - `fetch`, `reader.read()` and the `/health` probe's five-second `AbortSignal.timeout`;
  - the 30-second `setInterval` polling (`useChat.ts:182-186`);
  - the backend's HTTP calls to Ollama.

  The model takes what they produced: the transport outcome, the chunk list with a read-error flag, and the probe outcome.
- `TextDecoder` is not modelled. Chunks arrive already decoded to text.
- `JSON.parse(line)` and the `json.response` lookup are not modelled. They form an abstract line oracle that answers "does not parse" or the optional `response` text. A line whose value is `null`, where the lookup throws, counts as "does not parse". A falsy `response` (absent, empty, `0`, `false`, `null`) is `Parsed(None)`; a truthy one is its string form.
- `LineDecoder.LineStep`: a truthy `response` whose string form is empty (such as `[]`) makes the program call `updateLastAssistant` again with an unchanged total. The oracle cannot express that case, because `Parsed(Some(""))` is skipped, and `LineDecoder.Chained` relies on every reported total being a proper extension. The visible state is the same either way.
- `crypto.randomUUID()` and `new Date()` become the `Fresh` parameter of a send.
- `localStorage` becomes the `store` field. It holds a history, text that `JSON.parse` rejects, or nothing. `JSON.stringify` and the timestamp revival on load are not modelled.
- `ChatSession.LoadSpec`: an entry that `JSON.parse` accepts but that is not an array of message records (such as `{}`, `null`, `5`, `[null]`, `[5]` or `[{}]`) is not modelled. When it is not an array of non-null values, the `map` inside the `setState` updater throws while React renders, outside the `try` of `useChat.ts:23-34`. Nothing catches that error, the component using the hook fails to render, and the entry stays in storage, so the next mount fails the same way. `[5]` and `[{}]` load without an error, as messages that lack their fields. The app itself only writes message arrays.
- React scheduling is not modelled, and the session's steps run as sequential method calls:
  - there is no batching or re-rendering;
  - the stale closure over `state.isLoading` (`useChat.ts:155`) is not modelled;
  - a probe or `clearChat` landing while a send is in flight is not modelled. `ChatSession.StreamingOnlyLast` and `ChatSession.SettledNoneStreaming` assume a history with no streaming message: a history saved mid-stream is reloaded with `isStreaming` still true.
- Flask routing, `jsonify`'s serialization and Celery's dispatch and result storage are not modelled. Their outcomes are parameters: the parsed body or the exception `get_json()` raised, the queued task id or the dispatch exception, and the stored state and result.
- Logging in `app.py` is not modelled.
- Celery's `update_state(state='PROCESSING', ...)` inside the worker is not modelled. If it raises, the model takes the `Unexpected` outcome.
- `Backend.ProcessRequest`: a timeout is its own `TimedOut` case with the fixed message. `RequestFailed` carries the text of any other `requests` exception: a connection error, an HTTP error status and, with `requests` 2.27 or later, a body that is not JSON.
- JSON numbers are integers. Python's float truthiness and the type name `float` are not modelled.
- `list_models` (`app.py:210-229`) is outside the modelled core.
- `celery_worker.py` only starts the worker.
- The whitespace sets of `trim` and `strip` are finite tables: the Unicode space separators plus the control characters each language adds. Python's `isspace` follows the Unicode database of the running interpreter.
- The presentation components are not modelled:
  - `MessageBubble.tsx`, `CodeBlock.tsx`, `ChatWindow.tsx`, `Header.tsx`, `LoadingIndicator.tsx` and `StatusIndicator.tsx`;
  - the page-level Ctrl+L hook in `Index.tsx`;
  - the textarea auto-resize (`TerminalInput.tsx:43-49`).
- The frontend requests `/chat/stream`, but `app.py` defines only `/chat`, which answers with a task id rather than a stream. The hook and the backend are therefore modelled independently. Nothing ties the chunk stream to `Backend.Chat`.
- The backend's `/health` always answers HTTP 200, so the frontend's `isConnected` does not reflect `ollama_connection`. The model states both sides as written (`ChatSession.ProbeSpec`, `Backend.HealthCheck`).

## Findings

| source | as written | input that shows it | evidently intended | confidence | as-written member | corrected member |
|---|---|---|---|---|---|---|
| backend/app.py:82-99, 179-192 | The worker task catches every exception and returns a `{'status': 'FAILURE', 'error': ...}` record, so Celery stores the task in state `SUCCESS`. The `SUCCESS` branch of `get_result` then reports `SUCCESS` with `result: ''` and the default model, and the error text is lost. The `FAILURE` branch, which reads `error`, is never reached for these failures. | The Ollama call times out (or Ollama is down), then `GET /api/result/<id>` is called | The reply reports `FAILURE` with the task's own error text | medium, not executed | Backend.FailedTaskReportedAsSuccess | Backend.GetResultCorrected, Backend.CorrectedReportsTaskOutcome |
