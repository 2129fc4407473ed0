/** The input box: the text being typed, the submit rule shared by the
    Enter key and the send button, and the key dispatch (Ctrl+L clears the
    chat, Enter without Shift submits, everything else is left to the
    textarea). */
module TerminalInput {
  import opened Wrappers
  import opened Text

  /** The parts of a `keydown` event the handler looks at. */
  datatype KeyEvent = KeyEvent(key: string, ctrl: bool, shift: bool)

  /** What a key press does: ask the chat to clear, submit the input, or
      nothing (the textarea handles the key as usual). */
  datatype KeyAction = ClearChat | Submit | PassThrough

  /** The key dispatch. The Ctrl+L test comes first and returns, so it wins
      over the Enter test. */
  function KeyDispatch(e: KeyEvent): (a: KeyAction)
    ensures a == ClearChat <==> e.ctrl && e.key == "l"
    ensures a == Submit <==> e.key == "Enter" && !e.shift
    ensures a == PassThrough <==> !(e.ctrl && e.key == "l") && !(e.key == "Enter" && !e.shift)
  {
    if e.ctrl && e.key == "l" then ClearChat
    else if e.key == "Enter" && !e.shift then Submit
    else PassThrough
  }

  /** The handler calls `preventDefault` exactly when it acts on the key. */
  predicate PreventsDefault(e: KeyEvent) {
    KeyDispatch(e) != PassThrough
  }

  /** The send button is disabled while loading or while the input is blank
      once trimmed. */
  predicate SendDisabled(input: string, isLoading: bool) {
    JsTrim(input) == [] || isLoading
  }

  /** The text a submit passes to `onSend`, if any: the trimmed input,
      provided it is not empty and no reply is loading. */
  function SubmitDecision(input: string, isLoading: bool): (sent: Option<string>)
    ensures sent.Some? <==> !SendDisabled(input, isLoading)
    ensures sent.Some? ==> sent.value == JsTrim(input) && sent.value != []
  {
    var trimmed := JsTrim(input);
    if trimmed != [] && !isLoading then Some(trimmed) else None
  }

  /** What the hook's own guard makes of a submitted text: the text the box
      sends is never blank, and it is already trimmed, so the box never
      sends what `sendMessage` would ignore for blankness and the hook
      stores exactly the trimmed input. */
  lemma {:induction false} SubmittedTextIsTrimmed(input: string, isLoading: bool)
    ensures var sent := SubmitDecision(input, isLoading);
      sent.Some? ==> JsTrim(sent.value) == sent.value && !AllSpace(sent.value, JsSpace)
  {
    var sent := SubmitDecision(input, isLoading);
    if sent.Some? {
      TrimIdempotent(input, JsSpace);
    }
  }

  /** Ctrl+L clears and never submits, whatever else is held; with Shift the
      key reported is `L` and nothing happens. Shift+Enter neither submits
      nor clears. */
  lemma {:induction false} KeyDispatchCases(e: KeyEvent)
    ensures e.ctrl && e.key == "l" ==> KeyDispatch(e) == ClearChat
    ensures e.key == "L" ==> KeyDispatch(e) == PassThrough
    ensures e.key == "Enter" && e.shift ==> KeyDispatch(e) == PassThrough
    ensures e.key == "Enter" && !e.shift ==> KeyDispatch(e) == Submit && PreventsDefault(e)
  {
  }

  /** What one key press did: whether `onClearChat` was called, the text
      passed to `onSend` if any, and whether the default was prevented. */
  datatype KeyOutcome = KeyOutcome(cleared: bool, sent: Option<string>, preventDefault: bool)

  /** The input box's own state. */
  class InputBox {
    var input: string

    constructor ()
      ensures input == []
    {
      input := [];
    }

    /** The textarea's `onChange`. A disabled textarea (while loading)
        receives no edits. */
    method Edit(value: string, isLoading: bool)
      modifies this
      ensures input == if isLoading then old(input) else value
    {
      if !isLoading {
        input := value;
      }
    }

    /** `handleSubmit`, run by the Enter key and by the send button: the
        trimmed input is sent and the box emptied, or nothing happens. */
    method HandleSubmit(isLoading: bool) returns (sent: Option<string>)
      modifies this
      ensures sent == SubmitDecision(old(input), isLoading)
      ensures input == if sent.Some? then [] else old(input)
    {
      var trimmed := JsTrim(input);
      if trimmed != [] && !isLoading {
        sent := Some(trimmed);
        input := [];
      } else {
        sent := None;
      }
    }

    /** `handleKeyDown`. */
    method HandleKeyDown(e: KeyEvent, isLoading: bool) returns (outcome: KeyOutcome)
      modifies this
      ensures outcome.cleared <==> KeyDispatch(e) == ClearChat
      ensures outcome.preventDefault <==> PreventsDefault(e)
      ensures KeyDispatch(e) == Submit ==> outcome.sent == SubmitDecision(old(input), isLoading)
      ensures KeyDispatch(e) != Submit ==> outcome.sent == None
      ensures input == if outcome.sent.Some? then [] else old(input)
    {
      if e.ctrl && e.key == "l" {
        outcome := KeyOutcome(true, None, true);
        return;
      }
      if e.key == "Enter" && !e.shift {
        var sent := HandleSubmit(isLoading);
        outcome := KeyOutcome(false, sent, true);
      } else {
        outcome := KeyOutcome(false, None, false);
      }
    }
  }
}
