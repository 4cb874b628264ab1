/** The message composer: a draft that is trimmed before it is handed to
    the page, never handed over when it is blank, and cleared once it has
    been sent. */
module MessageInput {
  import opened Base
  import opened Text

  /** What a send of `draft` hands to `onSendMessage`: the trimmed draft,
      or nothing when the trimmed draft is empty. */
  function SendOutcome(draft: string): (r: Option<string>)
    ensures r.None? <==> AllWhitespace(draft)
    ensures r.Some? ==> r.value != ""
    ensures r.Some? ==>
              exists a :: SliceAt(draft, r.value, a) && AllWhitespace(draft[..a]) && AllWhitespace(draft[a + |r.value|..])
    ensures r.Some? ==> !IsWhitespace(r.value[0]) && !IsWhitespace(r.value[|r.value| - 1])
  {
    var t := Trim(draft);
    if t != "" then Some(t) else None
  }

  /** Text that was handed over once is handed over unchanged if it is
      sent again: the outgoing text is already trimmed. */
  lemma SendOutcomeStable(draft: string)
    requires SendOutcome(draft).Some?
    ensures SendOutcome(SendOutcome(draft).value) == SendOutcome(draft)
  {
    TrimIdempotent(draft);
  }

  /** The send button's `disabled || !message.trim()`. */
  predicate SendButtonDisabled(disabled: bool, draft: string) {
    disabled || Trim(draft) == ""
  }

  /** The button is enabled exactly when a click would hand text over. */
  lemma SendButtonMatchesOutcome(disabled: bool, draft: string)
    ensures !SendButtonDisabled(disabled, draft) <==> !disabled && SendOutcome(draft).Some?
  {
  }

  /** `e.key === "Enter" && !e.shiftKey`. */
  predicate SendsOnKey(key: string, shiftKey: bool) {
    key == "Enter" && !shiftKey
  }

  class Composer {
    var draft: string

    constructor ()
      ensures draft == ""
    {
      draft := "";
    }

    /** The textarea's `onChange`. */
    method Edit(text: string)
      modifies this
      ensures draft == text
    {
      draft := text;
    }

    /** `handleSend`: hand over the trimmed draft at most once; on a send
        the draft is cleared, on a blank draft nothing changes. */
    method HandleSend() returns (sent: Option<string>)
      modifies this
      ensures sent == SendOutcome(old(draft))
      ensures sent.Some? ==> draft == ""
      ensures sent.None? ==> draft == old(draft)
    {
      var trimmed := Trim(draft);
      if trimmed != "" {
        sent := Some(trimmed);
        draft := "";
      } else {
        sent := None;
      }
    }

    /** `handleKeyPress`: Enter without Shift sends; any other key, and
        Shift+Enter, leaves everything as it was. */
    method HandleKeyPress(key: string, shiftKey: bool) returns (sent: Option<string>)
      modifies this
      ensures SendsOnKey(key, shiftKey) ==> sent == SendOutcome(old(draft))
      ensures SendsOnKey(key, shiftKey) && sent.Some? ==> draft == ""
      ensures !SendsOnKey(key, shiftKey) ==> sent.None?
      ensures sent.None? ==> draft == old(draft)
    {
      if key == "Enter" && !shiftKey {
        sent := HandleSend();
      } else {
        sent := None;
      }
    }
  }
}
