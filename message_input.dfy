/**
 * The reply box of management-frontend/src/components/contactCenter/MessageInput.jsx:
 * a text buffer that is sent trimmed and then cleared. The texts handed
 * to `onSend` are recorded in order.
 */
module MessageInput {
  import opened Text

  /** The send button is disabled while the buffer is blank or the box is
      disabled. */
  predicate SendDisabled(message: string, disabled: bool) {
    Trim(message) == "" || disabled
  }

  /** Enter without Shift submits; Shift+Enter inserts a line break. */
  predicate Submits(key: string, shift: bool) {
    key == "Enter" && !shift
  }

  class Box {
    const disabled: bool
    var message: string
    var sent: seq<string>

    /** Every text sent is non-blank and already trimmed. */
    ghost predicate Valid()
      reads this
    {
      forall k :: 0 <= k < |sent| ==> sent[k] != "" && Trim(sent[k]) == sent[k]
    }

    constructor (disabled: bool)
      ensures Valid()
      ensures this.disabled == disabled && message == "" && sent == []
    {
      this.disabled := disabled;
      message := "";
      sent := [];
    }

    /** Typing replaces the buffer. */
    method Type(text: string)
      requires Valid()
      modifies this
      ensures Valid()
      ensures message == text && sent == old(sent)
    {
      message := text;
    }

    /** `handleSubmit`: a non-blank buffer in an enabled box is sent
        trimmed and the buffer cleared; otherwise nothing happens. The
        submit happens exactly when the send button is enabled. */
    method Submit()
      requires Valid()
      modifies this
      ensures Valid()
      ensures SendDisabled(old(message), disabled) ==> message == old(message) && sent == old(sent)
      ensures !SendDisabled(old(message), disabled) ==> message == "" && sent == old(sent) + [Trim(old(message))]
    {
      var text := Trim(message);
      if text != "" && !disabled {
        TrimIdempotent(message);
        sent := sent + [text];
        message := "";
      }
    }

    /** `handleKeyDown`: Enter without Shift submits, any other key leaves
        everything as it was. */
    method KeyDown(key: string, shift: bool)
      requires Valid()
      modifies this
      ensures Valid()
      ensures Submits(key, shift) && !SendDisabled(old(message), disabled) ==>
                message == "" && sent == old(sent) + [Trim(old(message))]
      ensures !Submits(key, shift) || SendDisabled(old(message), disabled) ==>
                message == old(message) && sent == old(sent)
    {
      if key == "Enter" && !shift {
        Submit();
      }
    }
  }

  /** A disabled box never sends, whatever is typed and submitted. */
  method DisabledNeverSends(texts: seq<string>) returns (sent: seq<string>)
    ensures sent == []
  {
    var box := new Box(true);
    for i := 0 to |texts|
      invariant box.Valid() && box.sent == [] && box.disabled
    {
      box.Type(texts[i]);
      box.Submit();
    }
    sent := box.sent;
  }

  /** Typing and submitting each text in turn sends exactly the non-blank
      ones, trimmed, in order. */
  method SendsNonBlank(texts: seq<string>) returns (sent: seq<string>)
    ensures sent == NonBlankTrimmed(texts)
  {
    var box := new Box(false);
    for i := 0 to |texts|
      invariant box.Valid() && !box.disabled
      invariant box.sent == NonBlankTrimmed(texts[..i])
    {
      box.Type(texts[i]);
      box.Submit();
      NonBlankTrimmedStep(texts, i);
    }
    assert texts[..|texts|] == texts;
    sent := box.sent;
  }

  /** The trimmed non-blank texts of `texts`, in order. */
  function NonBlankTrimmed(texts: seq<string>): (r: seq<string>)
    ensures |r| <= |texts|
    ensures forall k :: 0 <= k < |r| ==> r[k] != "" && Trim(r[k]) == r[k]
  {
    if texts == [] then []
    else
      var init := NonBlankTrimmed(texts[..|texts| - 1]);
      var t := Trim(texts[|texts| - 1]);
      TrimIdempotent(texts[|texts| - 1]);
      if t == "" then init else init + [t]
  }

  lemma NonBlankTrimmedStep(texts: seq<string>, i: nat)
    requires i < |texts|
    ensures NonBlankTrimmed(texts[..i + 1]) ==
              NonBlankTrimmed(texts[..i]) + (if Trim(texts[i]) == "" then [] else [Trim(texts[i])])
  {
    assert texts[..i + 1][..i] == texts[..i];
  }
}
