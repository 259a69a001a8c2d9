/**
 * The visitor's chat window of management-frontend/src/components/chatbot/ChatPopup.jsx:
 * the messages a visitor types before introducing themselves, the
 * introduction form and its submission, which becomes a new ticket, and
 * which parts of the window show at each point.
 */
module ChatPopup {
  import opened Wrappers
  import opened Text
  import opened Domain
  import TicketController

  const FillAllFields := "Please fill in all fields"
  const SomethingWrong := "Something went wrong"
  const SubmitFailed := "Failed to submit. Please try again."
  const NewConversation := "New conversation started"

  /** A custom message as the settings hold it: a string, or some other
      JSON value. */
  datatype Custom = Str(text: string) | NotString

  /** `hasMessage1` / `hasMessage2`: the custom message is a string that
      is not blank. */
  predicate Shown(m: Option<Custom>) {
    m.Some? && m.value.Str? && m.value.text != "" && Trim(m.value.text) != ""
  }

  /** The body of `POST /tickets`. */
  datatype TicketBody = TicketBody(userName: string, userPhone: string, userEmail: string, initialMessage: string)

  /** `userMessages[0] || 'New conversation started'`: only the first
      message typed is sent. */
  function InitialMessageOf(ms: seq<string>): (r: string)
    ensures |ms| > 0 && ms[0] != "" ==> r == ms[0]
    ensures ms == [] ==> r == NewConversation
  {
    if |ms| > 0 && ms[0] != "" then ms[0] else NewConversation
  }

  /** Messages typed after the first never reach the ticket. */
  lemma LaterMessagesIgnored(ms: seq<string>, more: seq<string>)
    requires |ms| > 0
    ensures InitialMessageOf(ms + more) == InitialMessageOf(ms)
  {
    assert (ms + more)[0] == ms[0];
  }

  /** What the reply to the submission says: the ticket was created, or
      the server's message when it was not; `None` when the request or the
      reading of its reply fails. */
  function ReplyOf(r: Response<TicketController.Created>): (m: Option<string>)
    ensures m.None? <==> r.Ok?
  {
    if r.Ok? then None else Some(r.message)
  }

  /** A text the popup keeps: trimmed and not blank. */
  predicate Sendable(s: string) {
    Trim(s) == s && s != ""
  }

  class Popup {
    var name: string
    var phone: string
    var email: string
    var message: string
    var userMessages: seq<string>
    var isSubmitting: bool
    var submitted: bool
    var error: string

    /** Every message kept is trimmed and not blank. */
    ghost predicate Valid()
      reads this
    {
      forall i :: 0 <= i < |userMessages| ==> Sendable(userMessages[i])
    }

    constructor (formSubmitted: bool)
      ensures Valid()
      ensures name == "" && phone == "" && email == "" && message == "" && userMessages == []
      ensures !isSubmitting && submitted == formSubmitted && error == ""
    {
      name, phone, email, message := "", "", "", "";
      userMessages := [];
      isSubmitting, submitted, error := false, formSubmitted, "";
    }

    /** `handleInputChange`: the form fields change and the error clears. */
    method InputChange(name: string, phone: string, email: string)
      modifies this
      ensures this.name == name && this.phone == phone && this.email == email && error == ""
      ensures message == old(message) && userMessages == old(userMessages)
      ensures isSubmitting == old(isSubmitting) && submitted == old(submitted)
    {
      this.name, this.phone, this.email := name, phone, email;
      error := "";
    }

    /** Typing in the message input. */
    method Type(text: string)
      modifies this`message
      ensures message == text
    {
      message := text;
    }

    /** `handleSendMessage`: before the form is submitted a message that is
        not blank is kept trimmed and the input clears; otherwise nothing
        happens. */
    method SendMessage()
      requires Valid()
      modifies this
      ensures Valid()
      ensures name == old(name) && phone == old(phone) && email == old(email) && error == old(error)
      ensures isSubmitting == old(isSubmitting) && submitted == old(submitted)
      ensures Trim(old(message)) != "" && !submitted ==>
                userMessages == old(userMessages) + [Trim(old(message))] && message == ""
      ensures Trim(old(message)) == "" || submitted ==>
                userMessages == old(userMessages) && message == old(message)
    {
      var text := Trim(message);
      if text != "" && !submitted {
        TrimIdempotent(message);
        userMessages := userMessages + [text];
        message := "";
      }
    }

    /** `handleFormSubmit` with the outcome of the request (`None` when the
        request or the reading of its reply fails, otherwise what the reply
        says): an empty field shows an error and sends nothing; otherwise
        the body is sent, and the window is marked submitted only when the
        ticket was created. */
    method FormSubmit(outcome: Option<Option<string>>) returns (sent: Option<TicketBody>)
      requires Valid()
      modifies this
      ensures Valid()
      ensures name == old(name) && phone == old(phone) && email == old(email)
      ensures message == old(message) && userMessages == old(userMessages) && !isSubmitting
      ensures name == "" || phone == "" || email == "" ==>
                sent == None && error == FillAllFields && submitted == old(submitted)
      ensures name != "" && phone != "" && email != "" ==>
                && sent == Some(TicketBody(name, phone, email, InitialMessageOf(userMessages)))
                && (outcome == Some(None) ==> submitted && error == old(error))
                && (outcome.Some? && outcome.value.Some? ==>
                      submitted == old(submitted)
                      && error == (if outcome.value.value != "" then outcome.value.value else SomethingWrong))
                && (outcome.None? ==> submitted == old(submitted) && error == SubmitFailed)
    {
      if name == "" || phone == "" || email == "" {
        error := FillAllFields;
        isSubmitting := false;
        return None;
      }
      isSubmitting := true;
      sent := Some(TicketBody(name, phone, email, InitialMessageOf(userMessages)));
      if outcome.None? {
        error := SubmitFailed;
      } else if outcome.value.None? {
        submitted := true;
      } else {
        error := if outcome.value.value != "" then outcome.value.value else SomethingWrong;
      }
      isSubmitting := false;
    }

    /** The introduction form shows once a message is kept and until the
        form is submitted. */
    predicate ShowsIntroForm()
      reads this
    {
      |userMessages| > 0 && !submitted
    }

    /** "Start a conversation" shows before any message and submission. */
    predicate ShowsStart()
      reads this
    {
      |userMessages| == 0 && !submitted
    }

    /** The thank-you bubble. */
    predicate ShowsThanks()
      reads this
    {
      submitted
    }

    /** The bot's bubbles show after the first message when either custom
        message is shown. */
    predicate ShowsCustom(message1: Option<Custom>, message2: Option<Custom>)
      reads this
    {
      |userMessages| > 0 && (Shown(message1) || Shown(message2))
    }
  }

  /** At every moment exactly one of the prompt, the introduction form and
      the thank-you bubble shows. */
  lemma OnePromptAtATime(p: Popup)
    ensures p.ShowsStart() || p.ShowsIntroForm() || p.ShowsThanks()
    ensures !(p.ShowsStart() && p.ShowsIntroForm())
    ensures !(p.ShowsStart() && p.ShowsThanks())
    ensures !(p.ShowsIntroForm() && p.ShowsThanks())
  {
  }

  /** The body the popup sends, read by the ticket endpoint. */
  function NewTicketOf(b: TicketBody): (t: TicketController.NewTicket)
    ensures t.userName == Some(b.userName) && t.userPhone == Some(b.userPhone) && t.userEmail == Some(b.userEmail)
    ensures t.initialMessage == Some(b.initialMessage)
  {
    TicketController.NewTicket(Some(b.userName), Some(b.userEmail), Some(b.userPhone), Some(b.initialMessage))
  }

  /** The ticket created for the popup's body starts its conversation
      with the visitor's first message, as the customer's, or with the
      placeholder when the visitor typed nothing. */
  lemma FirstMessageOpensTicket(ms: seq<string>, name: string, phone: string, email: string, id: Id, now: int)
    requires forall i :: 0 <= i < |ms| ==> Sendable(ms[i])
    ensures var body := NewTicketOf(TicketBody(name, phone, email, InitialMessageOf(ms)));
            var text := if ms == [] then NewConversation else ms[0];
            TicketController.InitialMessage(body, id, now) == [Message(id + 1, id, None, text, now)]
  {
    if ms == [] {
      TrimOfTrimmed(NewConversation);
    } else {
      assert Sendable(ms[0]);
    }
  }

  /** A visitor who sends a message and introduces themselves opens a
      ticket with that message, and the window thanks them. */
  method MessageThenIntroduction() returns (sent: Option<TicketBody>, thanked: bool)
    ensures sent == Some(TicketBody("Ann", "555", "ann@example.com", "hello")) && thanked
  {
    var p := new Popup(false);
    TrimOfTrimmed("hello");
    p.Type("hello");
    p.SendMessage();
    p.InputChange("Ann", "555", "ann@example.com");
    sent := p.FormSubmit(Some(None));
    thanked := p.ShowsThanks();
  }
}
