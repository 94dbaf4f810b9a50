/**
 * The floating chat window: a transcript that opens with a greeting, then
 * alternates user messages and assistant replies. A message is accepted only
 * when no reply is pending; the reply is the model's text or a fixed apology.
 *
 * `handleSubmit` awaits the model, so it is cut in two: `Submit` runs up to
 * the request and `Receive` runs once the request has settled.
 */
module GeminiChat {
  import opened Wrappers
  import opened JsText
  import opened Http
  import opened GeminiApi

  datatype Message = Message(text: string, isUser: bool)

  const Greeting: string := "Hi! I'm Gemini AI. How can I help you with your donation activities today?"

  const Apology: string := "Sorry, I couldn't process your request. Please try again."

  /** The assistant message that follows a settled request. */
  function ReplyText(reply: Reply<GeminiResponse>): (t: string)
    ensures GetMessage(reply).Answer? ==> t == GetMessage(reply).text
    ensures GetMessage(reply).Thrown? ==> t == Apology
    ensures reply.Ok? && HasText(reply.value) ==> Some(t) == FirstText(reply.value)
  {
    match GetMessage(reply)
    case Answer(t) => t
    case Thrown(_) => Apology
  }

  /** User messages at the odd positions, the others at the even ones. */
  ghost predicate Alternates(messages: seq<Message>) {
    forall k :: 0 <= k < |messages| ==> (messages[k].isUser <==> k % 2 == 1)
  }

  /** Appending a message of the right kind keeps the alternation. */
  lemma AppendKeepsAlternation(messages: seq<Message>, m: Message)
    requires Alternates(messages) && (m.isUser <==> |messages| % 2 == 1)
    ensures Alternates(messages + [m])
  {
    var all := messages + [m];
    forall k | 0 <= k < |all| ensures (all[k].isUser <==> k % 2 == 1) {
      if k < |messages| { assert all[k] == messages[k]; }
    }
  }

  class Chat {
    var isOpen: bool
    var inputValue: string
    var messages: seq<Message>
    var isLoading: bool

    /** The greeting comes first; after it user messages sit at the odd
        positions and replies at the even ones; a reply is pending exactly
        when the last message is the user's. */
    ghost predicate Valid()
      reads this
    {
      && |messages| >= 1
      && messages[0] == Message(Greeting, false)
      && Alternates(messages)
      && (isLoading <==> |messages| % 2 == 0)
    }

    constructor ()
      ensures Valid()
      ensures !isOpen && inputValue == "" && messages == [Message(Greeting, false)] && !isLoading
    {
      isOpen := false;
      inputValue := "";
      messages := [Message(Greeting, false)];
      isLoading := false;
    }

    /** `toggleChat` */
    method Toggle()
      modifies this
      ensures isOpen == !old(isOpen)
      ensures inputValue == old(inputValue) && messages == old(messages) && isLoading == old(isLoading)
    {
      isOpen := !isOpen;
    }

    /** `handleInputChange`; the input is disabled while a reply is pending. */
    method SetInput(v: string)
      requires !isLoading
      modifies this
      ensures inputValue == v
      ensures isOpen == old(isOpen) && messages == old(messages) && isLoading == old(isLoading)
    {
      inputValue := v;
    }

    /** The send button is enabled when no reply is pending and the input
        is not blank. */
    predicate SendEnabled()
      reads this
    {
      !isLoading && Trim(inputValue) != ""
    }

    /** The first half of `handleSubmit`. The send control is disabled while
        loading. A blank input changes nothing and sends nothing; otherwise
        the untrimmed input becomes a user message, the input is cleared, and
        the same text is the prompt sent. */
    method Submit() returns (prompt: Option<string>)
      requires Valid() && !isLoading
      modifies this
      ensures Valid()
      ensures IsBlank(old(inputValue)) ==>
        prompt.None? && inputValue == old(inputValue) && messages == old(messages) && !isLoading
      ensures !IsBlank(old(inputValue)) ==>
        && prompt == Some(old(inputValue))
        && messages == old(messages) + [Message(old(inputValue), true)]
        && inputValue == "" && isLoading
      ensures isOpen == old(isOpen)
    {
      var text := inputValue;
      if IsBlank(text) {
        return None;
      }
      var userMessage := Message(text, true);
      AppendKeepsAlternation(messages, userMessage);
      messages := messages + [userMessage];
      prompt := Some(text);
      inputValue := "";
      isLoading := true;
    }

    /** The second half of `handleSubmit`: exactly one assistant message is
        appended (the model's text, or the apology when the call threw) and
        loading ends. */
    method Receive(reply: Reply<GeminiResponse>)
      requires Valid() && isLoading
      modifies this
      ensures Valid()
      ensures messages == old(messages) + [Message(ReplyText(reply), false)]
      ensures !isLoading
      ensures isOpen == old(isOpen) && inputValue == old(inputValue)
    {
      var text: string;
      match GetMessage(reply) {
        case Answer(t) => text := t;
        case Thrown(_) => text := Apology;
      }
      AppendKeepsAlternation(messages, Message(text, false));
      messages := messages + [Message(text, false)];
      isLoading := false;
    }
  }

  /** The send button is enabled exactly when `Submit` would accept the input. */
  lemma SendEnabledIffAccepted(c: Chat)
    ensures c.SendEnabled() <==> !c.isLoading && !IsBlank(c.inputValue)
  {
    TrimEmptyIffBlank(c.inputValue);
  }
}
