/** The "emotional twin" chat of the dashboard. Submitting a message appends
    it together with an empty, loading placeholder for the reply; when the
    language model answers, the placeholder with that id takes the reply's
    text. The chat sends the messages shown before the submission as history.

    The language model is a parameter `model(history, message)`, `None` when
    the call fails; the clock readings that make the ids and timestamps are
    parameters too (milliseconds since the epoch). Scrolling and rendering are
    left out. */
module AIChat {
  import opened Wrappers
  import opened Strings

  /** What `generateResponse` returns when the model call fails. */
  const ResponseApology: string :=
    "I apologize, but I'm having trouble processing your request right now. Could you please try again?"

  /** What `handleSubmit` shows if awaiting the reply throws. */
  const SubmitApology: string := "I apologize, but I'm having trouble right now. Please try again."

  datatype Sender = User | Ai

  /** A chat message; an absent `isLoading` is `false`. */
  datatype Message = Message(id: string, text: string, sender: Sender, timestamp: nat, isLoading: bool)

  /** One history entry as the chat session takes it. */
  datatype Turn = Turn(role: string, parts: string)

  /** A submission waiting for its reply: the placeholder's id, the text sent,
      and the history sent with it. */
  datatype Pending = Pending(placeholderId: string, prompt: string, history: seq<Turn>)

  /** The history: each message's text, as role "user" when the user sent it
      and "model" otherwise, in order. */
  function History(messages: seq<Message>): (h: seq<Turn>)
    ensures |h| == |messages|
    ensures forall k :: 0 <= k < |h| ==> h[k].parts == messages[k].text
    ensures forall k :: 0 <= k < |h| ==> (h[k].role == "user" <==> messages[k].sender == User)
    ensures forall k :: 0 <= k < |h| ==> (h[k].role == "model" <==> messages[k].sender == Ai)
  {
    seq(|messages|, k requires 0 <= k < |messages| =>
      Turn(if messages[k].sender == User then "user" else "model", messages[k].text))
  }

  /** `generateResponse`: the model's text, or a fixed apology when the call
      fails; it never fails itself. */
  function GenerateResponse(history: seq<Turn>, message: string,
                            model: (seq<Turn>, string) -> Option<string>): (r: string)
    ensures model(history, message).Some? ==> r == model(history, message).value
    ensures model(history, message).None? ==> r == ResponseApology
  {
    match model(history, message)
    case Some(text) => text
    case None => ResponseApology
  }

  /** `prev.map(msg => msg.id === id ? {...msg, text, isLoading: false} : msg)`. */
  function ReplaceById(messages: seq<Message>, id: string, text: string): (r: seq<Message>)
    ensures |r| == |messages|
    ensures forall k :: 0 <= k < |r| && messages[k].id == id ==>
              r[k] == messages[k].(text := text, isLoading := false)
    ensures forall k :: 0 <= k < |r| && messages[k].id != id ==> r[k] == messages[k]
  {
    seq(|messages|, k requires 0 <= k < |messages| =>
      if messages[k].id == id then messages[k].(text := text, isLoading := false) else messages[k])
  }

  predicate IdOnlyAt(messages: seq<Message>, id: string, j: nat) {
    j < |messages| && messages[j].id == id &&
    forall k :: 0 <= k < |messages| && k != j ==> messages[k].id != id
  }

  /** When one message carries the id, the replacement rewrites that message
      alone and keeps the order. */
  lemma ReplaceOne(messages: seq<Message>, id: string, text: string, j: nat)
    requires IdOnlyAt(messages, id, j)
    ensures ReplaceById(messages, id, text) == messages[j := messages[j].(text := text, isLoading := false)]
  {
  }

  /** Replacing twice with the same id keeps the second text. */
  lemma ReplaceTwice(messages: seq<Message>, id: string, a: string, b: string)
    ensures ReplaceById(ReplaceById(messages, id, a), id, b) == ReplaceById(messages, id, b)
  {
    var once := ReplaceById(messages, id, a);
    assert forall k :: 0 <= k < |messages| ==> once[k].id == messages[k].id;
  }

  /** Ids are the decimal clock readings, so distinct readings give distinct
      ids; in particular the user's id and the placeholder's id (one more than
      a later reading) differ. */
  lemma IdsDistinct(t1: nat, t2: nat)
    requires t1 <= t2
    ensures NatToString(t1) != NatToString(t2 + 1)
  {
    ParseNatToString(t1);
    ParseNatToString(t2 + 1);
  }

  class Chat {
    var messages: seq<Message>
    var input: string
    var isTyping: bool

    constructor ()
      ensures messages == [] && input == "" && !isTyping
    {
      messages := [];
      input := "";
      isTyping := false;
    }

    method SetInput(text: string)
      modifies this
      ensures input == text && messages == old(messages) && isTyping == old(isTyping)
    {
      input := text;
    }

    /** The synchronous part of `handleSubmit`, with `t1` the clock reading for
        the user's message and `t2` the one for the placeholder: a blank input
        changes nothing; otherwise the two messages are appended in order, the
        input cleared and the typing indicator shown. The result is the reply
        still awaited. */
    method Submit(t1: nat, t2: nat) returns (p: Option<Pending>)
      modifies this
      ensures AllSpace(old(input)) ==>
                p.None? && messages == old(messages) && input == old(input) && isTyping == old(isTyping)
      ensures !AllSpace(old(input)) ==>
                messages == old(messages) + [Message(NatToString(t1), old(input), User, t1, false),
                                             Message(NatToString(t2 + 1), "", Ai, t2, true)] &&
                input == "" && isTyping &&
                p == Some(Pending(NatToString(t2 + 1), old(input), History(old(messages))))
    {
      // `!input.trim()`: the trimmed input is empty exactly when it is all
      // white space.
      if AllSpace(input) {
        return None;
      }
      var userMessage := Message(NatToString(t1), input, User, t1, false);
      var tempAiMessage := Message(NatToString(t2 + 1), "", Ai, t2, true);
      p := Some(Pending(tempAiMessage.id, input, History(messages)));
      messages := messages + [userMessage, tempAiMessage];
      input := "";
      isTyping := true;
    }

    /** The rest of `handleSubmit`: the awaited reply (or the apology) becomes
        the placeholder's text, the typing indicator goes away. */
    method Resolve(p: Pending, model: (seq<Turn>, string) -> Option<string>)
      modifies this
      ensures messages == ReplaceById(old(messages), p.placeholderId,
                                      GenerateResponse(p.history, p.prompt, model))
      ensures input == old(input) && !isTyping
    {
      var response := GenerateResponse(p.history, p.prompt, model);
      messages := ReplaceById(messages, p.placeholderId, response);
      isTyping := false;
    }

    /** The `catch` of `handleSubmit`, which `generateResponse` never lets
        happen: the placeholder shows the shorter apology. */
    method ResolveFailed(p: Pending)
      modifies this
      ensures messages == ReplaceById(old(messages), p.placeholderId, SubmitApology)
      ensures input == old(input) && !isTyping
    {
      messages := ReplaceById(messages, p.placeholderId, SubmitApology);
      isTyping := false;
    }
  }

  /** One exchange on a chat whose earlier ids do not reuse the placeholder's:
      the user's message stays as sent and the placeholder alone takes the
      reply, after the unchanged earlier messages. */
  method Exchange(c: Chat, t1: nat, t2: nat, model: (seq<Turn>, string) -> Option<string>)
    requires t1 <= t2 && !AllSpace(c.input)
    requires forall k :: 0 <= k < |c.messages| ==> c.messages[k].id != NatToString(t2 + 1)
    modifies c
    ensures |c.messages| == |old(c.messages)| + 2
    ensures c.messages[..|old(c.messages)|] == old(c.messages)
    ensures c.messages[|old(c.messages)|] == Message(NatToString(t1), old(c.input), User, t1, false)
    ensures c.messages[|old(c.messages)| + 1]
         == Message(NatToString(t2 + 1), GenerateResponse(History(old(c.messages)), old(c.input), model), Ai, t2, false)
    ensures c.input == "" && !c.isTyping
  {
    var p := c.Submit(t1, t2);
    IdsDistinct(t1, t2);
    var n := |c.messages| - 2;
    assert IdOnlyAt(c.messages, p.value.placeholderId, n + 1);
    ReplaceOne(c.messages, p.value.placeholderId, GenerateResponse(p.value.history, p.value.prompt, model), n + 1);
    c.Resolve(p.value, model);
  }
}
