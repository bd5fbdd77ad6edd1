/** The web client's chat loop (`sendMessage` in the browser script).

    The client keeps the conversation history it sends with every request.
    The backend request is a parameter: a function from the request payload
    to what came back, a reply object or one of the two failures the
    `catch` handles.  The page updates (bubbles, loading indicator) are not
    modelled. */
module Client {
  import opened Common
  import opened Chat

  /** The JSON body posted to `/chat`. */
  datatype Payload = Payload(sessionId: string, message: string, history: seq<Message>,
                             useSearch: bool, deepDive: bool, analystMode: bool)

  /** What the request produced: a reply object with its "type" and
      "content", a response whose status is not ok, or a thrown error
      (network failure or a body that is not JSON). */
  datatype ChatReply = Data(kind: string, content: string) | NotOk | Failed

  /** The text the client keeps for an assistant reply of the given type. */
  function AssistantText(kind: string, content: string): string {
    if kind == "image" then "Generated image: " + content
    else if kind == "chart" then "Chart generated"
    else content
  }

  /** The history entries one exchange adds: the assistant's reply, then the
      user's message; nothing when the request failed. */
  function Recorded(reply: ChatReply, text: string): seq<Message> {
    match reply
    case Data(kind, content) => [Message("assistant", AssistantText(kind, content)), Message("user", text)]
    case _ => []
  }

  /** The shape the client's history always has: pairs of an assistant
      entry followed by a user entry with a non-empty message. */
  predicate Alternates(h: seq<Message>) {
    && |h| % 2 == 0
    && forall k :: 0 <= k < |h| ==>
         if k % 2 == 0 then h[k].role == "assistant" else h[k].role == "user" && h[k].content != ""
  }

  /** A successful exchange keeps the history in that shape. */
  lemma RecordedAlternates(h: seq<Message>, reply: ChatReply, text: string)
    requires Alternates(h) && text != ""
    ensures Alternates(h + Recorded(reply, text))
  {
    match reply
    case Data(kind, content) =>
      var a, u := Message("assistant", AssistantText(kind, content)), Message("user", text);
      var h2 := h + [a, u];
      assert h2 == h + Recorded(reply, text);
      assert h2[|h|] == a && h2[|h| + 1] == u;
      assert forall k :: 0 <= k < |h| ==> h2[k] == h[k];
      assert |h| % 2 == 0 && (|h| + 1) % 2 == 1;
    case NotOk =>
      assert h + Recorded(reply, text) == h;
    case Failed =>
      assert h + Recorded(reply, text) == h;
  }

  /** A history entry as the backend reads it, keys present. */
  function AsEntry(m: Message): Entry {
    Entry(Some(m.role), Some(m.content))
  }

  function AsEntries(h: seq<Message>): (es: seq<Entry>)
    ensures |es| == |h|
    ensures forall i :: 0 <= i < |h| ==> es[i] == AsEntry(h[i])
  {
    if h == [] then [] else [AsEntry(h[0])] + AsEntries(h[1..])
  }

  /** The backend never raises `KeyError` on a history this client sends. */
  lemma SentHistoryComplete(h: seq<Message>)
    ensures FirstMissingKey(AsEntries(h)) == None
  {
    var es := AsEntries(h);
    assert forall i :: 0 <= i < |es| ==> es[i] == AsEntry(h[i]) && Complete(es[i]);
    FirstMissingKeyNone(es);
  }

  class ChatClient {
    /** `chatHistory` */
    var chatHistory: seq<Message>
    /** `sessionId`, drawn once when the page loads. */
    const sessionId: string

    predicate Valid()
      reads this
    {
      Alternates(chatHistory)
    }

    constructor (sessionId: string)
      ensures this.sessionId == sessionId && chatHistory == [] && Valid()
    {
      this.sessionId := sessionId;
      chatHistory := [];
    }

    /** `sendMessage(text)`: nothing happens for an empty text; otherwise the
        payload carries the history as it was before the call, search on and
        the other modes off, and only a reply object extends the history. */
    method SendMessage(text: string, backend: Payload -> ChatReply) returns (sent: Option<Payload>)
      requires Valid()
      modifies this
      ensures Valid()
      ensures text == "" ==> sent == None && chatHistory == old(chatHistory)
      ensures text != "" ==>
        && sent == Some(Payload(sessionId, text, old(chatHistory), true, false, false))
        && chatHistory == old(chatHistory) + Recorded(backend(sent.value), text)
    {
      if text == "" {
        return None;
      }
      var payload := Payload(sessionId, text, chatHistory, true, false, false);
      sent := Some(payload);
      var reply := backend(payload);
      RecordedAlternates(chatHistory, reply, text);
      match reply
      case NotOk =>
      case Failed =>
      case Data(kind, content) =>
        if kind == "image" {
          chatHistory := chatHistory + [Message("assistant", "Generated image: " + content)];
        } else if kind == "chart" {
          chatHistory := chatHistory + [Message("assistant", "Chart generated")];
        } else {
          chatHistory := chatHistory + [Message("assistant", content)];
        }
        chatHistory := chatHistory + [Message("user", text)];
    }
  }
}
