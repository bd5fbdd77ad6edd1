/** Chat routing and prompt assembly (`get_ai_response`).

    The two providers, Groq and Gemini, are parameters: functions from what
    the code sends them to a `Reply`, which is either the generated text or
    the message of the exception the client library raised.  Which provider
    was called, and with what, is returned as a `Call`. */
module Model {
  import opened Common
  import opened Chat

  /** The locked identity string of the configuration. */
  const DynamoIdentity: string :=
    "My name is **Dynamo AI**, the #1 AI Research OS made in India. I am built for high-performance research, data intelligence, and visual generation."

  /** Phrases that, found anywhere in the lower-cased prompt, short-circuit to the identity. */
  const IdentityPhrases: seq<string> := ["who are you", "your name", "what is your name", "who made you"]

  /** The Gemini model used whatever model name is requested. */
  const GeminiModel: string := "gemini-2.0-flash"

  /** How many of the most recent history entries the Groq branch sends. */
  const HistoryWindow: nat := 5

  /** The system instruction both branches use. */
  const SystemInstruction: string :=
    "You are Dynamo AI. " + DynamoIdentity + " " + "Provide professional research data and respond in clear Markdown."

  /** What a provider call produced: text, or the message of the exception it raised. */
  datatype Reply = Completed(text: string) | Raised(message: string)

  /** The provider call a request made, if any. */
  datatype Call =
    | NoCall
    | GroqCall(messages: seq<Message>, model: string)
    | GeminiCall(model: string, prompt: string)

  /** What `get_ai_response` does: return a string, or let a `KeyError` escape. */
  datatype Response = Answer(text: string) | Uncaught(key: string)

  /** `any(q in s for q in qs)`. */
  function AnyIn(qs: seq<string>, s: string): (b: bool)
    ensures b <==> exists i :: 0 <= i < |qs| && Contains(s, qs[i])
  {
    if qs == [] then false
    else
      assert forall i :: 1 <= i < |qs| ==> qs[1..][i - 1] == qs[i];
      Contains(s, qs[0]) || AnyIn(qs[1..], s)
  }

  /** The identity guard: a case-insensitive substring test against the phrase list. */
  predicate IsIdentityQuery(prompt: string) {
    AnyIn(IdentityPhrases, Lower(prompt))
  }

  /** The guard does not depend on the case of ASCII letters in the prompt. */
  lemma {:induction false} IdentityGuardIgnoresCase(prompt: string)
    ensures IsIdentityQuery(prompt) <==> IsIdentityQuery(Lower(prompt))
  {
    LowerIdempotent(prompt);
  }

  /** The phrase "what is your name" adds nothing to the guard: any prompt it
      catches is already caught by "your name". */
  lemma WhatIsYourNameIsRedundant(prompt: string)
    ensures IsIdentityQuery(prompt) <==> AnyIn(["who are you", "your name", "who made you"], Lower(prompt))
  {
    var s := Lower(prompt);
    var short := ["who are you", "your name", "who made you"];
    if Contains(s, "what is your name") {
      var i := ContainsOffset(s, "what is your name");
      assert s[i + 8..i + 17] == "what is your name"[8..];
      ContainsAt(s, "your name", i + 8);
      assert Contains(s, short[1]);
    }
    assert IdentityPhrases[0] == short[0] && IdentityPhrases[1] == short[1] && IdentityPhrases[3] == short[2];
  }

  /** Which provider a request goes to: Groq iff the model name mentions
      "llama3" and a Groq client was configured. */
  predicate UsesGroq(modelName: string, hasGroqClient: bool) {
    Contains(modelName, "llama3") && hasGroqClient
  }

  /** The flat prompt of the Gemini branch. */
  function GeminiPrompt(sysInstr: string, context: string, prompt: string): string {
    sysInstr + "\n\nCONTEXT FROM RESEARCH:\n" + context + "\n\nUSER QUERY: " + prompt + "\nAI:"
  }

  /** A history entry as a Groq message: role "user" stays, every other role
      becomes "assistant".  (Only complete entries reach it.) */
  function Normalise(e: Entry): Message {
    Message(if e.role == Some("user") then "user" else "assistant",
            match e.content case Some(c) => c case None => "")
  }

  /** The one message an entry contributes. */
  function NormalisedOne(e: Entry): seq<Message> {
    [Normalise(e)]
  }

  /** The system messages that open the list. */
  function GroqHeader(sysInstr: string, context: string): seq<Message> {
    [Message("system", sysInstr)] + (if context == "" then [] else [Message("system", "Context: " + context)])
  }

  /** `msgs` is the Groq message list for these inputs: the system instruction,
      the context as a second system message when it is non-empty, the
      window of history entries in order, and the user's prompt last. */
  predicate IsGroqMessageList(msgs: seq<Message>, sysInstr: string, context: string, window: seq<Entry>, prompt: string) {
    var off := if context == "" then 1 else 2;
    && |msgs| == off + |window| + 1
    && msgs[0] == Message("system", sysInstr)
    && (context != "" ==> msgs[1] == Message("system", "Context: " + context))
    && (forall i :: 0 <= i < |window| ==> msgs[off + i] == Normalise(window[i]))
    && msgs[|msgs| - 1] == Message("user", prompt)
  }

  /** The description above determines the list completely. */
  lemma GroqMessageListUnique(a: seq<Message>, b: seq<Message>, sysInstr: string, context: string, window: seq<Entry>, prompt: string)
    requires IsGroqMessageList(a, sysInstr, context, window, prompt)
    requires IsGroqMessageList(b, sysInstr, context, window, prompt)
    ensures a == b
  {
    var off := if context == "" then 1 else 2;
    forall k | 0 <= k < |a| ensures a[k] == b[k] {
      if off <= k < off + |window| {
        assert a[off + (k - off)] == Normalise(window[k - off]);
        assert b[off + (k - off)] == Normalise(window[k - off]);
      }
    }
  }

  /** The list the Groq branch sends, as the loop builds it. */
  function GroqMessages(sysInstr: string, context: string, w: seq<Entry>, prompt: string): seq<Message> {
    GroqHeader(sysInstr, context) + ConcatMap(w, NormalisedOne) + [Message("user", prompt)]
  }

  /** The list built is the Groq message list described above, of length
      two plus the window plus one for a non-empty context. */
  lemma GroqMessagesShape(sysInstr: string, context: string, w: seq<Entry>, prompt: string)
    ensures IsGroqMessageList(GroqMessages(sysInstr, context, w, prompt), sysInstr, context, w, prompt)
    ensures |GroqMessages(sysInstr, context, w, prompt)| == 2 + |w| + (if context == "" then 0 else 1)
  {
    FramedSingles(GroqHeader(sysInstr, context), w, NormalisedOne, Message("user", prompt));
  }

  /** The message-building loop of the Groq branch.  It reads `m['role']` and
      then `m['content']` of each entry of the window, so an incomplete entry
      raises `KeyError` for the first key it lacks. */
  method BuildGroqMessages(sysInstr: string, context: string, history: seq<Entry>, prompt: string)
    returns (r: Outcome<seq<Message>>)
    ensures var w := Last(history, HistoryWindow);
      match FirstMissingKey(w)
      case Some(k) => r == KeyError(k)
      case None => r == Value(GroqMessages(sysInstr, context, w, prompt))
  {
    var messages := [Message("system", sysInstr)];
    if context != "" {
      messages := messages + [Message("system", "Context: " + context)];
    }
    ghost var header := GroqHeader(sysInstr, context);
    assert messages == header;
    var w := Last(history, HistoryWindow);
    var i := 0;
    while i < |w|
      invariant 0 <= i <= |w|
      invariant FirstMissingKey(w) == FirstMissingKey(w[i..])
      invariant messages == header + ConcatMap(w[..i], NormalisedOne)
    {
      var m := w[i];
      FirstMissingKeyStep(w, i);
      if m.role.None? {
        return KeyError("role");
      }
      if m.content.None? {
        return KeyError("content");
      }
      ConcatMapStep(header, w, NormalisedOne, i);
      messages := messages + [Message(if m.role.value == "user" then "user" else "assistant", m.content.value)];
      i := i + 1;
    }
    assert w[..|w|] == w;
    messages := messages + [Message("user", prompt)];
    r := Value(messages);
  }

  /** The text a provider reply becomes: the generated text, or the exception
      message behind a fixed prefix. */
  function ReplyText(errorPrefix: string, reply: Reply): string {
    match reply
    case Completed(t) => t
    case Raised(m) => errorPrefix + m
  }

  /** `get_ai_response(prompt, history, model_name, context)`; `hasGroqClient`
      says whether a Groq API key was configured. */
  method GetAiResponse(prompt: string, history: seq<Entry>, modelName: string, context: string,
                       hasGroqClient: bool,
                       groq: (seq<Message>, string) -> Reply,
                       gemini: (string, string) -> Reply)
    returns (response: Response, call: Call)
    ensures IsIdentityQuery(prompt) ==> response == Answer(DynamoIdentity) && call == NoCall
    ensures !IsIdentityQuery(prompt) && !UsesGroq(modelName, hasGroqClient) ==>
      && call == GeminiCall(GeminiModel, GeminiPrompt(SystemInstruction, context, prompt))
      && response == Answer(ReplyText("Gemini Error: ", gemini(GeminiModel, call.prompt)))
    ensures !IsIdentityQuery(prompt) && UsesGroq(modelName, hasGroqClient) ==>
      var w := Last(history, HistoryWindow);
      match FirstMissingKey(w)
      case Some(k) => response == Uncaught(k) && call == NoCall
      case None =>
        && call == GroqCall(GroqMessages(SystemInstruction, context, w, prompt), modelName)
        && response == Answer(ReplyText("Groq Error: ", groq(call.messages, modelName)))
  {
    var msgLower := Lower(prompt);
    if AnyIn(IdentityPhrases, msgLower) {
      return Answer(DynamoIdentity), NoCall;
    }
    var sysInstr := "You are Dynamo AI. " + DynamoIdentity + " ";
    sysInstr := sysInstr + "Provide professional research data and respond in clear Markdown.";
    var fullPrompt := sysInstr + "\n\nCONTEXT FROM RESEARCH:\n" + context + "\n\nUSER QUERY: " + prompt + "\nAI:";
    if Contains(modelName, "llama3") && hasGroqClient {
      var built := BuildGroqMessages(sysInstr, context, history, prompt);
      match built
      case KeyError(k) =>
        return Uncaught(k), NoCall;
      case Value(messages) =>
        call := GroqCall(messages, modelName);
        response := Answer(ReplyText("Groq Error: ", groq(messages, modelName)));
    } else {
      call := GeminiCall(GeminiModel, fullPrompt);
      response := Answer(ReplyText("Gemini Error: ", gemini(GeminiModel, fullPrompt)));
    }
  }
}
