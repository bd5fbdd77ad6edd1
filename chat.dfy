/** Conversation history as the backend receives it.

    The chat and export code index every history entry as a dictionary,
    `m['role']` and `m['content']`, outside any `try`: an entry missing a key
    makes the whole call raise `KeyError`.  An `Entry` keeps each key as
    optional so that this error path is part of the model. */
module Chat {
  import opened Common

  /** A history entry: a JSON object whose "role" and "content" keys may be absent. */
  datatype Entry = Entry(role: Option<string>, content: Option<string>)

  /** A role-tagged message, as sent to a provider or kept by the client. */
  datatype Message = Message(role: string, content: string)

  /** The result of code that either returns a value or raises `KeyError(key)`. */
  datatype Outcome<T> = Value(value: T) | KeyError(key: string)

  predicate Complete(e: Entry) {
    e.role.Some? && e.content.Some?
  }

  predicate AllComplete(h: seq<Entry>) {
    forall i :: 0 <= i < |h| ==> Complete(h[i])
  }

  /** The key of the first `KeyError` raised by a loop that reads `m['role']`
      and then `m['content']` of each entry, in order. */
  function FirstMissingKey(h: seq<Entry>): (k: Option<string>)
    ensures k == None || k == Some("role") || k == Some("content")
  {
    if h == [] then None
    else if h[0].role.None? then Some("role")
    else if h[0].content.None? then Some("content")
    else FirstMissingKey(h[1..])
  }

  /** One step of such a loop, from entry `i` on: an entry without a role
      raises for "role", one without a content for "content", and a complete
      entry passes the question on to the entries after it. */
  lemma FirstMissingKeyStep(h: seq<Entry>, i: nat)
    requires i < |h|
    ensures h[i].role.None? ==> FirstMissingKey(h[i..]) == Some("role")
    ensures h[i].role.Some? && h[i].content.None? ==> FirstMissingKey(h[i..]) == Some("content")
    ensures Complete(h[i]) ==> FirstMissingKey(h[i..]) == FirstMissingKey(h[i + 1..])
  {
    assert h[i..][0] == h[i] && h[i..][1..] == h[i + 1..];
  }

  /** Such a loop runs to the end exactly when every entry has both keys. */
  lemma {:induction false} FirstMissingKeyNone(h: seq<Entry>)
    ensures FirstMissingKey(h) == None <==> AllComplete(h)
    decreases |h|
  {
    if h != [] {
      FirstMissingKeyNone(h[1..]);
      assert forall i :: 1 <= i < |h| ==> h[1..][i - 1] == h[i];
    }
  }
}
