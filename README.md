# Dynamo AI request core, modelled in Dafny

Dynamo AI is a research assistant. A browser client posts a chat message,
together with the past conversation, to a Python backend. The backend can
answer from a fixed identity string, or call one of two language-model
providers (Groq when the model name mentions "llama3" and a Groq client
is configured, Gemini otherwise). It can also fetch
web-search context, extract text from an uploaded document, generate an
image, and export the conversation as a Word, PowerPoint or PDF report.

This project models the decision logic of these operations, and proves what
each one produces:

| module / file | models |
|---|---|
| `Model` (`model.dfy`) | `get_ai_response`: the identity guard, the choice of provider, the Gemini prompt, the Groq message list built from the last five history entries, and the error texts |
| `Search` (`search.dfy`) | `get_web_context`: the search request made and the context block formatted from the results |
| `Pdf` (`pdf.dfy`), `Utf8` (`utf8.dfy`) | `extract_intel`: the page or paragraph text accumulated, the 40000-character limit, and the lenient UTF-8 decoding of plain files |
| `Export` (`export.dfy`), `Office` (`office.dfy`) | `word`, `ppt` and `pdf`: the sequence of headings, paragraphs, slides and flowables handed to the document libraries |
| `WordEndpoint` (`word_endpoint.dfy`) | the `/generate-word` endpoint: three blocks per message, with Markdown bold markers removed |
| `Image` (`image.dfy`), `Base64` (`base64.dfy`) | `generate_image_base64`: the URL requested and the data-URI reply |
| `Client` (`client.dfy`) | `sendMessage` in the browser script: the payload posted and the history the client keeps |
| `Common`, `Chat` | shared string operations (Python's `in`, slicing, `lower`, `replace`) and history entries |

The model is built this way:

- **External services are parameters.** The Groq and Gemini clients, the
  search client, the PDF and Word readers, the image server and the `/chat`
  backend are all passed in as functions. A function maps the request to
  what came back, or to the message of the exception raised.
- **Calls are recorded.** Which provider call was made, and which search
  request, is returned alongside the result. This is how "no provider is
  called" can be stated.
- **Missing keys are a modelled outcome.** The backend reads history
  entries as dictionaries (`m['role']`, `m['content']`) outside any
  `try`. An entry lacking a key therefore makes the whole call raise
  `KeyError`. `Chat.Entry` keeps both keys optional, and the modelled
  result is `KeyError(key)` for the first key read that is missing.
- **Document libraries are recorders.** A python-docx `Document` and a
  python-pptx `Presentation` become classes whose methods append to the
  sequence they hold.
- **Loops stay loops.** Each loop of the source is a `while` loop in a
  method, proved against a function of its inputs.
- **Constants and edge cases as the code has them:**
  - The Groq window is exactly the last 5 entries (`history[-5:]`).
  - An entry lacking `role` or `content` raises `KeyError`.
  - Groq roles are normalised to `user` / `assistant`.
  - Document text is cut at 40000 characters.
  - No timeout bounds the search or provider calls. Only the image fetch
    has one (30 seconds).
- **Image replies.** `generate_image_base64` returns type `"image_v2"`.
  The client only recognises `"image"` (`script.js` line 54). So if
  `/chat` passes that dictionary on, the client keeps it as plain text.
  The `/chat` endpoint is not part of this model.
- **History order.** The client appends the assistant's reply *before*
  the user message that prompted it (`Client.Alternates` states this
  order).

## Model

| member | source | states |
|---|---|---|
| Common.Take | backend/pdf.py:20 | `s[:n]` has length min(n, \|s\|), is a prefix of `s`, and is all of `s` when `s` is short enough |
| Common.EndsWith | backend/pdf.py:9-13 | `s.endswith(p)`: `p` is no longer than `s` and is its final slice |
| Common.Contains | backend/model.py:24-35 | Python's `t in s`: `t` starts `s` or occurs in `s` after its first character |
| Common.OccursAt | backend/model.py:24-35 | `t` is the slice of `s` starting at offset `i` |
| Common.ContainsAt | backend/model.py:24-35 | an occurrence at some offset makes `t in s` true |
| Common.ContainsOffset | backend/model.py:24-35 | `t in s` yields an offset at which `t` occurs |
| Common.ContainsIff | backend/model.py:24-35 | `t in s` holds exactly when `t` occurs in `s` at some offset |
| Common.Last | backend/model.py:41 | `s[-n:]` has length min(n, \|s\|) and is a suffix of `s` |
| Common.Lower | backend/model.py:21 | lower-casing keeps the length and maps every character by itself |
| Common.LowerIdempotent | backend/model.py:21 | lower-casing twice is lower-casing once |
| Common.Replace | backend/main.py:19 | `s.replace(pat, rep)` for a non-empty pattern: scanning left to right, each occurrence of `pat` becomes `rep`, and the scan resumes after it |
| Common.ReplaceAbsent | backend/main.py:19 | replacing a pattern that does not occur leaves the text unchanged |
| Chat.FirstMissingKey | backend/model.py:41-42 | the error a role-then-content loop raises is none, `KeyError('role')` or `KeyError('content')` |
| Chat.FirstMissingKeyNone | backend/model.py:41-42 | the loop runs to the end exactly when every entry has both keys |
| Chat.FirstMissingKeyStep | backend/model.py:41-42 | at entry `i`: no role raises for "role", a role without content raises for "content", a complete entry passes on to the rest |
| Model.AnyIn | backend/model.py:24 | `any(q in s for q in qs)` holds exactly when some phrase of the list occurs in `s` |
| Model.IdentityGuardIgnoresCase | backend/model.py:21-25 | the identity guard gives the same verdict for a prompt and its lower-cased form (it follows from `Common.LowerIdempotent`, since the guard only sees the lower-cased prompt) |
| Model.WhatIsYourNameIsRedundant | backend/model.py:24 | the guard with "what is your name" accepts exactly the prompts the guard without it accepts |
| Model.GeminiPrompt | backend/model.py:28-32 | the Gemini prompt: the system instruction, "\n\nCONTEXT FROM RESEARCH:\n", the context, "\n\nUSER QUERY: ", the prompt and "\nAI:" |
| Model.UsesGroq | backend/model.py:35 | the Groq branch is taken iff "llama3" occurs in the model name and a Groq client is configured |
| Model.ReplyText | backend/model.py:46-58 | the text a provider call returns, or the branch's error prefix followed by the exception's message |
| Model.GroqMessagesShape | backend/model.py:36-44 | the built list is the system instruction, the context message iff the context is non-empty, the window entries in order with role "user" kept and every other role made "assistant", and the prompt last; its length is 2 + window (+1 with context) |
| Model.GroqMessageListUnique | backend/model.py:36-44 | that description determines the message list completely |
| Model.BuildGroqMessages | backend/model.py:36-44 | the loop over `history[-5:]` raises `KeyError` for the first missing key of the window, and otherwise returns the list described above |
| Model.GetAiResponse | backend/model.py:17-58 | an identity prompt returns the identity and calls no provider; a "llama3" model with a Groq client sends the Groq list (or lets the `KeyError` escape without a call) and returns the reply or "Groq Error: " + message; everything else sends the Gemini prompt to "gemini-2.0-flash" and returns the reply or "Gemini Error: " + message |
| Search.LinesAt | backend/search.py:25-26 | result `i`'s line stands between the lines of the results before and after it, in order |
| Search.HitLine | backend/search.py:26 | one result's line: "- ", its title, ": ", its content, " (Source: ", its url, ")" and a newline, each absent field shown as "None" |
| Search.FormatContext | backend/search.py:24-27 | the context is the header followed by one line per result, with "None" for a missing field; no "results" key gives the header alone |
| Search.GetWebContext | backend/search.py:13-30 | no client: "" and no request; otherwise exactly one request with depth "advanced" iff deep dive and 5 results, and the formatted context, or "" if the search raised |
| Utf8.DecodeStep | backend/pdf.py:18 | each decoding step consumes at least one byte and no more than remain |
| Utf8.Decode | backend/pdf.py:18 | lenient decoding never yields more characters than bytes |
| Utf8.DecodeStepEncoded | backend/pdf.py:18 | decoding reads the UTF-8 encoding of a character back whole, whatever follows it |
| Utf8.DecodeEncode | backend/pdf.py:18 | text stored as UTF-8 comes back unchanged |
| Utf8.DecodeAscii | backend/pdf.py:18 | ASCII bytes decode to one character each, with the same code |
| Utf8.DecodeDropsInvalidLead | backend/pdf.py:18 | under `errors='ignore'` a byte that cannot start a sequence (0x80-0xC1, 0xF5-0xFF) is dropped and decoding goes on with the next byte |
| Utf8.DecodeDropsLoneLead | backend/pdf.py:18 | a lead byte followed by a byte that is not a continuation byte is dropped alone, and that byte is decoded next |
| Utf8.DecodeDropsCutShortThree | backend/pdf.py:18 | the valid first two bytes of a three-byte sequence cut short by a non-continuation byte are dropped, and that byte is decoded next |
| Utf8.DecodeDropsCutShortFour | backend/pdf.py:18 | the valid first three bytes of a four-byte sequence cut short by a non-continuation byte are dropped, and that byte is decoded next |
| Utf8.DecodeDropsFinalByte | backend/pdf.py:18 | a non-ASCII byte alone at the end of the input yields nothing |
| Pdf.AssembledLength | backend/pdf.py:11-16 | the accumulated text is one newline longer per page than the pages' text |
| Pdf.AssembledAt | backend/pdf.py:11-16 | page `i`, followed by a newline, stands between the pages before and after it |
| Pdf.AssembleText | backend/pdf.py:11-16 | the loop's `text += piece + "\n"` yields every piece followed by a newline, in order |
| Pdf.ExtractIntel | backend/pdf.py:6-22 | ".pdf" reads pages and ".docx" (when not ".pdf") paragraphs; the result is the first 40000 characters of the text, or "File Error: " + message if the reader raised; any other name gives the first 40000 characters of the lenient UTF-8 decoding |
| Office.Document.constructor | backend/export.py:12 | a new document has no blocks |
| Office.Document.AddHeading | backend/export.py:16 | `add_heading` appends one heading of that level |
| Office.Document.AddParagraph | backend/export.py:17 | `add_paragraph` appends one paragraph |
| Office.Presentation.AddSlide | backend/export.py:29-31 | adding a slide and setting its title and body appends one slide |
| Export.Word | backend/export.py:10-17 | `KeyError` for the first missing key; otherwise the title heading, then a level-1 role heading and a content paragraph per entry |
| Export.WordLayout | backend/export.py:13-17 | the document has 1 + 2n blocks; entry `i` has its heading ("User" iff the role is "user") at 1 + 2i and its content at 2 + 2i |
| Export.SlideMissingKey | backend/export.py:27-31 | the `ppt` loop can only raise for "role" or "content" |
| Export.SlideMissingKeyStep | backend/export.py:27-31 | `ppt` raises for "role" at an entry without role, for "content" only at an assistant entry without content, and otherwise reads on |
| Export.Ppt | backend/export.py:24-31 | among the last five entries, one slide per assistant entry in order, or the `KeyError` for the first missing key read |
| Export.SlidesBounded | backend/export.py:27-31 | at most five slides, each with layout 1, title "Research Insight", and as body the first 700 characters of an assistant entry among the last five |
| Export.Pdf | backend/export.py:38-48 | `KeyError` for the first missing key; otherwise the title and a spacer, then per entry the role-prefixed paragraph and a 1x12 spacer |
| Export.StoryLayout | backend/export.py:43-48 | the story has 2 + 2n flowables; entry `i`'s paragraph ("User:" iff the role is "user") is at 2 + 2i and a spacer at 3 + 2i |
| WordEndpoint.Repeat | backend/main.py:21 | `"-" * n` has length n and only that character |
| WordEndpoint.CleanKeepsFirst | backend/main.py:19 | cleaning keeps a leading character other than "*" |
| WordEndpoint.CleanRemovesBold | backend/main.py:19 | no "**" is left after `replace("**", "")` |
| WordEndpoint.CleanIdempotent | backend/main.py:19 | text without "**" is unchanged by cleaning, so cleaning twice is cleaning once |
| WordEndpoint.GenerateWord | backend/main.py:10-21 | the document is the title and then three blocks per message, in order |
| WordEndpoint.DocumentLayout | backend/main.py:13-21 | the document has 1 + 3n blocks; message `i` gives a level-2 heading ("User Query" iff the role is "user"), its content without any "**", and a rule of twenty '-' |
| Base64.DigitRoundTrip | backend/image.py:19 | every 6-bit value has an alphabet character, never "=", that reads back as that value |
| Base64.Encode | backend/image.py:19 | the encoding has 4 characters per started group of three bytes |
| Base64.EncodeAlphabet | backend/image.py:19 | every character of an encoding is of the alphabet or "=" |
| Base64.DecodeEncode | backend/image.py:19 | decoding the encoding gives the bytes back |
| Image.CleanPromptShape | backend/image.py:10 | no space is left in the cleaned prompt, which is two characters longer per space |
| Image.CleanPromptInverse | backend/image.py:10 | for a prompt without "%", replacing "%20" by a space in the cleaned prompt gives the prompt back |
| Image.ImageUrl | backend/image.py:10-12 | the URL requested: the Pollinations base, the prompt with every space as "%20", the fixed query (no logo, 1024x1024) and the seed |
| Image.GenerateImageBase64 | backend/image.py:6-28 | status 200: exactly the keys type "image_v2", the original prompt, and content "data:image/jpeg;base64," followed by the base 64 encoding of the bytes received, which decodes to exactly those bytes; any other status or any exception: exactly the busy text reply |
| Client.RecordedAlternates | frontend/script.js:54-67 | a reply extends an assistant-then-user history by one more assistant entry and one user entry; a failure adds nothing |
| Client.AssistantText | frontend/script.js:54-64 | the history text of a reply: "Generated image: " + content for type "image", "Chart generated" for type "chart", the content otherwise |
| Client.SentHistoryComplete | frontend/script.js:28-35 | a history of role/content messages, as the model keeps it, never makes the backend raise `KeyError` (see the `data.content` line under Left out) |
| Client.ChatClient.constructor | frontend/script.js:11-12 | a client starts with an empty history and its session id |
| Client.ChatClient.SendMessage | frontend/script.js:15-73 | empty text: nothing sent, nothing kept; otherwise one payload with the session id, the text, the history before the call, search on and the other modes off; a reply adds its text ("Generated image: " + content, "Chart generated", or the content) and then the user's text; a non-ok status or an error changes nothing; the history keeps its assistant/user pairing |

## Left out

- Client set-up (`model.py` lines 7-15, `search.py` lines 6-11): whether a Groq or search client exists is a parameter. How a client is configured is I/O.
- The network, the providers, the PDF and Word parsers and the image server: these are function parameters. Their internals are not modelled.
- `async`/`await`, the HTTP session and the 30-second image timeout: a timeout is one of the exceptions the fetch parameter can return.
- `uuid.uuid4()` in the image URL and `crypto.randomUUID()` for the session: both are parameters.
- `print` and `console.error` calls: logging only.
- Saving, streaming and rendering the documents (`doc.save`, `prs.save`, `pdf_doc.build`, `StreamingResponse`): the model stops at the content handed to the libraries. Styles are names only.
- Export.Word, Export.Pdf: the model states what is built before the first missing key, but only the `KeyError` is kept. The partly built document is discarded by the raise.
- `str(...)` of non-string contents in `export.py`: contents are strings in the model.
- WordEndpoint.GenerateWord: the `except` that turns a library failure into HTTP 500 is not modelled. Request-validated messages always have both fields, so the modelled code cannot raise.
- Common.Lower: only ASCII letters are lower-cased. Python's `str.lower` also maps other Unicode letters. For the identity guard this gives Python's verdict on every prompt: the only non-ASCII characters whose lower case contains an ASCII letter are U+0130 (to "i" followed by U+0307) and U+212A (to "k"), and neither can complete one of the four phrases.
- Search: a `results` value that is present but null (iterating it raises, giving "") is not modelled. `Response(None)` stands for an absent key.
- Model.GetAiResponse: a Groq completion whose content is `None` (the function returns `None`) is not modelled. A reply is always text or an exception message.
- Pdf.ExtractIntel: a page whose `extract_text()` returns `None` (the `+` raises, giving "File Error: ...") is not modelled. The exception message is whatever the reader parameter returns.
- Utf8.Decode: the decoder follows the well-formed sequences of table 3-7 of the Unicode Standard and drops each maximal ill-formed subpart. CPython's "ignore" handler is assumed to drop the same bytes; the `DecodeDrops` lemmas state which bytes those are.
- Client: page updates (bubbles, the loading indicator, clearing the input, the error text) and the UI helpers after line 73 of `script.js` are not modelled.
- Client: JavaScript's truthiness is modelled for strings only (the empty string is false). `data.content` is always a string. An absent one is not modelled: the client would push `content: undefined`, `JSON.stringify` drops that key from the next request, and the backend would then raise `KeyError('content')` on that entry, which Client.SentHistoryComplete does not cover.
- Request quotas, plan tiers, fact-check and deep-dive prompt modes, multi-sample generation, and document-over-search precedence: none appears in the modelled files, so none is modelled.
- `analysis.py`, `voice.py`, `flowchart.py`, `supabase_client.py`, the configuration file's other settings, and the other endpoints of `main.py` are not part of this model.
