/** Image generation (`generate_image_base64`).

    The HTTP request is a parameter: a function from the URL to what the
    request produced, a status and the body's bytes or a raised exception
    (a timeout included).  The UUID that ends the URL is a parameter too. */
module Image {
  import opened Common
  import Base64

  const UrlBase: string := "https://image.pollinations.ai/prompt/"
  const UrlQuery: string := "?nologo=true&width=1024&height=1024&seed="
  const DataUriPrefix: string := "data:image/jpeg;base64,"
  const BusyMessage: string := "Visual system is currently busy."

  /** What the GET request produced. */
  datatype Fetch = Fetched(status: int, body: seq<byte>) | FetchRaised(message: string)

  /** `prompt.replace(" ", "%20")`. */
  function CleanPrompt(prompt: string): string {
    Replace(prompt, " ", "%20")
  }

  /** Every space becomes the three characters "%20" and nothing else changes
      length: no space is left. */
  lemma {:induction false} CleanPromptShape(prompt: string)
    ensures |CleanPrompt(prompt)| == |prompt| + 2 * CountChar(prompt, ' ')
    ensures forall i :: 0 <= i < |CleanPrompt(prompt)| ==> CleanPrompt(prompt)[i] != ' '
    decreases |prompt|
  {
    if prompt != [] {
      CleanPromptShape(prompt[1..]);
      var rest := CleanPrompt(prompt[1..]);
      var head := if prompt[0] == ' ' then "%20" else [prompt[0]];
      assert CleanPrompt(prompt) == head + rest by {
        if prompt[0] == ' ' {
          assert prompt[..1] == " ";
        } else {
          assert prompt[..1] != " ";
        }
      }
      forall i | 0 <= i < |head + rest|
        ensures (head + rest)[i] != ' '
      {
        if i >= |head| {
          assert (head + rest)[i] == rest[i - |head|];
        }
      }
    }
  }

  /** For a prompt without '%', replacing "%20" by a space in the cleaned
      prompt gives the prompt back. */
  lemma {:induction false} CleanPromptInverse(prompt: string)
    requires forall i :: 0 <= i < |prompt| ==> prompt[i] != '%'
    ensures Replace(CleanPrompt(prompt), "%20", " ") == prompt
    decreases |prompt|
  {
    if prompt != [] {
      var rest := CleanPrompt(prompt[1..]);
      CleanPromptInverse(prompt[1..]);
      if prompt[0] == ' ' {
        assert prompt[..1] == " ";
        var t := "%20" + rest;
        assert CleanPrompt(prompt) == t;
        assert t[..3] == "%20" && t[3..] == rest;
        assert Replace(t, "%20", " ") == " " + Replace(rest, "%20", " ");
        assert prompt == " " + prompt[1..];
      } else {
        assert prompt[..1] != " ";
        var t := [prompt[0]] + rest;
        assert CleanPrompt(prompt) == t;
        assert t[0] != '%' && t[1..] == rest;
        assert !StartsWith(t, "%20");
        assert prompt == [prompt[0]] + prompt[1..];
      }
    }
  }

  /** The URL requested; `seed` stands for `str(uuid.uuid4())`. */
  function ImageUrl(prompt: string, seed: string): string {
    UrlBase + CleanPrompt(prompt) + UrlQuery + seed
  }

  /** Whether the request succeeded with status 200 and its body was read. */
  predicate Succeeded(f: Fetch) {
    f.Fetched? && f.status == 200
  }

  /** `generate_image_base64(prompt)`: the reply dictionary.  On success the
      content is a JPEG data URI whose payload is the base 64 encoding of the
      bytes received, and so decodes to exactly those bytes, and the original prompt is echoed; any other status or
      any exception gives the fixed text reply. */
  function GenerateImageBase64(prompt: string, seed: string, fetch: string -> Fetch): (env: map<string, string>)
    ensures var f := fetch(ImageUrl(prompt, seed));
      && "type" in env && "content" in env
      && (env["type"] == "image_v2" <==> Succeeded(f))
      && (Succeeded(f) ==>
            && env.Keys == {"type", "content", "prompt"}
            && env["prompt"] == prompt
            && env["content"] == DataUriPrefix + Base64.Encode(f.body)
            && StartsWith(env["content"], DataUriPrefix)
            && Base64.Decode(env["content"][|DataUriPrefix|..]) == f.body)
      && (!Succeeded(f) ==> env == map["type" := "text", "content" := BusyMessage])
  {
    var f := fetch(ImageUrl(prompt, seed));
    if Succeeded(f) then
      var b64 := Base64.Encode(f.body);
      var content := DataUriPrefix + b64;
      assert content[..|DataUriPrefix|] == DataUriPrefix && content[|DataUriPrefix|..] == b64;
      Base64.DecodeEncode(f.body);
      map["type" := "image_v2", "content" := content, "prompt" := prompt]
    else
      map["type" := "text", "content" := BusyMessage]
  }
}
