/** Web-context formatting (`get_web_context`).

    The Tavily client is a parameter: a function from the request the code
    makes to what the search returned, or the message of the exception it
    raised.  Whether a client was configured is a flag. */
module Search {
  import opened Common

  const Header: string := "\n[DYNAMO WEB CONTEXT]:\n"
  const MaxResults: nat := 5

  /** The arguments of `tavily_client.search(query=..., search_depth=..., max_results=...)`. */
  datatype SearchRequest = SearchRequest(query: string, depth: string, maxResults: nat)

  /** One result object; each of "title", "content" and "url" may be absent. */
  datatype Hit = Hit(title: Option<string>, content: Option<string>, url: Option<string>)

  /** What the search produced: a response whose "results" key may be absent,
      or a raised exception. */
  datatype SearchOutcome = Response(results: Option<seq<Hit>>) | SearchRaised(message: string)

  /** `str(r.get(key))`: the value, or "None" when the key is absent. */
  function Show(v: Option<string>): string {
    match v
    case Some(s) => s
    case None => "None"
  }

  /** The line one result contributes. */
  function HitLine(h: Hit): string {
    "- " + Show(h.title) + ": " + Show(h.content) + " (Source: " + Show(h.url) + ")\n"
  }

  /** The lines of all results, in result order. */
  function Lines(hits: seq<Hit>): string {
    ConcatMap(hits, HitLine)
  }

  /** Result `i`'s line stands between the lines of the results before it and
      those after it. */
  lemma LinesAt(hits: seq<Hit>, i: nat)
    requires i < |hits|
    ensures Lines(hits) == Lines(hits[..i]) + HitLine(hits[i]) + Lines(hits[i + 1..])
  {
    assert hits == hits[..i] + [hits[i]] + hits[i + 1..];
    ConcatMapSplit(hits[..i], hits[i], hits[i + 1..], HitLine);
  }

  /** The formatting loop: the header, then one line per result. A response
      without a "results" key formats as no results. */
  method FormatContext(results: Option<seq<Hit>>) returns (context: string)
    ensures context == Header + Lines(match results case Some(hits) => hits case None => [])
  {
    var hits := match results case Some(rs) => rs case None => [];
    context := Header;
    var i := 0;
    while i < |hits|
      invariant 0 <= i <= |hits|
      invariant context == Header + Lines(hits[..i])
    {
      ConcatMapPrefix(hits, HitLine, i);
      AppendAssoc(Header, Lines(hits[..i]), HitLine(hits[i]));
      context := context + HitLine(hits[i]);
      i := i + 1;
    }
    assert hits[..|hits|] == hits;
  }

  /** `get_web_context(query, deep_dive)`: the context string, and the search
      request made, if any. */
  method GetWebContext(query: string, deepDive: bool, hasClient: bool, search: SearchRequest -> SearchOutcome)
    returns (context: string, request: Option<SearchRequest>)
    ensures !hasClient ==> context == "" && request == None
    ensures hasClient ==> request == Some(SearchRequest(query, if deepDive then "advanced" else "basic", MaxResults))
    ensures hasClient ==>
      match search(request.value)
      case SearchRaised(_) => context == ""
      case Response(None) => context == Header
      case Response(Some(hits)) => context == Header + Lines(hits)
  {
    if !hasClient {
      return "", None;
    }
    var searchDepth := if deepDive then "advanced" else "basic";
    request := Some(SearchRequest(query, searchDepth, MaxResults));
    var outcome := search(request.value);
    match outcome
    case SearchRaised(_) =>
      context := "";
    case Response(results) =>
      context := FormatContext(results);
      assert Lines([]) == "";
  }
}
