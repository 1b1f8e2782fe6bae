/** agents/tools/tavily_search_tool.py: the answer to a web search, built from
    the results the Tavily client returns. */
module TavilySearchTool {
  import opened Wrappers
  import opened Text

  /** One search result: its string fields by name. */
  type WebResult = map<string, string>

  /** The client's response; `results` is `None` when the key is missing. */
  datatype SearchResponse = SearchResponse(results: Option<seq<WebResult>>)

  /** Content longer than this is cut. */
  const PreviewLength := 500

  const EmptyQueryError := "Error: Query cannot be empty"

  function NoResultsMessage(query: string): string {
    "No results found for query: '" + query + "'. Try rephrasing your search."
  }

  function SearchErrorMessage(message: string): string {
    "Error: Tavily search failed: " + message
  }

  /** `content_preview`: long content is cut to its first 500 characters and
      marked with `...`; other content is kept whole. */
  function Preview(content: string): (r: string)
    ensures |content| <= PreviewLength ==> r == content
    ensures |content| > PreviewLength ==> (|r| == PreviewLength + 3 && r[..PreviewLength] == content[..PreviewLength] &&
      r[PreviewLength..] == "...")
  {
    if |content| > PreviewLength then content[..PreviewLength] + "..." else content
  }

  /** The lines of result number `i`: its heading, title and URL, and its
      content only when there is some. */
  function ResultLines(i: nat, result: WebResult): seq<string> {
    var content := Get(result, "content", "");
    ["\n--- Result " + NatToString(i) + " ---", "Title: " + Get(result, "title", "No title"),
     "URL: " + Get(result, "url", "")]
      + (if content != "" then ["Content: " + Preview(content)] else [])
  }

  /** Every result gives three lines, or four with content; the first names
      its number. */
  lemma ResultLinesShape(i: nat, result: WebResult)
    ensures 3 <= |ResultLines(i, result)| <= 4
    ensures |ResultLines(i, result)| == 4 <==> Get(result, "content", "") != ""
    ensures ResultLines(i, result)[0] == "\n--- Result " + NatToString(i) + " ---"
    ensures ResultLines(i, result)[1] == "Title: " + Get(result, "title", "No title")
    ensures ResultLines(i, result)[2] == "URL: " + Get(result, "url", "")
  {
  }

  /** The lines of all results, numbered from 1. */
  function ResultsLines(results: seq<WebResult>): (r: seq<string>)
    ensures 3 * |results| <= |r| <= 4 * |results|
  {
    if results == [] then []
    else
      ResultLinesShape(|results|, results[|results| - 1]);
      ResultsLines(results[..|results| - 1]) + ResultLines(|results|, results[|results| - 1])
  }

  /** The lines of the first `k` results lead the lines of all of them. */
  lemma {:induction false} ResultsLinesPrefix(results: seq<WebResult>, k: nat)
    requires k <= |results|
    ensures |ResultsLines(results[..k])| <= |ResultsLines(results)|
    ensures ResultsLines(results)[..|ResultsLines(results[..k])|] == ResultsLines(results[..k])
  {
    if k < |results| {
      var init := results[..|results| - 1];
      assert init[..k] == results[..k];
      ResultsLinesPrefix(init, k);
    } else {
      assert results[..k] == results;
    }
  }

  /** Result `k` (from 0) has its lines, numbered `k + 1`, right after those
      of the results before it. */
  lemma ResultBlockAt(results: seq<WebResult>, k: nat)
    requires k < |results|
    ensures |ResultsLines(results[..k])| + |ResultLines(k + 1, results[k])| <= |ResultsLines(results)|
    ensures ResultsLines(results)[|ResultsLines(results[..k])|..|ResultsLines(results[..k])| + |ResultLines(k + 1, results[k])|]
      == ResultLines(k + 1, results[k])
  {
    var upTo := results[..k + 1];
    var before := ResultsLines(results[..k]);
    var block := ResultLines(k + 1, results[k]);
    assert ResultsLines(upTo) == before + block by {
      assert upTo[..k] == results[..k];
    }
    ResultsLinesPrefix(results, k + 1);
    var all := ResultsLines(results);
    assert all[|before|..|before| + |block|] == ResultsLines(upTo)[|before|..];
  }

  /** The answer from the client's results. */
  function ResultsText(query: string, results: seq<WebResult>): string {
    if results == [] then NoResultsMessage(query)
    else Join([FoundHeader(|results|, query)] + ResultsLines(results), "\n")
  }

  /** What `execute` answers, given the client's search. */
  function Response(query: string, maxResults: int, search: (string, int) -> Outcome<SearchResponse>): string {
    if Strip(query) == "" then EmptyQueryError
    else
      match search(Strip(query), Clamp(maxResults, 1, 10))
      case Raised(e) => SearchErrorMessage(e)
      case Returned(response) => ResultsText(query, response.results.GetOr([]))
  }

  /** An empty or blank query is refused whatever the search would do. */
  lemma BlankQueryRefused(query: string, m1: int, m2: int,
                          s1: (string, int) -> Outcome<SearchResponse>, s2: (string, int) -> Outcome<SearchResponse>)
    requires forall i :: 0 <= i < |query| ==> IsSpace(query[i])
    ensures Response(query, m1, s1) == EmptyQueryError && Response(query, m2, s2) == EmptyQueryError
  {
    BlankStrips(query);
  }

  lemma {:induction false} BlankStrips(s: string)
    requires forall i :: 0 <= i < |s| ==> IsSpace(s[i])
    ensures Strip(s) == ""
  {
    if s != [] {
      BlankStrips(s[1..]);
    }
  }

  /** A query with text is searched stripped, for 1 to 10 results: searches
      that agree there give the same answer. */
  lemma SearchSeesStrippedQuery(query: string, maxResults: int,
                                s1: (string, int) -> Outcome<SearchResponse>, s2: (string, int) -> Outcome<SearchResponse>)
    requires s1(Strip(query), Clamp(maxResults, 1, 10)) == s2(Strip(query), Clamp(maxResults, 1, 10))
    ensures Response(query, maxResults, s1) == Response(query, maxResults, s2)
  {
  }

  /** No results, or none listed, give the fixed message; some give the
      header counting them; an error gives the error message. */
  lemma ResponseCases(query: string, maxResults: int, search: (string, int) -> Outcome<SearchResponse>)
    requires Strip(query) != ""
    ensures search(Strip(query), Clamp(maxResults, 1, 10)).Raised? ==>
      Response(query, maxResults, search) == SearchErrorMessage(search(Strip(query), Clamp(maxResults, 1, 10)).message)
    ensures (search(Strip(query), Clamp(maxResults, 1, 10)).Returned? &&
      search(Strip(query), Clamp(maxResults, 1, 10)).value.results.GetOr([]) == []) ==>
        Response(query, maxResults, search) == NoResultsMessage(query)
    ensures var outcome := search(Strip(query), Clamp(maxResults, 1, 10));
      outcome.Returned? && outcome.value.results.GetOr([]) != [] ==>
        StartsWith(Response(query, maxResults, search), FoundHeader(|outcome.value.results.value|, query))
  {
    var outcome := search(Strip(query), Clamp(maxResults, 1, 10));
    if outcome.Returned? && outcome.value.results.GetOr([]) != [] {
      var results := outcome.value.results.value;
      JoinStartsWith([FoundHeader(|results|, query)] + ResultsLines(results), "\n");
    }
  }

  /** The tool, holding the client's search. */
  class TavilySearchTool {
    const search: (string, int) -> Outcome<SearchResponse>

    constructor(search: (string, int) -> Outcome<SearchResponse>)
      ensures this.search == search
    {
      this.search := search;
    }

    /** `execute`. */
    method Execute(query: string, maxResults: int) returns (answer: string)
      ensures answer == Response(query, maxResults, search)
    {
      if |query| == 0 || Strip(query) == "" {
        return EmptyQueryError;
      }
      var n := Clamp(maxResults, 1, 10);
      var outcome := search(Strip(query), n);
      if outcome.Raised? {
        return SearchErrorMessage(outcome.message);
      }
      var results := if outcome.value.results.Some? then outcome.value.results.value else [];
      if |results| == 0 {
        return NoResultsMessage(query);
      }
      var parts := FormatResults(results);
      answer := Join([FoundHeader(|results|, query)] + parts, "\n");
    }

    /** The loop over the results. */
    static method FormatResults(results: seq<WebResult>) returns (parts: seq<string>)
      ensures parts == ResultsLines(results)
    {
      parts := [];
      var i := 0;
      while i < |results|
        invariant 0 <= i <= |results|
        invariant parts == ResultsLines(results[..i])
      {
        var lines := FormatResult(i + 1, results[i]);
        parts := parts + lines;
        assert results[..i + 1][..i] == results[..i];
        i := i + 1;
      }
      assert results[..i] == results;
    }

    /** The lines of result number `i`. */
    static method FormatResult(i: nat, result: WebResult) returns (lines: seq<string>)
      ensures lines == ResultLines(i, result)
    {
      var content := Get(result, "content", "");
      lines := ["\n--- Result " + NatToString(i) + " ---"];
      lines := lines + ["Title: " + Get(result, "title", "No title")];
      lines := lines + ["URL: " + Get(result, "url", "")];
      if content != "" {
        var preview := if |content| > 500 then content[..500] + "..." else content;
        lines := lines + ["Content: " + preview];
      }
    }
  }
}
