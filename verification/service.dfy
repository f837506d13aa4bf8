/** `summarization_service.FinancialSummarizationService`: guards in front
    of the analysis call. Page extraction is done by `util.Website`, which is
    not part of this model; it is a parameter from the URL to what
    `extract_content` returned or whether construction or extraction
    raised. */
module SummarizationService {
  import opened Wrappers
  import opened PyStr
  import opened ApiClient
  import Summarizer

  /** `Website(url).extract_content()` seen from the service. */
  datatype Extraction = Returned(content: Option<string>) | Raised

  /** What a service call returned, and the requests it sent on the way
      (none or one). */
  datatype Reply = Reply(answer: Option<string>, sent: seq<Request>)

  datatype Service = Service(client: Client)

  /** `summarize_text`: blank text (empty or whitespace only) is refused
      without a request; anything else goes to the analysis call unchanged,
      and its answer, "" included, is returned as it is. */
  function SummarizeText(s: Service, complete: Request -> Completion, text: string, analysisType: string): (r: Reply)
    ensures AllSpace(text) ==> r == Reply(None, [])
    ensures !AllSpace(text) ==> r.sent == [AnalysisRequest(s.client.config, text, analysisType)]
    ensures !AllSpace(text) ==> r.answer == SummarizeContent(s.client, complete, text, analysisType)
  {
    if text == [] || Strip(text) == [] then Reply(None, [])
    else Reply(SummarizeContent(s.client, complete, text, analysisType), [AnalysisRequest(s.client.config, text, analysisType)])
  }

  /** `summarize_article_from_url`: extract the page; a raise, a None or a
      blank page ends in None without a request; otherwise the page text is
      analysed and the answer returned as it is. */
  function SummarizeArticleFromUrl(
    s: Service, complete: Request -> Completion, extract: string -> Extraction,
    url: string, analysisType: string): (r: Reply)
    ensures extract(url).Raised? ==> r == Reply(None, [])
    ensures extract(url).Returned? && extract(url).content.None? ==> r == Reply(None, [])
    ensures extract(url).Returned? && extract(url).content.Some? ==>
      var c := extract(url).content.value;
      && (AllSpace(c) ==> r == Reply(None, []))
      && (!AllSpace(c) ==> r == SummarizeText(s, complete, c, analysisType))
  {
    match extract(url)
    case Raised => Reply(None, [])
    case Returned(None) => Reply(None, [])
    case Returned(Some(c)) =>
      if c == [] || Strip(c) == [] then Reply(None, [])
      else Reply(SummarizeContent(s.client, complete, c, analysisType), [AnalysisRequest(s.client.config, c, analysisType)])
  }

  /** Both summarising calls send at most one request, and only an
      analysis request for non-blank content; any answer comes from that
      request. */
  lemma RepliesComeFromOneRequest(
    s: Service, complete: Request -> Completion, extract: string -> Extraction,
    url: string, text: string, analysisType: string)
    ensures var r := SummarizeText(s, complete, text, analysisType);
      |r.sent| <= 1 && (r.answer.Some? ==> |r.sent| == 1 && complete(r.sent[0]).Completed?)
    ensures var r := SummarizeArticleFromUrl(s, complete, extract, url, analysisType);
      |r.sent| <= 1 && (r.answer.Some? ==> |r.sent| == 1 && complete(r.sent[0]).Completed?)
    ensures var r := SummarizeArticleFromUrl(s, complete, extract, url, analysisType);
      |r.sent| == 1 ==>
        && extract(url) == Returned(Some(r.sent[0].messages[1].content[|ContentPrefix|..]))
        && !AllSpace(r.sent[0].messages[1].content[|ContentPrefix|..])
  {
    var r := SummarizeArticleFromUrl(s, complete, extract, url, analysisType);
    if |r.sent| == 1 {
      var c := extract(url).content.value;
      AnalysisRequestReadBack(s.client.config, c, analysisType);
    }
  }

  /** `get_analysis_types`. */
  function GetAnalysisTypes(): (ts: seq<string>)
    ensures |ts| == 4
  {
    ["summary", "key_points", "action_items", "risks"]
  }

  /** The advertised analysis types are exactly the ones the client has a
      prompt for, each listed once. */
  lemma AnalysisTypesArePromptKeys()
    ensures forall t :: t in GetAnalysisTypes() <==> t in Prompts
    ensures forall i, j :: 0 <= i < j < |GetAnalysisTypes()| ==> GetAnalysisTypes()[i] != GetAnalysisTypes()[j]
  {
    var ts := GetAnalysisTypes();
    assert |ts[0]| == 7 && |ts[1]| == 10 && |ts[2]| == 12 && |ts[3]| == 5;
  }

  // ---------------------------------------------------------------------
  // The service on top of `summarizer.Website`

  /** The extraction the service would see if `util.Website` behaved like
      `summarizer.Website`. */
  function SummarizerExtraction(fetch: Summarizer.HttpRequest -> Summarizer.Fetched, url: string): (e: Extraction)
    ensures e.Returned? ==> e.content.Some?
  {
    match Summarizer.ExtractContent(Summarizer.NewWebsite(url), fetch).result
    case Ok(c) => Returned(Some(c))
    case Err(_) => Raised
  }

  /** On that page model, an unreachable page or a page without visible
      text is never sent for analysis, and what is sent is the page's
      cleaned text, which begins and ends with non-whitespace. */
  lemma ArticleOverSummarizer(
    s: Service, complete: Request -> Completion, fetch: Summarizer.HttpRequest -> Summarizer.Fetched,
    url: string, analysisType: string)
    ensures var r := SummarizeArticleFromUrl(s, complete, u => SummarizerExtraction(fetch, u), url, analysisType);
      fetch(Summarizer.PageRequest(Summarizer.NewWebsite(url))).RequestFailed? ==> r == Reply(None, [])
    ensures var r := SummarizeArticleFromUrl(s, complete, u => SummarizerExtraction(fetch, u), url, analysisType);
      var w := Summarizer.ExtractContent(Summarizer.NewWebsite(url), fetch);
      r.sent != [] ==>
        && w.result.Ok?
        && r.sent == [AnalysisRequest(s.client.config, w.site.content, analysisType)]
        && Stripped(w.site.content)
  {
    Summarizer.ExtractedContent(Summarizer.NewWebsite(url), fetch);
  }
}
