/** `summarizer.Website`: a page fetched once, with its title, its meta
    description and its cleaned text. The HTTP client and the HTML parser
    are outside the model: the fetch is a parameter that turns the request
    into either a parsed document or a request failure. */
module Summarizer {
  import opened Wrappers
  import opened PyStr
  import opened Dom
  import opened Cleanup
  import opened UrlParse
  import Config

  /** The browser identity every page request announces. */
  const UserAgent: string :=
    "Mozilla/5.0 (Windows NT 10.0; Win64; x64) AppleWebKit/537.36 (KHTML, like Gecko) Chrome/58.0.3029.110 Safari/537.3"

  /** Seconds the page request may take. */
  const FetchTimeout: int := 10

  /** What `requests.get` is asked for. */
  datatype HttpRequest = HttpRequest(url: string, headers: map<string, string>, timeout: int)

  /** What comes back: the parsed body of a successful response, or any
      `requests.RequestException` (connection failures, timeouts, and the
      4xx/5xx statuses `raise_for_status` turns into errors). */
  datatype Fetched = Page(doc: seq<Node>) | RequestFailed

  /** The one exception the page handling lets escape. */
  datatype Failure = AttributeError

  datatype Website = Website(
    url: string,
    title: string,
    description: string,
    content: string,
    headers: map<string, string>)

  /** `Website(url)`: "http://" is put in front of a URL without a scheme;
      the text fields start empty. */
  function NewWebsite(url: string): (w: Website)
    ensures Scheme(url) == [] ==> w.url == "http://" + url
    ensures Scheme(url) != [] ==> w.url == url
    ensures Scheme(w.url) != []
    ensures w.title == [] && w.description == [] && w.content == []
    ensures w.headers == map["User-Agent" := UserAgent]
  {
    Website(WithDefaultScheme(url), [], [], [], map["User-Agent" := UserAgent])
  }

  /** Building a website from a website's URL changes nothing. */
  lemma NewWebsiteStable(url: string)
    ensures NewWebsite(NewWebsite(url).url) == NewWebsite(url)
  {
    WithDefaultSchemeIdempotent(url);
  }

  // ---------------------------------------------------------------------
  // Title

  const TitleQuery: Query := Query("title", map[])

  /** `_get_title`: the stripped `.string` of the first `title` element, or
      "No Title" when there is none. A title element whose `.string` is
      None (no child, or more than one) makes `.strip()` raise. */
  function GetTitle(doc: seq<Node>): (r: Result<string, Failure>)
    ensures Find(doc, TitleQuery).None? ==> r == Ok("No Title")
    ensures r.Ok? ==> r.value == "No Title" || r.value == [] || Stripped(r.value)
  {
    match Find(doc, TitleQuery)
    case None => Ok("No Title")
    case Some(t) =>
      match StringOf(t)
      case None => Err(AttributeError)
      case Some(s) => Ok(Strip(s))
  }

  /** When a title element exists, the title is its whole text stripped,
      and it is an error exactly when that element does not reduce to a
      single string. A title element with no children, or with two or more,
      is an error. */
  lemma GetTitleOfElement(doc: seq<Node>)
    requires Find(doc, TitleQuery).Some?
    ensures var t := Find(doc, TitleQuery).value;
      GetTitle(doc).Ok? ==> |Strings([t])| == 1 && GetTitle(doc).value == Strip(Join(Strings([t]), []))
    ensures var t := Find(doc, TitleQuery).value;
      |t.children| != 1 ==> GetTitle(doc) == Err(AttributeError)
  {
    var t := Find(doc, TitleQuery).value;
    StringOfIsOnlyString(t);
  }

  /** A title element holding one piece of text gives that text stripped. */
  lemma TitleOfOneText(doc: seq<Node>, s: string)
    requires Find(doc, TitleQuery).Some? && Find(doc, TitleQuery).value.children == [Text(s)]
    ensures GetTitle(doc) == Ok(Strip(s))
  {
    var t := Find(doc, TitleQuery).value;
    assert t.children[0] == Text(s);
    assert StringOf(t) == StringOf(Text(s)) == Some(s);
  }

  /** The title is decided by the first title element alone. */
  lemma FirstTitleDecides(a: seq<Node>, b: seq<Node>)
    requires Find(a, TitleQuery).Some?
    ensures GetTitle(a + b) == GetTitle(a)
  {
    NodesAppend(a, b);
    FindAppend(a, b, TitleQuery);
  }

  lemma FindAppend(a: seq<Node>, b: seq<Node>, q: Query)
    requires Find(a, q).Some?
    requires Nodes(a + b) == Nodes(a) + Nodes(b)
    ensures Find(a + b, q) == Find(a, q)
  {
    FirstMatchAppend(Nodes(a), Nodes(b), q);
  }

  lemma {:induction false} FirstMatchAppend(xs: seq<Node>, ys: seq<Node>, q: Query)
    requires FirstMatch(xs, q).Some?
    ensures FirstMatch(xs + ys, q) == FirstMatch(xs, q)
  {
    if !Matches(q, xs[0]) {
      assert (xs + ys)[1..] == xs[1..] + ys;
      FirstMatchAppend(xs[1..], ys, q);
    }
  }

  // ---------------------------------------------------------------------
  // Description

  const DescriptionQuery: Query := Query("meta", map["name" := "description"])

  /** `_get_description`: the stripped `content` attribute of the first
      `<meta name="description">`, or "No Description" when there is no
      such element or it has no `content` attribute. */
  function GetDescription(doc: seq<Node>): (r: string)
    ensures Find(doc, DescriptionQuery).None? ==> r == "No Description"
    ensures var m := Find(doc, DescriptionQuery);
      m.Some? && "content" !in m.value.attrs ==> r == "No Description"
    ensures var m := Find(doc, DescriptionQuery);
      m.Some? && "content" in m.value.attrs ==>
        (r == [] <==> AllSpace(m.value.attrs["content"]))
    ensures r == "No Description" || r == [] || Stripped(r)
  {
    match Find(doc, DescriptionQuery)
    case Some(m) =>
      if "content" in m.attrs then Strip(m.attrs["content"]) else "No Description"
    case None => "No Description"
  }

  /** Only the first matching meta element is consulted: when it has no
      `content`, a later one that has is ignored. */
  lemma FirstDescriptionDecides(a: seq<Node>, b: seq<Node>)
    requires Find(a, DescriptionQuery).Some?
    ensures GetDescription(a + b) == GetDescription(a)
  {
    NodesAppend(a, b);
    FindAppend(a, b, DescriptionQuery);
  }

  /** The element consulted really is a description meta: its `name` is
      "description" and it is a `meta` tag of the page. */
  lemma DescriptionSource(doc: seq<Node>)
    requires GetDescription(doc) != "No Description"
    ensures var m := Find(doc, DescriptionQuery);
      && m.Some? && m.value in Nodes(doc) && m.value.tag == "meta"
      && "name" in m.value.attrs && m.value.attrs["name"] == "description"
      && "content" in m.value.attrs && GetDescription(doc) == Strip(m.value.attrs["content"])
  {
    var m := Find(doc, DescriptionQuery);
    assert "name" in DescriptionQuery.attrs;
  }

  // ---------------------------------------------------------------------
  // extract_content

  /** The request `extract_content` sends for a website. */
  function PageRequest(w: Website): HttpRequest {
    HttpRequest(w.url, w.headers, FetchTimeout)
  }

  /** The website after the call and what the call returned or raised. */
  datatype Extracted = Extracted(site: Website, result: Result<string, Failure>)

  /** `extract_content`: fetch the page; on a request failure return ""
      and leave the website as it was; otherwise set title, description
      and content, in that order, from the parsed document and return the
      content. A title that raises leaves every field unchanged. */
  function ExtractContent(w: Website, fetch: HttpRequest -> Fetched): (r: Extracted)
    ensures fetch(PageRequest(w)).RequestFailed? ==> r == Extracted(w, Ok([]))
    ensures r.result.Err? || fetch(PageRequest(w)).RequestFailed? ==> r.site == w
    ensures r.result.Ok? && fetch(PageRequest(w)).Page? ==> r.site.content == r.result.value
    ensures r.site.url == w.url && r.site.headers == w.headers
  {
    match fetch(PageRequest(w))
    case RequestFailed => Extracted(w, Ok([]))
    case Page(doc) =>
      match GetTitle(doc)
      case Err(e) => Extracted(w, Err(e))
      case Ok(title) =>
        var content := CleanHtml(doc);
        Extracted(w.(title := title, description := GetDescription(doc), content := content), Ok(content))
  }

  /** What a fetched page yields: its title and description are read off
      the page before any element is removed, and the content is the
      cleaned text. The call returns "" exactly when the request failed or
      the page has no visible text; a raised error means the first title
      element does not hold a single string. */
  lemma ExtractContentOutcome(w: Website, fetch: HttpRequest -> Fetched)
    ensures var f := fetch(PageRequest(w));
      f.Page? ==>
        (ExtractContent(w, fetch).result.Err? <==>
          Find(f.doc, TitleQuery).Some? && StringOf(Find(f.doc, TitleQuery).value).None?)
    ensures var f := fetch(PageRequest(w)); var r := ExtractContent(w, fetch);
      f.Page? && r.result.Ok? ==>
        && r.site.title == GetTitle(f.doc).value
        && r.site.description == GetDescription(f.doc)
        && r.site.content == Join(Clean(VisibleTexts(Placed(f.doc, []), TagSet(Denylist))), "\n")
    ensures var r := ExtractContent(w, fetch);
      r.result == Ok([]) <==>
        (fetch(PageRequest(w)).RequestFailed? ||
         (GetTitle(fetch(PageRequest(w)).doc).Ok? &&
          Clean(VisibleTexts(Placed(fetch(PageRequest(w)).doc, []), TagSet(Denylist))) == []))
    ensures var r := ExtractContent(w, fetch);
      r.result.Ok? && r.result.value != [] ==> Stripped(r.result.value)
  {
    var f := fetch(PageRequest(w));
    if f.Page? {
      CleanHtmlText(f.doc);
    }
  }

  /** Non-empty extracted content is stripped text, and it is what the
      website keeps as its content. */
  lemma ExtractedContent(w: Website, fetch: HttpRequest -> Fetched)
    ensures var r := ExtractContent(w, fetch);
      r.result.Ok? && r.result.value != [] ==>
        Stripped(r.result.value) && !AllSpace(r.result.value) && r.site.content == r.result.value
  {
    if fetch(PageRequest(w)).Page? {
      CleanHtmlText(fetch(PageRequest(w)).doc);
    }
  }

  /** A freshly built website asks for its (scheme-completed) URL with the
      browser user agent and a ten-second timeout. */
  lemma NewWebsiteRequest(url: string)
    ensures PageRequest(NewWebsite(url)) ==
      HttpRequest(WithDefaultScheme(url), map["User-Agent" := UserAgent], 10)
  {
  }

  /** The fixed request settings are the ones `WebsiteConfig()` holds,
      although the class never reads that record. */
  lemma FetchSettingsMatchConfig()
    ensures UserAgent == Config.DefaultWebsiteConfig().userAgent
    ensures FetchTimeout == Config.DefaultWebsiteConfig().timeout
  {
  }
}
