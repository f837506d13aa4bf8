/** `basic_summarization.main`: read the configuration, pick one action from
    the command-line flags, run it and turn its result into the process's
    exit code. The parsed arguments are a record; the service behind the
    client, the page extraction and the interactive input are parameters.
    What `main` prints is not modelled, except the section titles. */
module Cli {
  import opened Wrappers
  import opened PyStr
  import opened Config
  import opened ApiClient
  import opened SummarizationService
  import opened Interactive

  /** The arguments `argparse` produces. `--type` is restricted by
      `argparse` to the four analysis types; the model accepts any string,
      which the client maps to "summary" when unknown. */
  datatype Args = Args(
    url: Option<string>,
    analysisType: string,
    websites: bool,
    topic: string,
    ask: Option<string>,
    text: Option<string>,
    interactive: bool,
    debug: bool)

  /** No flag given: every argument at its `argparse` default. */
  function DefaultArgs(): (a: Args)
    ensures a.analysisType == DefaultAnalysis && a.topic == DefaultTopic
  {
    Args(None, "summary", false, "stock market", None, None, false, false)
  }

  /** The actions `main` can take. */
  datatype Branch = WebsitesBranch | ArticleBranch | QuestionBranch | TextBranch | InteractiveBranch | DemoBranch

  /** The `if`/`elif` chain of `main`: the first flag that is set, or that
      holds a non-empty string, decides; with none, the demo runs. */
  function SelectBranch(a: Args): Branch {
    if a.websites then WebsitesBranch
    else if Truthy(a.url) then ArticleBranch
    else if Truthy(a.ask) then QuestionBranch
    else if Truthy(a.text) then TextBranch
    else if a.interactive then InteractiveBranch
    else DemoBranch
  }

  /** The actions the flags ask for, in no particular order. */
  function Requested(a: Args): set<Branch> {
    (if a.websites then {WebsitesBranch} else {})
    + (if Truthy(a.url) then {ArticleBranch} else {})
    + (if Truthy(a.ask) then {QuestionBranch} else {})
    + (if Truthy(a.text) then {TextBranch} else {})
    + (if a.interactive then {InteractiveBranch} else {})
  }

  /** The priority of an action: websites, article, question, text,
      interactive, demo. */
  function Rank(b: Branch): nat {
    match b
    case WebsitesBranch => 0
    case ArticleBranch => 1
    case QuestionBranch => 2
    case TextBranch => 3
    case InteractiveBranch => 4
    case DemoBranch => 5
  }

  /** Of the requested actions, the one of highest priority runs, and the
      demo runs exactly when nothing is requested. */
  lemma SelectBranchPriority(a: Args)
    ensures Requested(a) != {} ==>
      SelectBranch(a) in Requested(a) && forall b :: b in Requested(a) ==> Rank(SelectBranch(a)) <= Rank(b)
    ensures SelectBranch(a) == DemoBranch <==> Requested(a) == {}
  {
  }

  /** Flags below the chosen action are ignored: clearing them changes
      nothing. */
  lemma LowerFlagsIgnored(a: Args)
    requires SelectBranch(a) == WebsitesBranch || SelectBranch(a) == ArticleBranch
    ensures SelectBranch(a.(ask := None, text := None, interactive := false)) == SelectBranch(a)
  {
  }

  // ---------------------------------------------------------------------
  // Section titles

  /** `analysis_type.replace('_', ' ').title()`: the same letters up to
      case, with every underscore turned into a space. */
  function Label(analysisType: string): (l: string)
    ensures |l| == |analysisType|
    ensures forall i :: 0 <= i < |l| ==> l[i] != '_'
    ensures forall i :: 0 <= i < |l| ==> (l[i] == ' ' <==> analysisType[i] == '_' || analysisType[i] == ' ')
    ensures forall i :: 0 <= i < |l| ==> LowerChar(l[i]) == LowerChar(analysisType[i]) || analysisType[i] == '_'
  {
    var spaced := ReplaceChar(analysisType, '_', ' ');
    var l := TitleCase(spaced);
    forall i | 0 <= i < |l|
      ensures l[i] == LowerChar(spaced[i]) || l[i] == UpperChar(spaced[i])
    {
      if i > 0 {
        assert l[i] == (if IsAsciiLetter(spaced[i - 1]) then LowerChar(spaced[i]) else UpperChar(spaced[i]));
      }
    }
    l
  }

  /** A non-empty word of lower-case ASCII letters. */
  predicate LowerWord(w: string) {
    w != [] && forall i :: 0 <= i < |w| ==> IsAsciiLower(w[i])
  }

  /** The word with its first letter upper-cased. */
  function Capitalized(w: string): string
    requires w != []
  {
    [UpperChar(w[0])] + w[1..]
  }

  /** A one-word type is shown capitalised. */
  lemma {:induction false} LabelOfWord(w: string)
    requires LowerWord(w)
    ensures Label(w) == Capitalized(w)
  {
    assert ReplaceChar(w, '_', ' ') == w;
    forall i | 0 <= i < |w| ensures TitleCase(w)[i] == Capitalized(w)[i] {
      TitleOfWordAt(w, i);
    }
  }

  lemma TitleOfWordAt(w: string, i: int)
    requires LowerWord(w) && 0 <= i < |w|
    ensures TitleCase(w)[i] == Capitalized(w)[i]
  {
    if i > 0 {
      assert IsAsciiLetter(w[i - 1]);
    }
  }

  /** A two-word snake-case type is shown as its two words capitalised and
      separated by a space. */
  lemma {:induction false} LabelOfTwoWords(a: string, b: string)
    requires LowerWord(a) && LowerWord(b)
    ensures Label(a + "_" + b) == Capitalized(a) + " " + Capitalized(b)
  {
    SpacedTwoWords(a, b);
    forall i | 0 <= i < |a| + 1 + |b|
      ensures TitleCase(a + " " + b)[i] == (Capitalized(a) + " " + Capitalized(b))[i]
    {
      TitleOfTwoWordsAt(a, b, i);
    }
  }

  lemma SpacedTwoWords(a: string, b: string)
    requires LowerWord(a) && LowerWord(b)
    ensures ReplaceChar(a + "_" + b, '_', ' ') == a + " " + b
  {
    forall i | 0 <= i < |a| + 1 + |b|
      ensures ReplaceChar(a + "_" + b, '_', ' ')[i] == (a + " " + b)[i]
    {
      if i < |a| {
        assert (a + "_" + b)[i] == a[i];
      } else if i > |a| {
        assert (a + "_" + b)[i] == b[i - |a| - 1];
      }
    }
  }

  lemma TitleOfTwoWordsAt(a: string, b: string, i: int)
    requires LowerWord(a) && LowerWord(b) && 0 <= i < |a| + 1 + |b|
    ensures TitleCase(a + " " + b)[i] == (Capitalized(a) + " " + Capitalized(b))[i]
  {
    if i == 0 {
    } else if i < |a| {
      assert (a + " " + b)[i - 1] == a[i - 1] && (a + " " + b)[i] == a[i];
      assert IsAsciiLetter(a[i - 1]);
    } else if i == |a| {
      assert (a + " " + b)[i - 1] == a[i - 1] && (a + " " + b)[i] == ' ';
    } else if i == |a| + 1 {
      assert (a + " " + b)[i - 1] == ' ' && (a + " " + b)[i] == b[0];
    } else {
      assert (a + " " + b)[i - 1] == b[i - |a| - 2] && (a + " " + b)[i] == b[i - |a| - 1];
      assert IsAsciiLetter(b[i - |a| - 2]);
    }
  }

  /** The labels of the four analysis types. */
  lemma LabelsOfTypes()
    ensures Label("summary") == "Summary"
    ensures Label("key_points") == "Key Points"
    ensures Label("action_items") == "Action Items"
    ensures Label("risks") == "Risks"
  {
    LabelSummary();
    LabelRisks();
    LabelKeyPoints();
    LabelActionItems();
  }

  lemma LabelSummary()
    ensures Label("summary") == "Summary"
  {
    LabelOfWord("summary");
  }

  lemma LabelRisks()
    ensures Label("risks") == "Risks"
  {
    LabelOfWord("risks");
  }

  lemma LabelKeyPoints()
    ensures Label("key_points") == "Key Points"
  {
    assert "key_points" == "key" + "_" + "points";
    LabelOfTwoWords("key", "points");
  }

  lemma LabelActionItems()
    ensures Label("action_items") == "Action Items"
  {
    ActionItemsWords();
    LabelOfTwoWords("action", "items");
  }

  lemma ActionItemsWords()
    ensures "action_items" == "action" + "_" + "items"
    ensures LowerWord("action") && LowerWord("items")
    ensures Capitalized("action") + " " + Capitalized("items") == "Action Items"
  {
    assert Capitalized("action") == "Action";
    assert Capitalized("items") == "Items";
  }

  /** The title of the section header `main` prints first. */
  function SectionTitle(a: Args): (t: string)
    ensures SelectBranch(a) == WebsitesBranch ==> IsSuffix(a.topic, t)
    ensures SelectBranch(a) == ArticleBranch || SelectBranch(a) == TextBranch ==>
      IsSuffix(Label(a.analysisType) + ")", t)
  {
    match SelectBranch(a)
    case WebsitesBranch => "Financial Website Recommendations: " + a.topic
    case ArticleBranch => "Analyzing Article (" + Label(a.analysisType) + ")"
    case QuestionBranch => "Financial Analysis"
    case TextBranch => "Text Analysis (" + Label(a.analysisType) + ")"
    case InteractiveBranch => "Interactive Mode"
    case DemoBranch => "Financial Website Recommendations"
  }

  /** Each action has a header of its own: headers of different actions
      differ, whatever the topic and the type. */
  lemma SectionTitlesDistinct(a: Args, b: Args)
    requires SelectBranch(a) != SelectBranch(b)
    ensures SectionTitle(a) != SectionTitle(b)
  {
    TitleShape(a);
    TitleShape(b);
  }

  /** The first character, the eleventh and the length tell the headers
      apart. */
  lemma TitleShape(a: Args)
    ensures var t := SectionTitle(a);
      match SelectBranch(a)
      case WebsitesBranch => |t| >= 35 && t[0] == 'F' && t[10] == 'W'
      case ArticleBranch => t != [] && t[0] == 'A'
      case QuestionBranch => |t| == 18 && t[0] == 'F' && t[10] == 'A'
      case TextBranch => t != [] && t[0] == 'T'
      case InteractiveBranch => t != [] && t[0] == 'I'
      case DemoBranch => |t| == 33 && t[0] == 'F' && t[10] == 'W'
  {
  }

  // ---------------------------------------------------------------------
  // Running the actions

  /** The article the demo summarises. */
  const DemoUrl: string :=
    "https://finance.yahoo.com/news/inflation-in-focus-as-september-fed-meeting-nears-what-to-watch-this-week-120006808.html"

  /** `run_demo`: ask for website recommendations on the default topic;
      only when that answer is non-empty, summarise the demo article with
      the default analysis. Returns the requests sent. */
  function RunDemo(s: Service, complete: Request -> Completion, extract: string -> Extraction): (sent: seq<Request>)
    ensures 1 <= |sent| <= 2
    ensures sent[0] == RecommendationRequest(s.client.config, DefaultTopic)
  {
    var first := RecommendationRequest(s.client.config, DefaultTopic);
    if !Truthy(GetWebsiteRecommendations(s.client, complete, DefaultTopic)) then [first]
    else [first] + SummarizeArticleFromUrl(s, complete, extract, DemoUrl, DefaultAnalysis).sent
  }

  /** The demo goes on to the article exactly when the recommendations
      came back non-empty and the page gave text, and then sends that text
      for the default analysis. */
  lemma DemoSendsArticle(s: Service, complete: Request -> Completion, extract: string -> Extraction)
    ensures |RunDemo(s, complete, extract)| == 2 <==>
      && complete(RecommendationRequest(s.client.config, DefaultTopic)).Completed?
      && Truthy(complete(RecommendationRequest(s.client.config, DefaultTopic)).content)
      && extract(DemoUrl).Returned? && extract(DemoUrl).content.Some?
      && !AllSpace(extract(DemoUrl).content.value)
    ensures |RunDemo(s, complete, extract)| == 2 ==>
      RunDemo(s, complete, extract)[1] == AnalysisRequest(s.client.config, extract(DemoUrl).content.value, DefaultAnalysis)
  {
  }

  /** The exception `main` lets escape. */
  datatype PyException = UnboundLocalError

  /** How `main` ends: it returns an exit code, an exception escapes it, or
      it never returns. */
  datatype Exit = Returns(code: int) | Raises(error: PyException) | Hangs

  /** How `main` ended and the requests it sent. */
  datatype Outcome = Outcome(exit: Exit, sent: seq<Request>)

  /** `if result: ... else: return 1`: a falsy result, None or "", fails. */
  function ExitCode(result: Option<string>): (code: int)
    ensures code == 0 <==> Truthy(result)
    ensures code == 0 || code == 1
  {
    if Truthy(result) then 0 else 1
  }

  /** The body of `main` once the configuration is loaded: build the
      client and the service from the OpenAI settings and run the chosen
      action. */
  function Dispatch(
    config: AppConfig, a: Args, complete: Request -> Completion, extract: string -> Extraction,
    lines: seq<string>): (o: Outcome)
  {
    var client := Client(config.openai);
    var s := Service(client);
    match SelectBranch(a)
    case WebsitesBranch =>
      Outcome(Returns(ExitCode(GetWebsiteRecommendations(client, complete, a.topic))),
        [RecommendationRequest(config.openai, a.topic)])
    case ArticleBranch =>
      var r := SummarizeArticleFromUrl(s, complete, extract, a.url.value, a.analysisType);
      Outcome(Returns(ExitCode(r.answer)), r.sent)
    case QuestionBranch =>
      Outcome(Returns(ExitCode(AskQuestion(client, complete, a.ask.value, None))),
        [QuestionRequest(config.openai, a.ask.value, None)])
    case TextBranch =>
      var r := SummarizeText(s, complete, a.text.value, a.analysisType);
      Outcome(Returns(ExitCode(r.answer)), r.sent)
    case InteractiveBranch =>
      var r := RunSession(s, complete, extract, lines);
      Outcome(if r.end.Exited? then Returns(0) else Hangs, r.sent)
    case DemoBranch =>
      Outcome(Returns(0), RunDemo(s, complete, extract))
  }

  // ---------------------------------------------------------------------
  // Setting up logging

  /** What `getattr(logging, name, logging.INFO)` in `setup_logging` finds
      for a name: no such attribute, so the INFO default; a value
      `logger.setLevel` accepts, such as the int levels; or a value it
      rejects, such as the str `BASIC_FORMAT` (ValueError) or the dict
      `_STYLES` (TypeError). The `logging` module is a parameter. */
  datatype LoggingAttr = NoAttr | LevelAttr | RejectedAttr

  /** `setup_logging(log_level, ...)` gets past `setLevel` exactly when the
      attribute named by the upper-cased level is absent or a level. */
  predicate LevelAccepted(logging: string -> LoggingAttr, logLevel: string) {
    !logging(Upper(logLevel)).RejectedAttr?
  }

  /** The attributes of the standard `logging` module the model relies on. */
  predicate StandardLogging(logging: string -> LoggingAttr) {
    && logging("DEBUG") == LevelAttr
    && logging("INFO") == LevelAttr
    && logging("WARNING") == LevelAttr
    && logging("ERROR") == LevelAttr
    && logging("CRITICAL") == LevelAttr
    && logging("BASIC_FORMAT") == RejectedAttr
    && logging("_STYLES") == RejectedAttr
  }

  /** With the standard module, the level names are accepted in any case,
      and "basic_format" and "_styles" are rejected. */
  lemma StandardLevels(logging: string -> LoggingAttr)
    requires StandardLogging(logging)
    ensures LevelAccepted(logging, "DEBUG") && LevelAccepted(logging, "debug")
    ensures LevelAccepted(logging, "INFO") && LevelAccepted(logging, "info")
    ensures !LevelAccepted(logging, "basic_format") && !LevelAccepted(logging, "_styles")
  {
    assert Upper("DEBUG") == "DEBUG" && Upper("debug") == "DEBUG";
    assert Upper("INFO") == "INFO" && Upper("info") == "INFO";
    assert Upper("basic_format") == "BASIC_FORMAT";
    assert Upper("_styles") == "_STYLES";
  }

  /** `main` gets past its first two steps: `load_config` returns, and
      `setup_logging` accepts the level after the `--debug` override. */
  predicate StartsUp(env: map<string, string>, parseFloat: string -> Option<real>, logging: string -> LoggingAttr, a: Args) {
    && LoadConfig(env, parseFloat).Ok?
    && LevelAccepted(logging, ApplyDebugFlag(LoadConfig(env, parseFloat).value, a.debug).logLevel)
  }

  /** `main` as written: when `load_config` or `setup_logging` raises, the
      handler logs through `logger`, which is not yet assigned, so
      `UnboundLocalError` escapes instead of the exit code 1. */
  function MainAsWritten(
    env: map<string, string>, parseFloat: string -> Option<real>, logging: string -> LoggingAttr, a: Args,
    complete: Request -> Completion, extract: string -> Extraction, lines: seq<string>): (o: Outcome)
    ensures !StartsUp(env, parseFloat, logging, a) ==> o == Outcome(Raises(UnboundLocalError), [])
    ensures o.exit == Raises(UnboundLocalError) <==> !StartsUp(env, parseFloat, logging, a)
  {
    match LoadConfig(env, parseFloat)
    case Err(_) => Outcome(Raises(UnboundLocalError), [])
    case Ok(loaded) =>
      var config := ApplyDebugFlag(loaded, a.debug);
      if !LevelAccepted(logging, config.logLevel) then Outcome(Raises(UnboundLocalError), [])
      else Dispatch(config, a, complete, extract, lines)
  }

  /** Without an API key, `main` as written ends in `UnboundLocalError`. */
  lemma MissingKeyRaises(
    env: map<string, string>, parseFloat: string -> Option<real>, logging: string -> LoggingAttr, a: Args,
    complete: Request -> Completion, extract: string -> Extraction, lines: seq<string>)
    requires "OPENAI_API_KEY" !in env
    ensures MainAsWritten(env, parseFloat, logging, a, complete, extract, lines).exit == Raises(UnboundLocalError)
    ensures MainAsWritten(env, parseFloat, logging, a, complete, extract, lines).exit != Returns(1)
  {
  }

  /** With `LOG_LEVEL=basic_format` and no `--debug`, `main` as written
      ends in `UnboundLocalError` although the configuration loads. */
  lemma RejectedLevelRaises(
    env: map<string, string>, parseFloat: string -> Option<real>, logging: string -> LoggingAttr, a: Args,
    complete: Request -> Completion, extract: string -> Extraction, lines: seq<string>)
    requires StandardLogging(logging) && !a.debug
    requires LoadConfig(env, parseFloat).Ok?
    requires "LOG_LEVEL" in env && env["LOG_LEVEL"] == "basic_format"
    ensures MainAsWritten(env, parseFloat, logging, a, complete, extract, lines).exit == Raises(UnboundLocalError)
    ensures Main(env, parseFloat, logging, a, complete, extract, lines) == Outcome(Returns(1), [])
  {
    BasicFormatRejected(env, parseFloat, logging);
  }

  lemma BasicFormatRejected(env: map<string, string>, parseFloat: string -> Option<real>, logging: string -> LoggingAttr)
    requires StandardLogging(logging)
    requires LoadConfig(env, parseFloat).Ok?
    requires "LOG_LEVEL" in env && env["LOG_LEVEL"] == "basic_format"
    ensures !LevelAccepted(logging, LoadConfig(env, parseFloat).value.logLevel)
  {
    assert LoadConfig(env, parseFloat).value.logLevel == Upper("basic_format");
    assert Upper(Upper("basic_format")) == "BASIC_FORMAT";
  }

  /** `main` as intended: a configuration or logging error is reported and
      the exit code is 1, with nothing sent. */
  function Main(
    env: map<string, string>, parseFloat: string -> Option<real>, logging: string -> LoggingAttr, a: Args,
    complete: Request -> Completion, extract: string -> Extraction, lines: seq<string>): (o: Outcome)
    ensures !StartsUp(env, parseFloat, logging, a) ==> o == Outcome(Returns(1), [])
    ensures o.exit != Raises(UnboundLocalError)
  {
    match LoadConfig(env, parseFloat)
    case Err(_) => Outcome(Returns(1), [])
    case Ok(loaded) =>
      var config := ApplyDebugFlag(loaded, a.debug);
      if !LevelAccepted(logging, config.logLevel) then Outcome(Returns(1), [])
      else Dispatch(config, a, complete, extract, lines)
  }

  /** The two agree exactly when `main` gets past loading the
      configuration and setting up logging. */
  lemma MainAgreesWhenConfigured(
    env: map<string, string>, parseFloat: string -> Option<real>, logging: string -> LoggingAttr, a: Args,
    complete: Request -> Completion, extract: string -> Extraction, lines: seq<string>)
    ensures Main(env, parseFloat, logging, a, complete, extract, lines) == MainAsWritten(env, parseFloat, logging, a, complete, extract, lines)
      <==> StartsUp(env, parseFloat, logging, a)
  {
  }

  /** An outcome that returns 0 exactly when its one request was answered
      with non-empty content, and 1 otherwise. */
  predicate AnsweredExit(o: Outcome, complete: Request -> Completion) {
    && o.exit.Returns?
    && (o.exit.code == 0 <==> |o.sent| == 1 && complete(o.sent[0]).Completed? && Truthy(complete(o.sent[0]).content))
    && (o.exit.code == 0 || o.exit.code == 1)
  }

  /** The exit code of the four single-request actions is 0 exactly when
      the one request sent was answered with non-empty content; the demo
      returns 0 exactly when `main` starts up, and the interactive mode
      returns 0 when it is left with "exit" and otherwise never returns.
      A `main` that does not start up returns 1. */
  lemma ExitCodes(
    env: map<string, string>, parseFloat: string -> Option<real>, logging: string -> LoggingAttr, a: Args,
    complete: Request -> Completion, extract: string -> Extraction, lines: seq<string>)
    ensures SelectBranch(a) != InteractiveBranch && SelectBranch(a) != DemoBranch ==>
      AnsweredExit(Main(env, parseFloat, logging, a, complete, extract, lines), complete)
    ensures SelectBranch(a) == DemoBranch ==>
      (Main(env, parseFloat, logging, a, complete, extract, lines).exit == Returns(0) <==> StartsUp(env, parseFloat, logging, a))
    ensures var o := Main(env, parseFloat, logging, a, complete, extract, lines);
      SelectBranch(a) == InteractiveBranch && StartsUp(env, parseFloat, logging, a) ==> (o.exit == Returns(0) || o.exit == Hangs)
  {
    if StartsUp(env, parseFloat, logging, a) {
      DispatchExitCodes(ApplyDebugFlag(LoadConfig(env, parseFloat).value, a.debug), a, complete, extract, lines);
    }
  }

  lemma DispatchExitCodes(
    config: AppConfig, a: Args, complete: Request -> Completion, extract: string -> Extraction, lines: seq<string>)
    ensures SelectBranch(a) != InteractiveBranch && SelectBranch(a) != DemoBranch ==>
      AnsweredExit(Dispatch(config, a, complete, extract, lines), complete)
  {
    match SelectBranch(a)
    case ArticleBranch =>
      ArticleExit(Service(Client(config.openai)), complete, extract, a.url.value, a.analysisType);
    case TextBranch =>
      TextExit(Service(Client(config.openai)), complete, a.text.value, a.analysisType);
    case _ =>
  }

  lemma ArticleExit(s: Service, complete: Request -> Completion, extract: string -> Extraction, url: string, t: string)
    ensures AnsweredExit(Outcome(Returns(ExitCode(SummarizeArticleFromUrl(s, complete, extract, url, t).answer)),
      SummarizeArticleFromUrl(s, complete, extract, url, t).sent), complete)
  {
    RepliesComeFromOneRequest(s, complete, extract, url, [], t);
  }

  lemma TextExit(s: Service, complete: Request -> Completion, text: string, t: string)
    ensures AnsweredExit(Outcome(Returns(ExitCode(SummarizeText(s, complete, text, t).answer)),
      SummarizeText(s, complete, text, t).sent), complete)
  {
  }

  /** Every request `main` sends carries the model and temperature of the
      loaded configuration and a system and a user message. */
  lemma MainRequestsUseConfig(
    env: map<string, string>, parseFloat: string -> Option<real>, logging: string -> LoggingAttr, a: Args,
    complete: Request -> Completion, extract: string -> Extraction, lines: seq<string>)
    requires LoadConfig(env, parseFloat).Ok?
    ensures forall q :: q in Main(env, parseFloat, logging, a, complete, extract, lines).sent ==>
      UsesConfig(LoadConfig(env, parseFloat).value.openai, q)
  {
    var config := ApplyDebugFlag(LoadConfig(env, parseFloat).value, a.debug);
    DispatchUsesConfig(config, a, complete, extract, lines);
  }

  lemma DispatchUsesConfig(
    config: AppConfig, a: Args, complete: Request -> Completion, extract: string -> Extraction, lines: seq<string>)
    ensures forall q :: q in Dispatch(config, a, complete, extract, lines).sent ==> UsesConfig(config.openai, q)
  {
    var s := Service(Client(config.openai));
    match SelectBranch(a)
    case ArticleBranch => ArticleUsesConfig(s, complete, extract, a.url.value, a.analysisType);
    case TextBranch => TextUsesConfig(s, complete, a.text.value, a.analysisType);
    case InteractiveBranch => SessionRequestsUseConfig(s, complete, extract, lines);
    case DemoBranch => DemoUsesConfig(s, complete, extract);
    case _ =>
  }

  lemma ArticleUsesConfig(s: Service, complete: Request -> Completion, extract: string -> Extraction, url: string, t: string)
    ensures forall q :: q in SummarizeArticleFromUrl(s, complete, extract, url, t).sent ==> UsesConfig(s.client.config, q)
  {
    if extract(url).Returned? && extract(url).content.Some? {
      TextUsesConfig(s, complete, extract(url).content.value, t);
    }
  }

  lemma TextUsesConfig(s: Service, complete: Request -> Completion, text: string, t: string)
    ensures forall q :: q in SummarizeText(s, complete, text, t).sent ==> UsesConfig(s.client.config, q)
  {
  }

  lemma DemoUsesConfig(s: Service, complete: Request -> Completion, extract: string -> Extraction)
    ensures forall q :: q in RunDemo(s, complete, extract) ==> UsesConfig(s.client.config, q)
  {
    DemoSendsArticle(s, complete, extract);
    if |RunDemo(s, complete, extract)| == 2 {
      assert RunDemo(s, complete, extract) == [RunDemo(s, complete, extract)[0], RunDemo(s, complete, extract)[1]];
    } else {
      assert RunDemo(s, complete, extract) == [RunDemo(s, complete, extract)[0]];
    }
  }

  /** `--debug` changes nothing `main` sends and nothing about how it
      ends, as long as `setup_logging` accepts both the configured level
      and "DEBUG". */
  lemma DebugChangesNothingSent(
    env: map<string, string>, parseFloat: string -> Option<real>, logging: string -> LoggingAttr, a: Args,
    complete: Request -> Completion, extract: string -> Extraction, lines: seq<string>)
    ensures (LoadConfig(env, parseFloat).Ok? && LevelAccepted(logging, "DEBUG")
      && LevelAccepted(logging, LoadConfig(env, parseFloat).value.logLevel)) ==>
      Main(env, parseFloat, logging, a.(debug := true), complete, extract, lines) ==
      Main(env, parseFloat, logging, a.(debug := false), complete, extract, lines)
    ensures LoadConfig(env, parseFloat).Err? ==>
      Main(env, parseFloat, logging, a.(debug := true), complete, extract, lines) ==
      Main(env, parseFloat, logging, a.(debug := false), complete, extract, lines)
  {
    if LoadConfig(env, parseFloat).Ok? {
      var c := LoadConfig(env, parseFloat).value;
      DispatchReadsOnlyOpenAI(ApplyDebugFlag(c, true), ApplyDebugFlag(c, false), a.(debug := true), a.(debug := false), complete, extract, lines);
    }
  }

  /** When the configured level is one `setup_logging` rejects, `--debug`
      decides whether `main` starts: the demo then returns 0 with the flag
      and 1 without it. */
  lemma DebugCanChangeExit(
    env: map<string, string>, parseFloat: string -> Option<real>, logging: string -> LoggingAttr, a: Args,
    complete: Request -> Completion, extract: string -> Extraction, lines: seq<string>)
    requires StandardLogging(logging) && SelectBranch(a) == DemoBranch
    requires LoadConfig(env, parseFloat).Ok? && !LevelAccepted(logging, LoadConfig(env, parseFloat).value.logLevel)
    ensures Main(env, parseFloat, logging, a.(debug := false), complete, extract, lines) == Outcome(Returns(1), [])
    ensures Main(env, parseFloat, logging, a.(debug := true), complete, extract, lines).exit == Returns(0)
  {
    StandardLevels(logging);
  }

  lemma DispatchReadsOnlyOpenAI(
    c1: AppConfig, c2: AppConfig, a1: Args, a2: Args,
    complete: Request -> Completion, extract: string -> Extraction, lines: seq<string>)
    requires c1.openai == c2.openai && a1.(debug := false) == a2.(debug := false)
    ensures Dispatch(c1, a1, complete, extract, lines) == Dispatch(c2, a2, complete, extract, lines)
  {
    assert SelectBranch(a1) == SelectBranch(a2);
    match SelectBranch(a1)
    case WebsitesBranch =>
    case ArticleBranch =>
    case QuestionBranch =>
    case TextBranch =>
    case InteractiveBranch =>
    case DemoBranch =>
  }
}
