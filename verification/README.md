# Financial summarization, modelled in Dafny

The program fetches a web page, cuts it down to readable text and sends
that text to a chat-completion service with a prompt chosen by analysis
type (summary, key points, action items, risks). It also asks the service
for website recommendations on a topic and answers free-form questions.
A command-line front end picks one action from its flags. It also has an
interactive loop that reads commands line by line.

The model follows the program's modules:

- `wrappers.dfy`: `Option`, `Result`, and Python truthiness of an optional string.
- `pystr.dfy` (`PyStr`): the `str` operations the program relies on.
  - `isspace` over the full Unicode whitespace set.
  - `strip`.
  - `split()` and `split(maxsplit=...)`, related to each other.
  - `join`, `lower`, `upper`, `title` and `replace`.
- `dom.dfy` (`Dom`): the parsed page as a forest of elements and text nodes.
  - Document order, as the `descendants` generator walks it.
  - `get_text(strip=True)`, `find` and `.string`.
- `cleanup.dfy` (`Cleanup`): the two tree rewrites of `_clean_html`.
  - The denylist removal, tag by tag.
  - The empty-element sweep.
- `url.dfy` (`UrlParse`): the part of `urlparse` that decides whether a URL has a scheme, as Python 3.11 and later decide it.
- `website.dfy` (`Summarizer`): `summarizer.Website`. This covers the constructor's "http://" rule, `_get_title`, `_get_description` and `extract_content`.
- `config.dfy` (`Config`): the configuration records and `load_config`.
- `client.dfy` (`ApiClient`): the three requests of `FinancialAnalystClient` and how every failure becomes None.
- `service.dfy` (`SummarizationService`): the guards of `FinancialSummarizationService`.
- `repl.dfy` (`Interactive`): the parsing and the loop of `run_interactive_mode`.
- `cli.dfy` (`Cli`): `main` and `run_demo`.
  - Flag priority, the `--debug` override, the level check of `setup_logging` and the section titles.
  - The exit codes and the requests sent.

The outside world enters as parameters:

- The HTTP fetch is a function from the request to a parsed document or a request failure.
- The chat service is a function from the request to a completion or one of the caught exceptions.
- `util.Website` is a function from the URL to what `extract_content` returned, or to a raise.
- The environment is a map.
- `float()` is a function that may fail.
- The interactive input is the sequence of lines typed.

Where the repository's own description and its code differ, the model follows the code:

- The title is the stripped `.string` of the first `<title>`.
  - A title element without exactly one child raises `AttributeError` out of `extract_content`.
  - A title holding only whitespace gives "", not "No Title".
- A description meta whose `content` is present but blank gives "". Only a missing element or a missing attribute gives "No Description".
- A request failure makes `extract_content` return "". It is not reported as a failure.
- The empty-element pass is a single pass in document order. `Cleanup.SweepFixedPoint` shows this single pass already reaches the fixed point that repeated passes would.
- A missing API key, or a `LOG_LEVEL` naming an attribute of `logging` that is not a level, makes `main` raise `UnboundLocalError` instead of returning 1: see Findings. The process still exits with status 1, with a traceback after the message.
- `--debug` replaces the log level before `setup_logging` runs. So with such a `LOG_LEVEL` the flag decides whether `main` starts at all.
- The content may contain blank lines: one text node can itself hold "\n\n".

## Model

| member | source | states |
|---|---|---|
| PyStr.Strip | summarization/summarizer.py:78 | `strip()` returns the text between the leading and the trailing whitespace. It is empty exactly when the text is all whitespace, and otherwise it begins and ends with non-whitespace. It leaves stripped text unchanged. |
| PyStr.WordsAreWords | summarization/basic_summarization.py:219 | The words of `split()` are non-empty and whitespace-free. The text has no words exactly when it is blank. |
| PyStr.SplitRefinesWords | summarization/basic_summarization.py:219 | `split(maxsplit=m)` agrees with `split()`. With fewer than m+1 parts they are equal. With m+1 parts, the first m are the first m words and the last part splits into the remaining words. |
| PyStr.SplitParts | summarization/basic_summarization.py:219 | The parts of a bounded split are non-empty. The first part starts with non-whitespace, and every part but the last is whitespace-free. There are no parts exactly when the text is blank. |
| PyStr.SplitLastStripped | summarization/basic_summarization.py:219 | When a stripped line is split all m times, its last part is stripped too: it runs to the end of the line. |
| PyStr.SingleWordStripped | summarization/basic_summarization.py:219 | A stripped text with exactly one word is that word. |
| PyStr.WordsPrependWord | summarization/basic_summarization.py:266 | The words of `a + " " + b`, for a word `a`, are `a` followed by the words of `b`. |
| PyStr.Join | summarization/basic_summarization.py:266 | `sep.join(ps)` is empty for no parts. Otherwise it begins with the first part and ends with the last. |
| PyStr.JoinTwo | summarization/basic_summarization.py:266 | Joining two parts puts the separator between them. |
| PyStr.TitleCase | summarization/basic_summarization.py:126 | `title()` upper-cases the first character and every character that follows a non-letter. It lower-cases every character that follows a letter. |
| Dom.Clean | summarization/summarizer.py:119 | `strip=True` keeps at most as many pieces as there were strings, and every piece kept is stripped. |
| Dom.GetTextShape | summarization/summarizer.py:119 | `get_text(strip=True)` is empty exactly when no string has non-whitespace, whatever the separator. Otherwise it begins and ends with non-whitespace. |
| Dom.FirstMatch | summarization/summarizer.py:84 | `find` yields the position of the first matching node, with no match before it. None means nothing matches. |
| Dom.Find | summarization/summarizer.py:84 | The element found matches the query and is a node of the page. None exactly when no node matches. |
| Dom.StringOfIsOnlyString | summarization/summarizer.py:78 | When `.string` is defined, it is the node's one and only string. |
| Cleanup.RemoveTagsIsPrune | summarization/summarizer.py:112-114 | The tag-by-tag `decompose` loop removes exactly what one pass over the whole tag set removes. So the order of the tags does not matter. |
| Cleanup.StripDenylistedIsPrune | summarization/summarizer.py:97-114 | The denylist loop is one removal of the thirteen tags. |
| Cleanup.PruneTwice | summarization/summarizer.py:112-114 | Removing by one tag set and then another is removing by their union. |
| Cleanup.PruneClean | summarization/summarizer.py:112-114 | A page with no element of a denied tag is left unchanged. |
| Cleanup.NoDeniedSurvives | summarization/summarizer.py:112-114 | After removal, no element of a denied tag is left anywhere in the tree. |
| Cleanup.NoDenylistedTagRemains | summarization/summarizer.py:97-114 | No element with a denylisted tag survives the loop of `_clean_html`. |
| Cleanup.PrunedStrings | summarization/summarizer.py:112-114 | Removal keeps exactly the strings with no denied ancestor, in document order. |
| Cleanup.SurvivorKept | summarization/summarizer.py:112-114 | An element that is not denied and has no denied ancestor stays in the tree, with only its denied descendants removed. |
| Cleanup.CleanSubtreeKept | summarization/summarizer.py:112-114 | A subtree with nothing denied on its root path or inside it is found unchanged after removal. |
| Cleanup.SweepPieces | summarization/summarizer.py:116-119 | The empty-element sweep removes no non-whitespace text: the stripped pieces are the same before and after. |
| Cleanup.SweepLeavesNoBlank | summarization/summarizer.py:116-118 | After the sweep, every remaining element has non-whitespace text. |
| Cleanup.SweepIdentity | summarization/summarizer.py:116-118 | A page without a blank element is left unchanged by the sweep. |
| Cleanup.SweepFixedPoint | summarization/summarizer.py:116-118 | Sweeping again changes nothing. A page is unchanged by the sweep exactly when it holds no blank element. |
| Cleanup.CleanHtmlText | summarization/summarizer.py:97-119 | `_clean_html` returns the newline-joined stripped non-blank strings that have no denylisted ancestor. The sweep leaves that text unchanged. The result is empty exactly when no such string exists, and otherwise begins and ends with non-whitespace. |
| Cleanup.AllDenylistedIsEmpty | summarization/summarizer.py:97-119 | A page made only of denylisted elements yields no text. |
| Cleanup.AllDeniedPrunesToNothing | summarization/summarizer.py:112-114 | A forest whose top-level elements are all denied is removed entirely. |
| UrlParse.Scheme | summarization/summarizer.py:29 | `urlparse(url).scheme` is non-empty exactly when the text before the first colon is a scheme under section 3.1 of RFC 3986, and it is that text lower-cased. Leading controls and spaces are ignored, and so are tabs and line breaks. |
| UrlParse.WithDefaultScheme | summarization/summarizer.py:29-30 | "http://" is put in front exactly when the URL has no scheme, and the result always has one. |
| UrlParse.HttpPrefixGivesScheme | summarization/summarizer.py:30 | Any URL with "http://" in front has the scheme "http". |
| UrlParse.WithDefaultSchemeIdempotent | summarization/summarizer.py:29-30 | Adding the default scheme twice is adding it once. |
| UrlParse.NoColonGetsHttp | summarization/summarizer.py:29-30 | A URL without a colon gets "http://". |
| UrlParse.HostPortKept | summarization/summarizer.py:29-30 | A URL such as "localhost:8080" reads as scheme plus path and is kept without "http://". |
| UrlParse.CleanedIdentity | summarization/summarizer.py:29 | A URL starting with a visible character, with no tab or line break, is examined as given. |
| UrlParse.CleanedSubset | summarization/summarizer.py:29 | Cleaning the URL before the scheme test only deletes characters. |
| Summarizer.NewWebsite | summarization/summarizer.py:29-37 | The URL gets "http://" exactly when it has no scheme. The text fields start empty, and the headers are the fixed user agent. |
| Summarizer.NewWebsiteStable | summarization/summarizer.py:29-31 | Building a website from a website's URL gives the same website. |
| Summarizer.NewWebsiteRequest | summarization/summarizer.py:60 | The page request uses the scheme-completed URL, the user-agent header and a 10-second timeout. |
| Summarizer.FetchSettingsMatchConfig | summarization/config.py:21-25 | The class's fixed user agent and timeout equal the defaults of `WebsiteConfig`. |
| Summarizer.GetTitle | summarization/summarizer.py:75-80 | "No Title" when the page has no title element. Any title returned is "No Title", "" or stripped text. |
| Summarizer.GetTitleOfElement | summarization/summarizer.py:77-78 | A title element's title is its single string stripped. An element without exactly one child raises `AttributeError`. |
| Summarizer.TitleOfOneText | summarization/summarizer.py:77-78 | A title element holding one text gives that text stripped. |
| Summarizer.FirstTitleDecides | summarization/summarizer.py:77-78 | Only the first title element counts: what follows it never changes the title. |
| Summarizer.GetDescription | summarization/summarizer.py:82-88 | "No Description" without a description meta or without its `content`. Otherwise the stripped `content`, which is "" exactly when `content` is blank. |
| Summarizer.FirstDescriptionDecides | summarization/summarizer.py:84-86 | Only the first description meta is consulted, even when it lacks `content`. |
| Summarizer.DescriptionSource | summarization/summarizer.py:84-86 | A description other than the sentinel comes from a page's `meta` element named "description", and is its stripped `content`. |
| Summarizer.ExtractContent | summarization/summarizer.py:54-73 | A request failure returns "" and leaves the website unchanged, as does a raise. On success the content stored is the content returned. URL and headers never change. |
| Summarizer.ExtractContentOutcome | summarization/summarizer.py:59-73 | For a fetched page, the call raises exactly when the first title element has no `.string`. Title, description and content are the page's title, its description and the cleaned text. The call returns "" exactly when the request failed or no visible string is left. Non-empty content is stripped. |
| Summarizer.ExtractedContent | summarization/summarizer.py:65-69 | Non-empty returned content is non-blank stripped text, and it is what the website keeps. |
| Config.NewOpenAIConfig | summarization/config.py:12-18 | The given model and temperature, no token limit, a 30-second timeout. |
| Config.DefaultWebsiteConfig | summarization/config.py:21-25 | A 10-second timeout. |
| Config.LoadConfig | summarization/config.py:37-73 | Fails with a missing key exactly when `OPENAI_API_KEY` is absent or empty. Otherwise it takes the model from `OPENAI_MODEL` or the default. The website settings are the defaults. |
| Config.DebugFlag | summarization/config.py:58 | Debugging is on exactly when `DEBUG` spells "true" in some capitalisation. |
| Config.DebugOnSpellsTrue | summarization/config.py:58 | `value.lower() == "true"` holds exactly for the sixteen capitalisations of "true". |
| Config.LogLevelUpper | summarization/config.py:59 | The log level is `LOG_LEVEL` in capitals, "INFO" when unset. It holds no lower-case ASCII letter. |
| Config.Temperature | summarization/config.py:57 | With a key present, the temperature is `float(os.getenv("OPENAI_TEMPERATURE", "0.7"))`, so a set but empty value is a text `float` rejects. A text `float` rejects is a configuration error. |
| Config.KeyOnlyGivesDefaults | summarization/config.py:37-73 | An environment holding only the key yields the dataclass defaults everywhere. |
| Config.ApplyDebugFlag | summarization/basic_summarization.py:102-104 | `--debug` turns debugging on and sets the level to "DEBUG". Without it nothing changes, and the OpenAI and website settings never change. |
| ApiClient.Answer | summarization/api_client.py:51-61 | The answer is the completion's content, and None for each caught exception. |
| ApiClient.AnswerCollapse | summarization/api_client.py:51-61 | The answer is None exactly when the service failed or answered without content. |
| ApiClient.EffectiveAnalysis | summarization/api_client.py:84 | A known analysis type is kept, and an unknown one becomes "summary". |
| ApiClient.SystemPrompt | summarization/api_client.py:77-84 | The prompt is the table's entry for the effective analysis type. |
| ApiClient.SystemPromptIdentifiesAnalysis | summarization/api_client.py:77-84 | Two types get the same prompt exactly when they have the same effective type. |
| ApiClient.PromptsDiffer | summarization/api_client.py:77-82 | The four prompts are pairwise different. |
| ApiClient.RecommendationMessage | summarization/api_client.py:39 | The topic appears twice, at fixed positions between the three fixed passages. |
| ApiClient.RecommendationMessageInjective | summarization/api_client.py:39 | Different topics give different messages. |
| ApiClient.GetWebsiteRecommendations | summarization/api_client.py:26-61 | One request. The answer is present exactly when the service completed with content, and it is that content. |
| ApiClient.AnalysisRequestReadBack | summarization/api_client.py:86-93 | The user message is the fixed prefix followed by the content. The system message is the persona, a space and the prompt. |
| ApiClient.AnalysisRequestInjective | summarization/api_client.py:86-93 | Two analysis requests are equal exactly when their contents and effective types are. |
| ApiClient.SummarizeContent | summarization/api_client.py:63-106 | One analysis request. The answer is present exactly when the service completed with content, and it is that content. |
| ApiClient.QuestionContentShape | summarization/api_client.py:122-124 | The question ends the message. A truthy context opens it after "Context:\n". The message is longer than the question exactly when the context is truthy. |
| ApiClient.AskQuestion | summarization/api_client.py:108-145 | One question request. The answer is present exactly when the service completed with content, and it is that content. |
| ApiClient.Personas | summarization/api_client.py:130 | The question and analysis personas extend the base persona. The recommendation request uses the base persona itself. |
| SummarizationService.SummarizeText | summarization/summarization_service.py:65-96 | Blank text is refused without a request. Other text goes to one analysis request unchanged, and its answer is returned as it is. |
| SummarizationService.SummarizeArticleFromUrl | summarization/summarization_service.py:25-63 | A raise, a None or blank page text ends in None without a request. Otherwise the page text is analysed as `summarize_text` would analyse it. |
| SummarizationService.RepliesComeFromOneRequest | summarization/summarization_service.py:25-96 | Each call sends at most one request, and any answer comes from it. What the article call sends is the extracted non-blank text. |
| SummarizationService.GetAnalysisTypes | summarization/summarization_service.py:98-105 | Four analysis types. |
| SummarizationService.AnalysisTypesArePromptKeys | summarization/summarization_service.py:98-105 | The advertised types are exactly the client's prompt keys, each once. |
| SummarizationService.SummarizerExtraction | summarization/summarization_service.py:44-45 | Extraction through the `summarizer.Website` model never returns None. |
| SummarizationService.ArticleOverSummarizer | summarization/summarization_service.py:44-49 | With the `summarizer.Website` model, an unreachable page sends nothing. What is sent is the website's content, which is stripped. |
| Interactive.PartsAreWords | summarization/basic_summarization.py:214-219 | `split(maxsplit=2)` of a stripped line gives the first two words, and a third part holding exactly the remaining words. |
| Interactive.AnalysisTypesAreWords | summarization/basic_summarization.py:251-252 | Every analysis type is one word. |
| Interactive.ParseLine | summarization/basic_summarization.py:214-217 | A line is skipped exactly when it is blank. |
| Interactive.ParsePartsMeaning | summarization/basic_summarization.py:220-284 | The command is decided by the lower-cased first word. Usage errors come exactly from a missing argument. `analyze` takes one known type or defaults to "summary", `ask` takes all the remaining words, and `websites` takes the second word or the default topic. |
| Interactive.AskQuestionWords | summarization/basic_summarization.py:266 | The question of `ask` has exactly the words after the command. |
| Interactive.QuestionOfTwoParts | summarization/basic_summarization.py:266 | Joining a word and a rest keeps the word first and then the rest's words. |
| Interactive.ParseLineMeaning | summarization/basic_summarization.py:214-284 | A non-blank line means, word by word, the command it parses to. |
| Interactive.Execute | summarization/basic_summarization.py:234-281 | At most one request, and only from summarize, analyze, ask or websites. `ask` sends the question without context, `websites` sends the topic, and the article commands send the extracted text. Any answer comes from the one request. |
| Interactive.RunSession | summarization/basic_summarization.py:212-291 | A session that ends does so at one of the lines read. |
| Interactive.Run | summarization/basic_summarization.py:212-224 | The loop ends, if at all, at one of the commands read. |
| Interactive.RunStopsAtFirstExit | summarization/basic_summarization.py:212-224 | The loop ends at the first `exit` and only there, having run every command before it in order. Without an `exit` it never ends, having run them all. |
| Interactive.SessionStopsAtFirstExit | summarization/basic_summarization.py:212-291 | The same for the typed lines: the session ends at the first line that parses as `exit`, and the earlier lines run in order. |
| Interactive.SessionIgnoresLaterInput | summarization/basic_summarization.py:222-224 | Input after the exit line never matters. |
| Interactive.RunIgnoresLaterCommands | summarization/basic_summarization.py:222-224 | Commands after `exit` never run. |
| Interactive.RunSendsOnlyStepRequests | summarization/basic_summarization.py:212-291 | Everything the loop sends was sent by one of the commands it read. |
| Interactive.SessionRequestsUseConfig | summarization/basic_summarization.py:212-291 | Every request of a session carries the configured model and temperature, then a system and a user message. |
| Interactive.ExecuteUsesConfig | summarization/basic_summarization.py:234-281 | The same for one command. |
| Cli.DefaultArgs | summarization/basic_summarization.py:53-95 | Without flags the type is "summary" and the topic "stock market". |
| Cli.SelectBranchPriority | summarization/basic_summarization.py:116-159 | Of the requested actions the one of highest priority runs: websites, URL, question, text, interactive. The demo runs exactly when nothing is requested. |
| Cli.LowerFlagsIgnored | summarization/basic_summarization.py:116-133 | When the websites or URL action runs, the question, text and interactive flags make no difference. |
| Cli.Label | summarization/basic_summarization.py:126 | The label has the type's length and letters up to case, and no underscore. A character is a space exactly when the type had an underscore or a space there. |
| Cli.LabelOfWord | summarization/basic_summarization.py:126 | A one-word lower-case type is shown capitalised. |
| Cli.LabelOfTwoWords | summarization/basic_summarization.py:126 | A two-word snake-case type is shown as two capitalised words separated by a space. |
| Cli.LabelsOfTypes | summarization/basic_summarization.py:146 | The four labels are "Summary", "Key Points", "Action Items" and "Risks". |
| Cli.SectionTitle | summarization/basic_summarization.py:117-146 | The first header `main` prints. The websites header ends with the topic. The article and text headers end with the type's label and a closing parenthesis. |
| Cli.SectionTitlesDistinct | summarization/basic_summarization.py:117-203 | Headers of different actions differ, whatever the topic and the type. |
| Cli.RunDemo | summarization/basic_summarization.py:178-198 | The demo first asks for recommendations on the default topic, and sends at most one more request. |
| Cli.DemoSendsArticle | summarization/basic_summarization.py:182-198 | The demo goes on to the article exactly when the recommendations came back non-empty and the page gave non-blank text. It then sends that text with the default analysis. |
| Cli.ExitCode | summarization/basic_summarization.py:119-123 | 0 exactly when the result is truthy, and 1 otherwise. |
| Cli.StandardLevels | summarization/logger.py:27-28 | With the standard `logging` module, "DEBUG" and "INFO" are accepted in any case. "basic_format" and "_styles" are rejected. |
| Cli.MainAsWritten | summarization/basic_summarization.py:99-175 | As written, `main` raises `UnboundLocalError` exactly when `load_config` or `setup_logging` raises, and then sends nothing. |
| Cli.MissingKeyRaises | summarization/basic_summarization.py:164-167 | Without an API key, `main` as written raises instead of returning 1. |
| Cli.RejectedLevelRaises | summarization/logger.py:27-28 | With `LOG_LEVEL=basic_format`, no `--debug` and a loadable configuration, `main` as written raises `UnboundLocalError`, where the intended `main` returns 1 with nothing sent. |
| Cli.Main | summarization/basic_summarization.py:99-175 | As intended, a configuration or logging error returns 1 with nothing sent, and `main` never raises `UnboundLocalError`. |
| Cli.MainAgreesWhenConfigured | summarization/basic_summarization.py:99-175 | Both readings agree exactly when `load_config` returns and `setup_logging` accepts the level. |
| Cli.ExitCodes | summarization/basic_summarization.py:99-175 | The four single-request actions return 0 exactly when their one request was answered with non-empty content, and 1 otherwise. The demo returns 0 exactly when `main` starts up. Once started, the interactive mode returns 0 or never returns. |
| Cli.MainRequestsUseConfig | summarization/basic_summarization.py:112-159 | Every request `main` sends carries the loaded model and temperature, then a system and a user message. |
| Cli.DispatchUsesConfig | summarization/basic_summarization.py:112-159 | The same for each action. |
| Cli.DemoUsesConfig | summarization/basic_summarization.py:178-198 | The same for the demo. |
| Cli.DebugChangesNothingSent | summarization/basic_summarization.py:102-107 | When `setup_logging` accepts both the configured level and "DEBUG", or the configuration fails to load, `--debug` changes neither what `main` sends nor how it ends. |
| Cli.DebugCanChangeExit | summarization/basic_summarization.py:102-107 | When the configured level is one `setup_logging` rejects, the demo returns 1 without `--debug` and 0 with it. |

## Left out

- The HTTP client and the HTML parser: the fetch is a parameter returning a parsed forest or a request failure. Parser failures are not modelled.
- The parser's special strings (comments, doctypes, and the text of `template`, `rt` and `rp`) are not represented. A text node is a plain string.
- The OpenAI SDK and the network: the service is a parameter. The SDK client object and its construction are not modelled.
- `float()` parsing: it is a parameter that may fail (Python's `ValueError`).
- `load_dotenv` and `argparse`: the environment is a map and the arguments are a record. `argparse`'s `--type` choices are not enforced; an unknown type falls back to "summary" in the client, as it would there.
- `util.Website`, which the service imports, is not part of this model. It is a parameter, and `SummarizationService.ArticleOverSummarizer` shows the service over the `summarizer.Website` model.
- `logger.py` apart from its level lookup, and all logging and printing. Only the section titles `main` prints are modelled. The `logging` module is a parameter: for each name, whether `getattr` finds nothing, a level, or a value `setLevel` rejects.
- `_is_value` (unused by the program) and the `__main__` block of `summarizer.py`.
- `KeyboardInterrupt`, in `main` and in the interactive loop. Of the generic `except Exception` of `main`, only the `TypeError` from `setup_logging` is modelled; no other modelled operation raises there.
- `urlparse`'s `ValueError` for malformed brackets in the network location: only the scheme rule is modelled.
- Older `urlparse` behaviour: the scheme rule follows Python 3.11 and later. Before Python 3.9, `urlsplit` read "host:digits" as having no scheme, so `Website` would add "http://" where `UrlParse.HostPortKept` keeps the URL as given.
- PyStr.TitleCase: `title()` is modelled for ASCII letters only; other cased characters are left unchanged and do not count as cased for the character after them, so "éa" becomes "éA" where Python gives "Éa". `argparse` admits only the four ASCII types.
- PyStr.Upper: `upper()` is modelled for ASCII letters only; other cased characters are left unchanged.
- PyStr.Lower: `lower()` maps ASCII capitals and the KELVIN SIGN only, exact wherever the result is compared with an ASCII word.
- PyStr.Join: states the first and last part of the result, not the full concatenation, except for two parts (`PyStr.JoinTwo`).
- Interactive.RunSession: at the end of input, `input()` raises `EOFError`, which the loop catches, so the loop asks again forever. This is modelled as a session that never ends.

## Findings

| source | as written | input that shows it | evidently intended | confidence | as-written member | corrected member |
|---|---|---|---|---|---|---|
| summarization/basic_summarization.py:164-167 | the `ValueError` handler logs through `logger`, which is assigned only after `load_config` returns | no `OPENAI_API_KEY` in the environment: `load_config` raises `ValueError`, and the handler raises `UnboundLocalError` | report the configuration error and return 1; as written, `main` raises `UnboundLocalError` instead, and the process still exits with status 1, with a traceback after the message | not executed | Cli.MissingKeyRaises | Cli.Main |
| summarization/logger.py:27-28 | `setup_logging` passes whatever attribute of `logging` the level names to `setLevel`, which raises on a non-level; `main` has not yet assigned `logger`, so its handler raises `UnboundLocalError` | `OPENAI_API_KEY` set, `LOG_LEVEL=basic_format`, no `--debug`: `logging.BASIC_FORMAT` is a str, `setLevel` raises `ValueError`, and the handler raises `UnboundLocalError` | report the error and return 1 | not executed | Cli.RejectedLevelRaises | Cli.Main |
