/** `run_interactive_mode`: a read-eval loop over the lines the user types.
    Each line is parsed into a command; a command sends at most one request
    through the service or the client; "exit" ends the loop. Console output
    is not modelled: what a session does is the requests it sends and how it
    ends. */
module Interactive {
  import opened Wrappers
  import opened PyStr
  import opened ApiClient
  import opened SummarizationService

  /** What one input line asks for. */
  datatype Command =
      /** The stripped line is empty: `continue`. */
    | Blank
    | Exit
    | Help
      /** `summarize`, `analyze` or `ask` without an argument. */
    | Usage(command: string)
    | Summarize(url: string)
    | Analyze(url: string, analysisType: string)
      /** `analyze` with a type `get_analysis_types` does not list. */
    | InvalidType(analysisType: string)
    | Ask(question: string)
    | Websites(topic: string)
    | Unknown(command: string)

  /** How the parts of `split(maxsplit=2)` relate to the words of the same
      text: the first two parts are its first two words, and a third part,
      when there is one, holds exactly the remaining words. */
  ghost predicate PartsOfWords(parts: seq<string>, w: seq<string>) {
    && 1 <= |parts| <= 3 && |w| >= 1 && parts[0] == w[0]
    && (|parts| >= 2 <==> |w| >= 2)
    && (|parts| >= 2 ==> parts[1] == w[1] && parts[1] != [] && NoSpace(parts[1]))
    && (|parts| == 3 <==> |w| >= 3)
    && (|parts| == 3 ==> Stripped(parts[2]) && Words(parts[2]) == w[2..])
    && (|parts| == 3 && |w| == 3 ==> parts[2] == w[2])
    && (|parts| <= 2 ==> parts == w)
  }

  /** Splitting a stripped line at most twice agrees with its words. */
  lemma PartsAreWords(input: string)
    requires Stripped(input)
    ensures PartsOfWords(Split(input, 2), Words(input))
  {
    var parts := Split(input, 2);
    var w := Words(input);
    assert !IsSpace(input[0]);
    SplitRefinesWords(input, 2);
    SplitParts(input, 2);
    WordsAreWords(input);
    if |parts| == 3 {
      SplitLastStripped(input, 2);
      assert !IsSpace(parts[2][0]);
      WordsAreWords(parts[2]);
      assert w[2..] == Words(parts[2]);
      if |w| == 3 {
        SingleWordStripped(parts[2]);
      }
    }
  }

  /** The analysis types are single words. */
  lemma AnalysisTypesAreWords()
    ensures forall t :: t in GetAnalysisTypes() ==> t != [] && NoSpace(t)
  {
    var ts := GetAnalysisTypes();
    forall i | 0 <= i < |ts| ensures ts[i] != [] && NoSpace(ts[i]) {
      assert |ts[0]| == 7 && |ts[1]| == 10 && |ts[2]| == 12 && |ts[3]| == 5;
    }
  }

  /** One line of the loop: strip it; skip it when empty; otherwise split it
      at most twice and dispatch on the parts. */
  function ParseLine(line: string): (c: Command)
    ensures c.Blank? <==> AllSpace(line)
  {
    var input := Strip(line);
    if input == [] then Blank
    else
      assert !IsSpace(input[0]);
      SplitParts(input, 2);
      ParseParts(Split(input, 2))
  }

  /** The dispatch on the lower-cased first part. */
  function ParseParts(parts: seq<string>): (c: Command)
    requires |parts| >= 1
    ensures !c.Blank?
  {
    var command := Lower(parts[0]);
    if command == "exit" then Exit
    else if command == "help" then Help
    else if command == "summarize" then
      if |parts| < 2 then Usage(command) else Summarize(parts[1])
    else if command == "analyze" then
      if |parts| < 2 then Usage(command)
      else
        var analysisType := if |parts| > 2 then parts[2] else DefaultAnalysis;
        if analysisType !in GetAnalysisTypes() then InvalidType(analysisType)
        else Analyze(parts[1], analysisType)
    else if command == "ask" then
      if |parts| < 2 then Usage(command) else Ask(Join(parts[1..], " "))
    else if command == "websites" then
      Websites(if |parts| > 1 then parts[1] else DefaultTopic)
    else Unknown(command)
  }

  /** What a line whose words are `w` asks for, stated word by word: the
      command kinds are decided by the lower-cased first word alone; an
      argument is missing exactly when there is one word; `analyze` takes a
      URL and at most one known type; `ask` takes all the words after it;
      `websites` takes the second word as its topic. */
  ghost predicate MeansCommand(w: seq<string>, c: Command)
    requires |w| >= 1
  {
    var cmd := Lower(w[0]);
    && (c.Exit? <==> cmd == "exit")
    && (c.Help? <==> cmd == "help")
    && (c.Usage? <==> |w| == 1 && (cmd == "summarize" || cmd == "analyze" || cmd == "ask"))
    && (c.Usage? ==> c.command == cmd)
    && (c.Summarize? <==> cmd == "summarize" && |w| >= 2)
    && (c.Summarize? ==> c.url == w[1])
    && (c.Analyze? <==> cmd == "analyze" && (|w| == 2 || (|w| == 3 && w[2] in GetAnalysisTypes())))
    && (c.Analyze? ==> c.url == w[1] && c.analysisType == if |w| == 2 then DefaultAnalysis else w[2])
    && (c.InvalidType? <==> cmd == "analyze" && |w| >= 3 && !(|w| == 3 && w[2] in GetAnalysisTypes()))
    && (c.InvalidType? ==> Words(c.analysisType) == w[2..])
    && (c.Ask? <==> cmd == "ask" && |w| >= 2)
    && (c.Ask? ==> Words(c.question) == w[1..] && w[1] <= c.question)
    && (c.Websites? <==> cmd == "websites")
    && (c.Websites? ==> c.topic == if |w| >= 2 then w[1] else DefaultTopic)
    && (c.Unknown? <==> cmd !in {"exit", "help", "summarize", "analyze", "ask", "websites"})
    && (c.Unknown? ==> c.command == cmd)
  }

  /** The parser means what the words say. */
  lemma ParsePartsMeaning(parts: seq<string>, w: seq<string>)
    requires PartsOfWords(parts, w)
    ensures MeansCommand(w, ParseParts(parts))
  {
    var c := ParseParts(parts);
    var cmd := Lower(w[0]);
    if cmd == "analyze" {
      AnalysisTypesAreWords();
      if |parts| == 3 && parts[2] in GetAnalysisTypes() {
        WordsOfWord(parts[2]);
        assert w[2..][0] == w[2];
      }
      if |parts| == 2 {
        var ts := GetAnalysisTypes();
        assert DefaultAnalysis == ts[0] && ts[0] in ts;
      }
    } else if cmd == "ask" && |w| >= 2 {
      AskQuestionWords(parts, w);
    }
  }

  lemma AskQuestionWords(parts: seq<string>, w: seq<string>)
    requires PartsOfWords(parts, w) && |w| >= 2
    ensures Words(Join(parts[1..], " ")) == w[1..] && w[1] <= Join(parts[1..], " ")
  {
    if |parts| == 2 {
      assert parts[1..] == [parts[1]];
      WordsOfWord(parts[1]);
    } else {
      assert parts[1..] == [parts[1], parts[2]];
      assert w[1..] == [w[1]] + w[2..];
      QuestionOfTwoParts(parts[1], parts[2]);
    }
  }

  /** `" ".join([a, b])` for a word `a` has the words of `a` then `b`. */
  lemma QuestionOfTwoParts(a: string, b: string)
    requires a != [] && NoSpace(a)
    ensures Words(Join([a, b], " ")) == [a] + Words(b) && a <= Join([a, b], " ")
  {
    JoinTwo(a, b, " ");
    WordsPrependWord(a, b);
  }

  /** A line that is not blank means, through its words, the command it
      parses to. */
  lemma ParseLineMeaning(line: string)
    requires !AllSpace(line)
    ensures |Words(Strip(line))| >= 1 && MeansCommand(Words(Strip(line)), ParseLine(line))
  {
    var input := Strip(line);
    PartsAreWords(input);
    ParsePartsMeaning(Split(input, 2), Words(input));
  }

  // ---------------------------------------------------------------------
  // Running commands

  /** What running a command sends and answers. `summarize` uses the
      default analysis; `ask` sends no context. Commands that print only
      send nothing. */
  function Execute(s: Service, complete: Request -> Completion, extract: string -> Extraction, c: Command): (r: Reply)
    ensures |r.sent| <= 1
    ensures r.sent != [] ==> c.Summarize? || c.Analyze? || c.Ask? || c.Websites?
    ensures c.Ask? ==> r.sent == [QuestionRequest(s.client.config, c.question, None)]
    ensures c.Websites? ==> r.sent == [RecommendationRequest(s.client.config, c.topic)]
    ensures c.Summarize? && r.sent != [] ==>
      extract(c.url).Returned? && extract(c.url).content.Some? &&
      r.sent == [AnalysisRequest(s.client.config, extract(c.url).content.value, DefaultAnalysis)]
    ensures c.Analyze? && r.sent != [] ==>
      extract(c.url).Returned? && extract(c.url).content.Some? &&
      r.sent == [AnalysisRequest(s.client.config, extract(c.url).content.value, c.analysisType)]
    ensures r.answer.Some? ==> |r.sent| == 1 && complete(r.sent[0]) == Completed(r.answer)
  {
    match c
    case Summarize(url) => SummarizeArticleFromUrl(s, complete, extract, url, DefaultAnalysis)
    case Analyze(url, analysisType) => SummarizeArticleFromUrl(s, complete, extract, url, analysisType)
    case Ask(question) =>
      Reply(AskQuestion(s.client, complete, question, None), [QuestionRequest(s.client.config, question, None)])
    case Websites(topic) =>
      Reply(GetWebsiteRecommendations(s.client, complete, topic), [RecommendationRequest(s.client.config, topic)])
    case _ => Reply(None, [])
  }

  /** How the loop ends: "exit" on the given line (counting from 1), or
      never: at the end of input `input()` raises `EOFError`, which the
      loop's `except Exception` catches, so the loop asks again forever. */
  datatype SessionEnd = Exited(line: nat) | NeverEnds

  datatype SessionResult = SessionResult(sent: seq<Request>, end: SessionEnd)

  /** The commands the lines parse to, one per line. */
  function Commands(lines: seq<string>): (cs: seq<Command>)
    ensures |cs| == |lines|
    ensures forall i :: 0 <= i < |lines| ==> cs[i] == ParseLine(lines[i])
  {
    seq(|lines|, i requires 0 <= i < |lines| => ParseLine(lines[i]))
  }

  /** The requests one command sends, as the loop runs it. */
  function Step(s: Service, complete: Request -> Completion, extract: string -> Extraction): Command -> seq<Request>
  {
    c => Execute(s, complete, extract, c).sent
  }

  /** The loop over the input lines. */
  function RunSession(s: Service, complete: Request -> Completion, extract: string -> Extraction, lines: seq<string>): (r: SessionResult)
    ensures r.end.Exited? ==> 1 <= r.end.line <= |lines|
  {
    Run(Step(s, complete, extract), Commands(lines))
  }

  /** The loop over parsed lines: run each command until `exit`. */
  function Run(step: Command -> seq<Request>, cs: seq<Command>): (r: SessionResult)
    ensures r.end.Exited? ==> 1 <= r.end.line <= |cs|
    decreases |cs|
  {
    if cs == [] then SessionResult([], NeverEnds)
    else if cs[0].Exit? then SessionResult([], Exited(1))
    else
      var rest := Run(step, cs[1..]);
      SessionResult(
        step(cs[0]) + rest.sent,
        match rest.end
        case Exited(k) => Exited(k + 1)
        case NeverEnds => NeverEnds)
  }

  /** The requests of running every command, without stopping: the
      reference the loop is compared with. */
  function SentByAll(step: Command -> seq<Request>, cs: seq<Command>): seq<Request>
  {
    if cs == [] then []
    else SentByAll(step, cs[..|cs| - 1]) + step(cs[|cs| - 1])
  }

  lemma {:induction false} SentByAllAppend(step: Command -> seq<Request>, a: seq<Command>, b: seq<Command>)
    ensures SentByAll(step, a + b) == SentByAll(step, a) + SentByAll(step, b)
    decreases |b|
  {
    if b == [] {
      assert a + b == a;
    } else {
      var b' := b[..|b| - 1];
      assert (a + b)[..|a + b| - 1] == a + b';
      assert (a + b)[|a + b| - 1] == b[|b| - 1];
      SentByAllAppend(step, a, b');
    }
  }

  /** The loop ends at the first command that is `exit`, and only there;
      before it, every command runs in order. Without an `exit` the loop
      never ends, having run them all. */
  lemma {:induction false} RunStopsAtFirstExit(step: Command -> seq<Request>, cs: seq<Command>)
    ensures var r := Run(step, cs);
      r.end.Exited? ==>
        && cs[r.end.line - 1].Exit?
        && (forall i :: 0 <= i < r.end.line - 1 ==> !cs[i].Exit?)
        && r.sent == SentByAll(step, cs[..r.end.line - 1])
    ensures var r := Run(step, cs);
      r.end.NeverEnds? <==> forall i :: 0 <= i < |cs| ==> !cs[i].Exit?
    ensures var r := Run(step, cs);
      r.end.NeverEnds? ==> r.sent == SentByAll(step, cs)
    decreases |cs|
  {
    if cs != [] && !cs[0].Exit? {
      var tail := cs[1..];
      RunStopsAtFirstExit(step, tail);
      var rest := Run(step, tail);
      assert SentByAll(step, [cs[0]]) == step(cs[0]) by {
        assert [cs[0]][..0] == [];
      }
      if rest.end.Exited? {
        var k := rest.end.line;
        assert cs[..k] == [cs[0]] + tail[..k - 1];
        SentByAllAppend(step, [cs[0]], tail[..k - 1]);
      } else {
        assert cs == [cs[0]] + tail;
        SentByAllAppend(step, [cs[0]], tail);
      }
    } else if cs != [] {
      assert cs[..0] == [];
    }
  }

  /** The session ends at the first line that parses as `exit`, and only
      there; the lines before it run in order; without such a line the
      session never ends. */
  lemma SessionStopsAtFirstExit(
    s: Service, complete: Request -> Completion, extract: string -> Extraction, lines: seq<string>)
    ensures var r := RunSession(s, complete, extract, lines);
      r.end.Exited? ==>
        && ParseLine(lines[r.end.line - 1]).Exit?
        && (forall i :: 0 <= i < r.end.line - 1 ==> !ParseLine(lines[i]).Exit?)
        && r.sent == SentByAll(Step(s, complete, extract), Commands(lines[..r.end.line - 1]))
    ensures var r := RunSession(s, complete, extract, lines);
      r.end.NeverEnds? <==> forall i :: 0 <= i < |lines| ==> !ParseLine(lines[i]).Exit?
    ensures var r := RunSession(s, complete, extract, lines);
      r.end.NeverEnds? ==> r.sent == SentByAll(Step(s, complete, extract), Commands(lines))
  {
    var cs := Commands(lines);
    RunStopsAtFirstExit(Step(s, complete, extract), cs);
    var r := Run(Step(s, complete, extract), cs);
    if r.end.Exited? {
      assert Commands(lines[..r.end.line - 1]) == cs[..r.end.line - 1];
    }
  }

  /** Input after the exit line is never read. */
  lemma SessionIgnoresLaterInput(
    s: Service, complete: Request -> Completion, extract: string -> Extraction, lines: seq<string>, more: seq<string>)
    requires RunSession(s, complete, extract, lines).end.Exited?
    ensures RunSession(s, complete, extract, lines + more) == RunSession(s, complete, extract, lines)
  {
    var cs := Commands(lines);
    CommandsAppend(lines, more);
    RunIgnoresLaterCommands(Step(s, complete, extract), cs, Commands(more));
  }

  lemma CommandsAppend(a: seq<string>, b: seq<string>)
    ensures Commands(a + b) == Commands(a) + Commands(b)
  {
    var l, r := Commands(a + b), Commands(a) + Commands(b);
    forall i | 0 <= i < |a + b| ensures l[i] == r[i] {
      if i < |a| {
        assert (a + b)[i] == a[i];
      } else {
        assert (a + b)[i] == b[i - |a|];
      }
    }
  }

  lemma {:induction false} RunIgnoresLaterCommands(step: Command -> seq<Request>, cs: seq<Command>, more: seq<Command>)
    requires Run(step, cs).end.Exited?
    ensures Run(step, cs + more) == Run(step, cs)
    decreases |cs|
  {
    if !cs[0].Exit? {
      assert (cs + more)[1..] == cs[1..] + more;
      RunIgnoresLaterCommands(step, cs[1..], more);
    }
  }

  /** Everything the loop sends was sent by one of the commands it read. */
  lemma {:induction false} RunSendsOnlyStepRequests(step: Command -> seq<Request>, cs: seq<Command>)
    ensures forall q :: q in Run(step, cs).sent ==> exists i :: 0 <= i < |cs| && q in step(cs[i])
    decreases |cs|
  {
    if cs != [] && !cs[0].Exit? {
      var tail := cs[1..];
      RunSendsOnlyStepRequests(step, tail);
      forall q | q in Run(step, cs).sent
        ensures exists i :: 0 <= i < |cs| && q in step(cs[i])
      {
        if q !in step(cs[0]) {
          assert Run(step, cs).sent == step(cs[0]) + Run(step, tail).sent;
          var i :| 0 <= i < |tail| && q in step(tail[i]);
          assert tail[i] == cs[i + 1];
        }
      }
    }
  }

  /** Every request the session sends carries the client's model and
      temperature and a system and a user message. */
  lemma SessionRequestsUseConfig(
    s: Service, complete: Request -> Completion, extract: string -> Extraction, lines: seq<string>)
    ensures forall q :: q in RunSession(s, complete, extract, lines).sent ==> UsesConfig(s.client.config, q)
  {
    var step := Step(s, complete, extract);
    var cs := Commands(lines);
    RunSendsOnlyStepRequests(step, cs);
    forall q | q in Run(step, cs).sent ensures UsesConfig(s.client.config, q) {
      var i :| 0 <= i < |cs| && q in step(cs[i]);
      ExecuteUsesConfig(s, complete, extract, cs[i]);
    }
  }

  lemma ExecuteUsesConfig(s: Service, complete: Request -> Completion, extract: string -> Extraction, c: Command)
    ensures forall q :: q in Execute(s, complete, extract, c).sent ==> UsesConfig(s.client.config, q)
  {
    var r := Execute(s, complete, extract, c);
    if r.sent != [] {
      assert forall q :: q in r.sent ==> q == r.sent[0];
    }
  }
}
