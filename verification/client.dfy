/** `api_client.FinancialAnalystClient`: the three chat requests the program
    makes. The OpenAI service is a parameter `complete` from the request
    sent to what came back; each call sends exactly one request and turns
    every failure into None. */
module ApiClient {
  import opened Wrappers
  import opened PyStr
  import opened Config

  datatype Role = System | User

  datatype Message = Message(role: Role, content: string)

  /** The arguments of `chat.completions.create`. */
  datatype Request = Request(model: string, temperature: real, messages: seq<Message>)

  /** What the service call produced: a response whose first choice has
      the given content (None when the message has none), or one of the
      exceptions the client catches. `Unexpected` is any other exception,
      a response without choices among them. */
  datatype Completion = Completed(content: Option<string>) | RateLimited | ApiFailure | Unexpected

  /** The client keeps only its OpenAI configuration; the SDK object and
      the logger are outside the model. */
  datatype Client = Client(config: OpenAIConfig)

  const Persona: string := "You are a helpful assistant who is an expert financial analyst."

  const DefaultTopic: string := "stock market"

  const DefaultAnalysis: string := "summary"

  /** The system prompts of `summarize_content`, by analysis type. */
  const Prompts: map<string, string> := map[
    "summary" := SummaryPrompt,
    "key_points" := KeyPointsPrompt,
    "action_items" := ActionItemsPrompt,
    "risks" := RisksPrompt
  ]

  const SummaryPrompt: string :=
    "You are provided with a cleaned up financial news article. Please summarize the key points and implications for investors."
  const KeyPointsPrompt: string :=
    "Extract and list the top 5 key points from this financial article that investors should know about."
  const ActionItemsPrompt: string :=
    "Based on this financial article, what actionable items should investors consider? List them clearly."
  const RisksPrompt: string :=
    "Identify and explain the key risks mentioned or implied in this financial article for investors."

  const ContentPrefix: string := "Here is the content to analyze:\n\n"

  /** `response.choices[0].message.content`, or None for every caught
      exception. */
  function Answer(c: Completion): (r: Option<string>)
    ensures r.Some? ==> c.Completed? && c.content == r
    ensures c.Completed? ==> r == c.content
  {
    match c
    case Completed(content) => content
    case RateLimited => None
    case ApiFailure => None
    case Unexpected => None
  }

  /** A call's answer is None exactly when the service failed or answered
      with no content. */
  lemma AnswerCollapse(c: Completion)
    ensures Answer(c).None? <==> !c.Completed? || c.content.None?
  {
  }

  /** The analysis type a prompt is chosen for: the given one when known,
      otherwise "summary". */
  function EffectiveAnalysis(analysisType: string): (t: string)
    ensures t in Prompts
    ensures analysisType in Prompts ==> t == analysisType
  {
    if analysisType in Prompts then analysisType else DefaultAnalysis
  }

  /** `prompts.get(analysis_type, prompts["summary"])`. */
  function SystemPrompt(analysisType: string): (p: string)
    ensures p in Prompts.Values
    ensures p == Prompts[EffectiveAnalysis(analysisType)]
  {
    if analysisType in Prompts then Prompts[analysisType] else Prompts[DefaultAnalysis]
  }

  /** The four prompts are different, so the prompt sent tells which
      analysis was asked for, an unknown type counting as "summary". */
  lemma SystemPromptIdentifiesAnalysis(a: string, b: string)
    ensures SystemPrompt(a) == SystemPrompt(b) <==> EffectiveAnalysis(a) == EffectiveAnalysis(b)
  {
    var pa := EffectiveAnalysis(a);
    var pb := EffectiveAnalysis(b);
    if pa != pb {
      PromptsDiffer(pa, pb);
    }
  }

  lemma PromptsDiffer(a: string, b: string)
    requires a in Prompts && b in Prompts && a != b
    ensures Prompts[a] != Prompts[b]
  {
    assert |SummaryPrompt| == 122 && |KeyPointsPrompt| == 99;
    assert |ActionItemsPrompt| == 100 && |RisksPrompt| == 96;
  }

  /** A request the way every method builds it: the configured model and
      temperature, a system message and a user message. */
  function Chat(config: OpenAIConfig, system: string, user: string): (q: Request)
    ensures q.model == config.model && q.temperature == config.temperature
    ensures |q.messages| == 2
    ensures q.messages[0] == Message(System, system) && q.messages[1] == Message(User, user)
  {
    Request(config.model, config.temperature, [Message(System, system), Message(User, user)])
  }

  /** The request carries the configured model and temperature and a
      system message followed by a user message. */
  predicate UsesConfig(config: OpenAIConfig, q: Request) {
    && q.model == config.model && q.temperature == config.temperature
    && |q.messages| == 2 && q.messages[0].role == System && q.messages[1].role == User
  }

  // ---------------------------------------------------------------------
  // get_website_recommendations

  const RecommendationHead: string := "Provide some good websites for financial information pertaining to the "
  const RecommendationMiddle: string := ". These should include both sites with news and analysis, as well as sites that provide data and statistics on "
  const RecommendationTail: string := ", especially sites where basic financial information, such as EPS, revenue, earnings, etc. Please include a brief description of each site and what it offers."

  /** The user message of `get_website_recommendations`: the topic is named
      twice. */
  function RecommendationMessage(topic: string): (m: string)
    ensures |m| == |RecommendationHead| + 2 * |topic| + |RecommendationMiddle| + |RecommendationTail|
    ensures m[|RecommendationHead|..|RecommendationHead| + |topic|] == topic
    ensures var j := |RecommendationHead| + |topic| + |RecommendationMiddle|; m[j..j + |topic|] == topic
  {
    TopicTwice(RecommendationHead, topic, RecommendationMiddle, RecommendationTail);
    RecommendationHead + topic + RecommendationMiddle + topic + RecommendationTail
  }

  lemma TopicTwice(a: string, t: string, b: string, c: string)
    ensures |a + t + b + t + c| == |a| + 2 * |t| + |b| + |c|
    ensures (a + t + b + t + c)[|a|..|a| + |t|] == t
    ensures (a + t + b + t + c)[|a| + |t| + |b|..|a| + |t| + |b| + |t|] == t
  {
    assert a + t + b + t + c == (a + t + b) + t + c;
  }

  /** Different topics give different messages: the topic can be read back. */
  lemma RecommendationMessageInjective(a: string, b: string)
    requires RecommendationMessage(a) == RecommendationMessage(b)
    ensures a == b
  {
  }

  function RecommendationRequest(config: OpenAIConfig, topic: string): Request {
    Chat(config, Persona, RecommendationMessage(topic))
  }

  /** `get_website_recommendations(topic)`: one request; its answer or None. */
  function GetWebsiteRecommendations(c: Client, complete: Request -> Completion, topic: string): (r: Option<string>)
    ensures r.Some? <==> complete(RecommendationRequest(c.config, topic)).Completed? && complete(RecommendationRequest(c.config, topic)).content.Some?
    ensures r.Some? ==> r == complete(RecommendationRequest(c.config, topic)).content
  {
    Answer(complete(RecommendationRequest(c.config, topic)))
  }

  // ---------------------------------------------------------------------
  // summarize_content

  function AnalysisRequest(config: OpenAIConfig, content: string, analysisType: string): Request {
    Chat(config, Persona + " " + SystemPrompt(analysisType), ContentPrefix + content)
  }

  /** An analysis request carries the content after the fixed prefix and
      the prompt after the persona; so two analysis requests are the same
      exactly when their contents and effective analysis types are. */
  lemma AnalysisRequestReadBack(config: OpenAIConfig, content: string, analysisType: string)
    ensures var u := AnalysisRequest(config, content, analysisType).messages[1].content;
      ContentPrefix <= u && u[|ContentPrefix|..] == content
    ensures var s := AnalysisRequest(config, content, analysisType).messages[0].content;
      Persona <= s && s[|Persona| + 1..] == Prompts[EffectiveAnalysis(analysisType)]
  {
    Concat(ContentPrefix, content);
    Concat(Persona, " " + SystemPrompt(analysisType));
    Concat(" ", SystemPrompt(analysisType));
  }

  lemma Concat(a: string, b: string)
    ensures a <= a + b && (a + b)[|a|..] == b
  {
  }

  lemma AnalysisRequestInjective(config: OpenAIConfig, c1: string, t1: string, c2: string, t2: string)
    ensures AnalysisRequest(config, c1, t1) == AnalysisRequest(config, c2, t2) <==>
      c1 == c2 && EffectiveAnalysis(t1) == EffectiveAnalysis(t2)
  {
    AnalysisRequestReadBack(config, c1, t1);
    AnalysisRequestReadBack(config, c2, t2);
    SystemPromptIdentifiesAnalysis(t1, t2);
  }

  /** `summarize_content(content, analysis_type)`. */
  function SummarizeContent(c: Client, complete: Request -> Completion, content: string, analysisType: string): (r: Option<string>)
    ensures r.Some? <==> complete(AnalysisRequest(c.config, content, analysisType)).Completed? && complete(AnalysisRequest(c.config, content, analysisType)).content.Some?
    ensures r.Some? ==> r == complete(AnalysisRequest(c.config, content, analysisType)).content
  {
    Answer(complete(AnalysisRequest(c.config, content, analysisType)))
  }

  // ---------------------------------------------------------------------
  // ask_question

  const AskPersona: string := Persona + " Provide clear, actionable advice."

  /** The user message of `ask_question`: the question alone, or framed by
      the context when the context is truthy. */
  function QuestionContent(question: string, context: Option<string>): (m: string)
    ensures !Truthy(context) ==> m == question
    ensures Truthy(context) ==> m == "Context:\n" + context.value + "\n\nQuestion: " + question
  {
    if Truthy(context) then "Context:\n" + context.value + "\n\nQuestion: " + question else question
  }

  /** The question always ends the message, and a context appears in it
      whenever it is given and non-empty. */
  lemma QuestionContentShape(question: string, context: Option<string>)
    ensures IsSuffix(question, QuestionContent(question, context))
    ensures Truthy(context) ==> "Context:\n" <= QuestionContent(question, context)
    ensures Truthy(context) ==> QuestionContent(question, context)[9..9 + |context.value|] == context.value
    ensures |QuestionContent(question, context)| > |question| <==> Truthy(context)
  {
    var m := QuestionContent(question, context);
    if Truthy(context) {
      assert m == ("Context:\n" + context.value + "\n\nQuestion: ") + question;
    }
  }

  function QuestionRequest(config: OpenAIConfig, question: string, context: Option<string>): Request {
    Chat(config, AskPersona, QuestionContent(question, context))
  }

  /** `ask_question(question, context)`. */
  function AskQuestion(c: Client, complete: Request -> Completion, question: string, context: Option<string>): (r: Option<string>)
    ensures r.Some? <==> complete(QuestionRequest(c.config, question, context)).Completed? && complete(QuestionRequest(c.config, question, context)).content.Some?
    ensures r.Some? ==> r == complete(QuestionRequest(c.config, question, context)).content
  {
    Answer(complete(QuestionRequest(c.config, question, context)))
  }

  /** The three personas: the analysis one extends the base persona with
      the prompt, the question one with a fixed sentence. */
  lemma Personas(analysisType: string)
    ensures Persona <= AskPersona
    ensures Persona <= AnalysisRequest(Config.DefaultOpenAIConfig(), [], analysisType).messages[0].content
    ensures RecommendationRequest(Config.DefaultOpenAIConfig(), DefaultTopic).messages[0].content == Persona
  {
    Concat(Persona, " Provide clear, actionable advice.");
    Concat(Persona, " " + SystemPrompt(analysisType));
  }
}
